/** The host's power state machine (mhi_pm.c, state bits in mhi_internal.h).

    `pm_state` is a word in which one bit is set. Requests go through mhi_tryset_pm_state;
    power-up writes DISABLE and then POR directly, and a RDDM download in a kernel panic writes
    LD_ERR_FATAL_DETECT directly (mhi_boot.c). */
module PowerStates {

  datatype Pm =
    | Disable | Por | M0 | M2 | M3Enter | M3 | M3Exit | FwDlErr
    | SysErrDetect | SysErrProcess | ShutdownProcess | LdErrFatal

  /** Position of the state's bit. */
  function BitOf(s: Pm): (i: nat)
    ensures i < 12
  {
    match s
    case Disable => 0 case Por => 1 case M0 => 2 case M2 => 3
    case M3Enter => 4 case M3 => 5 case M3Exit => 6 case FwDlErr => 7
    case SysErrDetect => 8 case SysErrProcess => 9
    case ShutdownProcess => 10 case LdErrFatal => 11
  }

  /** BIT(i) */
  function Bit(i: nat): (w: nat)
    ensures w > 0
  {
    if i == 0 then 1 else 2 * Bit(i - 1)
  }

  /** The word with only that state's bit set. */
  function Word(s: Pm): nat { Bit(BitOf(s)) }

  /** Different states have different words, and the error states are the upper ones: a word holds an
      error state exactly when it is FW_DL_ERR, 0x80, or more. */
  lemma WordsOrdered(s: Pm, t: Pm)
    ensures Word(s) == Word(t) <==> s == t
    ensures InError(s) <==> Word(s) >= 0x80
    ensures Word(Disable) == 1 && Word(Por) == 2 && Word(M0) == 4 && Word(M2) == 8 && Word(M3Enter) == 0x10
    ensures Word(M3) == 0x20 && Word(M3Exit) == 0x40 && Word(FwDlErr) == 0x80 && Word(SysErrDetect) == 0x100
    ensures Word(SysErrProcess) == 0x200 && Word(ShutdownProcess) == 0x400 && Word(LdErrFatal) == 0x800
  {
    assert Bit(3) == 8 && Bit(6) == 0x40;
    assert Bit(9) == 0x200 && Bit(11) == 0x800;
  }

  /** mhi_state_transitions: the states each state may move to. */
  function Targets(s: Pm): set<Pm> {
    match s
    case Disable => {Por}
    case Por => {Por, Disable, M0, SysErrDetect, ShutdownProcess, LdErrFatal, FwDlErr}
    case M0 => {M2, M3Enter, SysErrDetect, ShutdownProcess, LdErrFatal, FwDlErr}
    case M2 => {M0, SysErrDetect, ShutdownProcess, LdErrFatal}
    case M3Enter => {M3, SysErrDetect, ShutdownProcess, LdErrFatal}
    case M3 => {M3Exit, SysErrDetect, ShutdownProcess, LdErrFatal}
    case M3Exit => {M0, SysErrDetect, ShutdownProcess, LdErrFatal}
    case FwDlErr => {FwDlErr, SysErrDetect, ShutdownProcess, LdErrFatal}
    case SysErrDetect => {SysErrProcess, ShutdownProcess, LdErrFatal}
    case SysErrProcess => {Por, ShutdownProcess, LdErrFatal}
    case ShutdownProcess => {Disable, LdErrFatal}
    case LdErrFatal => {LdErrFatal, ShutdownProcess}
  }

  /** MHI_PM_IN_ERROR_STATE */
  predicate InError(s: Pm) { BitOf(s) >= BitOf(FwDlErr) }

  /** MHI_PM_IN_SUSPEND_STATE */
  predicate InSuspend(s: Pm) { s == M3Enter || s == M3 }

  /** MHI_DB_ACCESS_VALID */
  predicate DbValid(s: Pm) { s == M0 }

  /** The state that holds after asking for `want`. */
  function Try(s: Pm, want: Pm): (r: Pm) {
    if want in Targets(s) then want else s
  }

  function StateAt(i: nat): (s: Pm)
    requires i < 12
    ensures BitOf(s) == i
  {
    match i
    case 0 => Disable case 1 => Por case 2 => M0 case 3 => M2
    case 4 => M3Enter case 5 => M3 case 6 => M3Exit case 7 => FwDlErr
    case 8 => SysErrDetect case 9 => SysErrProcess
    case 10 => ShutdownProcess case _ => LdErrFatal
  }

  /** Position of the highest set bit of a non-zero word. */
  function HighBit(w: nat): (i: nat) {
    if w <= 1 then 0 else 1 + HighBit(w / 2)
  }

  lemma {:induction false} HighBitOfBit(i: nat)
    ensures HighBit(Bit(i)) == i
  {
    if i > 0 { HighBitOfBit(i - 1); }
  }

  /** The highest bit is the largest power of two that is not above the word. */
  lemma {:induction false} HighBitBounds(w: nat)
    requires w > 0
    ensures Bit(HighBit(w)) <= w < Bit(HighBit(w) + 1)
  {
    if w > 1 { HighBitBounds(w / 2); }
  }

  /** find_last_bit over a word: 32 when no bit is set. */
  method FindLastBit(w: nat) returns (i: nat)
    ensures w == 0 ==> i == 32
    ensures w > 0 ==> i == HighBit(w) && Bit(i) <= w < Bit(i + 1)
  {
    if w == 0 { return 32; }
    HighBitBounds(w);
    var v := w;
    i := 0;
    while v > 1
      invariant v != 0 && i + HighBit(v) == HighBit(w)
      decreases v
    {
      v, i := v / 2, i + 1;
    }
  }

  /** mhi_tryset_pm_state: for every word and every requested state, the word that then holds.
      From a single state it moves exactly along the table; a word that is not a single state is
      never left. */
  method TrySet(word: nat, want: Pm) returns (r: nat)
    ensures forall s :: word == Word(s) ==> r == Word(Try(s, want))
    ensures (forall s :: word != Word(s)) ==> r == word
  {
    var index := FindLastBit(word);
    forall s | word == Word(s) ensures index < 12 && s == StateAt(index) {
      HighBitOfBit(BitOf(s));
    }
    if index >= 12 { return word; }
    var from := StateAt(index);
    if Word(from) != word { return word; }
    if want !in Targets(from) { return word; }
    r := Word(want);
  }

  /** The state of a word that holds one. */
  method StateOf(word: nat, ghost s: Pm) returns (r: Pm)
    requires word == Word(s)
    ensures r == s
  {
    var index := FindLastBit(word);
    HighBitOfBit(BitOf(s));
    r := StateAt(index);
  }

  // ---------------------------------------------------------------------------
  // Runs of the power state machine

  /** One observed step: a granted or refused request, the direct write of mhi_async_power_up,
      which starts from DISABLE, or that of a RDDM download. */
  predicate Move(s: Pm, t: Pm) {
    (exists want :: t == Try(s, want)) || t == Disable || t == LdErrFatal
  }

  ghost predicate Run(run: seq<Pm>) {
    forall i :: 0 < i < |run| ==> Move(run[i - 1], run[i])
  }

  /** A set that can only be left through `door` is not left without it. */
  lemma {:induction false} OnlyThrough(run: seq<Pm>, i: nat, j: nat, room: set<Pm>, door: Pm)
    requires Run(run) && i <= j < |run|
    requires run[i] in room && run[j] !in room
    requires forall s, t :: s in room && Move(s, t) && t !in room ==> t == door
    ensures exists k :: i < k <= j && run[k] == door
    decreases j - i
  {
    assert Move(run[i], run[i + 1]);
    if run[i + 1] in room {
      OnlyThrough(run, i + 1, j, room, door);
    }
  }

  /** Every path from an error state to M0 passes POR. */
  lemma ErrorToM0PassesPor(run: seq<Pm>, i: nat, j: nat)
    requires Run(run) && i <= j < |run|
    requires InError(run[i]) && run[j] == M0
    ensures exists k :: i < k < j && run[k] == Por
  {
    var room := {FwDlErr, SysErrDetect, SysErrProcess, ShutdownProcess, LdErrFatal, Disable};
    OnlyThrough(run, i, j, room, Por);
  }

  /** Every path from shutdown or link-down to M0 passes DISABLE and after it POR. */
  lemma ShutdownToM0PassesDisable(run: seq<Pm>, i: nat, j: nat)
    requires Run(run) && i <= j < |run|
    requires run[i] == ShutdownProcess || run[i] == LdErrFatal
    requires run[j] == M0
    ensures exists k, m :: i < k < m < j && run[k] == Disable && run[m] == Por
  {
    OnlyThrough(run, i, j, {ShutdownProcess, LdErrFatal}, Disable);
    var k :| i < k <= j && run[k] == Disable;
    OnlyThrough(run, k, j, {Disable, ShutdownProcess, LdErrFatal}, Por);
    var m :| k < m <= j && run[m] == Por;
  }

  // ---------------------------------------------------------------------------
  // What is granted

  /** Where each state can be asked for. */
  lemma GrantedFrom(s: Pm)
    ensures LdErrFatal in Targets(s) <==> s != Disable
    ensures ShutdownProcess in Targets(s) <==> s != Disable && s != ShutdownProcess
    ensures SysErrDetect in Targets(s) <==> (!InError(s) && s != Disable) || s == FwDlErr
    ensures SysErrProcess in Targets(s) <==> s == SysErrDetect
    ensures FwDlErr in Targets(s) <==> s == Por || s == M0 || s == FwDlErr
    ensures Disable in Targets(s) <==> s == Por || s == ShutdownProcess
    ensures Por in Targets(s) <==> s == Disable || s == Por || s == SysErrProcess
    ensures M0 in Targets(s) <==> s == Por || s == M2 || s == M3Exit
    ensures M2 in Targets(s) <==> s == M0
    ensures M3Enter in Targets(s) <==> s == M0
    ensures M3 in Targets(s) <==> s == M3Enter
    ensures M3Exit in Targets(s) <==> s == M3
  {
  }

  /** A path of requests that are all granted. */
  ghost predicate Granted(path: seq<Pm>) {
    forall i :: 0 < i < |path| ==> path[i] in Targets(path[i - 1]) && path[i] == Try(path[i - 1], path[i])
  }

  /** The way of each state to M0. A working state gets there without an error state and, once it
      has left POR, without going through it again. */
  function WayToM0(s: Pm): (path: seq<Pm>)
    ensures path != [] && path[0] == s && path[|path| - 1] == M0 && Granted(path)
    ensures !InError(s) && s != Disable ==>
              forall i :: 0 < i < |path| ==> !InError(path[i]) && path[i] != Por && path[i] != Disable
  {
    match s
    case M0 => [M0]
    case Por => [Por, M0]
    case M2 => [M2, M0]
    case M3Enter => [M3Enter, M3, M3Exit, M0]
    case M3 => [M3, M3Exit, M0]
    case M3Exit => [M3Exit, M0]
    case Disable => [Disable, Por, M0]
    case FwDlErr => [FwDlErr, SysErrDetect, SysErrProcess, Por, M0]
    case SysErrDetect => [SysErrDetect, SysErrProcess, Por, M0]
    case SysErrProcess => [SysErrProcess, Por, M0]
    case ShutdownProcess => [ShutdownProcess, Disable, Por, M0]
    case LdErrFatal => [LdErrFatal, ShutdownProcess, Disable, Por, M0]
  }

  /** ... and from M0 every state can be reached. */
  function WayFromM0(t: Pm): (path: seq<Pm>)
    ensures path != [] && path[0] == M0 && path[|path| - 1] == t && Granted(path)
  {
    match t
    case M0 => [M0]
    case M3 => [M0, M3Enter, M3]
    case M3Exit => [M0, M3Enter, M3, M3Exit]
    case SysErrProcess => [M0, SysErrDetect, SysErrProcess]
    case Por => [M0, SysErrDetect, SysErrProcess, Por]
    case Disable => [M0, ShutdownProcess, Disable]
    case _ => [M0, t]
  }

  /** No state is a dead end: granted requests lead from any state to any other. */
  lemma NoDeadEnd(s: Pm, t: Pm) returns (path: seq<Pm>)
    ensures path != [] && path[0] == s && path[|path| - 1] == t && Granted(path) && Run(path)
  {
    var a, b := WayToM0(s), WayFromM0(t);
    path := a + b[1..];
    forall i | 0 < i < |path| ensures path[i] in Targets(path[i - 1]) && path[i] == Try(path[i - 1], path[i]) {
      if i >= |a| {
        assert path[i] == b[i - |a| + 1] && path[i - 1] == b[i - |a|];
      } else {
        assert path[i] == a[i] && path[i - 1] == a[i - 1];
      }
    }
    forall i | 0 < i < |path| ensures Move(path[i - 1], path[i]) { assert path[i] == Try(path[i - 1], path[i]); }
  }

  /** The last time before `j` that the run was in a state other than `run[j]`. */
  lemma {:induction false} StayedSince(run: seq<Pm>, j: nat) returns (i: nat)
    requires Run(run) && j < |run| && run[0] != run[j]
    ensures i < j && run[i] != run[j]
    ensures forall k :: i < k <= j ==> run[k] == run[j]
  {
    i := j - 1;
    while run[i] == run[j]
      invariant i < j
      invariant forall k :: i < k <= j ==> run[k] == run[j]
      decreases i
    {
      i := i - 1;
    }
  }

  /** From DISABLE, M3_EXIT is only entered from M3, and M3 only from M3_ENTER, which itself
      was entered from M0; nothing else happens in between. */
  lemma M3ExitHistory(run: seq<Pm>, j: nat) returns (a: nat, b: nat, c: nat)
    requires Run(run) && j < |run| && run[0] == Disable && run[j] == M3Exit
    ensures a < b < c < j && run[a] == M0
    ensures forall k :: a < k <= b ==> run[k] == M3Enter
    ensures forall k :: b < k <= c ==> run[k] == M3
    ensures forall k :: c < k <= j ==> run[k] == M3Exit
  {
    c := StayedSince(run, j);
    assert Move(run[c], run[c + 1]);
    b := StayedSince(run, c);
    assert Move(run[b], run[b + 1]);
    a := StayedSince(run, b);
    assert Move(run[a], run[a + 1]);
  }
}
