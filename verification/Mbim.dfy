/** MBIM framing over PCIe (mhi_netdev_quectel.c): each block is an NTH16 header followed by a
    chain of NDP16 datagram tables, as in sections 3.2.1 and 3.3.1 of USB CDC NCM 1.0. */
module Mbim {
  import opened Octets
  import Qmap

  const HEADER: nat := 28

  /** qmap_mode, the array of network devices, mbim_mux_id and rx_max. */
  datatype Config = Config(mode: nat, devs: seq<Qmap.Device>, base: nat, rxMax: nat)
  {
    predicate Ok() { mode <= |devs| < 256 && base < 0x1_0000_0000 }
  }

  // ---------------------------------------------------------------------------
  // Fields

  function Lo(n: nat): byte { n % 256 }

  function Hi(n: nat): byte { (n / 256) % 256 }

  function U16(s: seq<byte>, at: nat): (n: nat)
    requires at + 2 <= |s|
    ensures n < 0x10000
  {
    s[at] as int + (s[at + 1] as int) * 256
  }

  /** Subtraction of unsigned 32-bit values. */
  function Sub32(a: nat, b: nat): (d: nat)
    requires a < 0x1_0000_0000 && b < 0x1_0000_0000
  {
    if a < b then a - b + 0x1_0000_0000 else a - b
  }

  // ---------------------------------------------------------------------------
  // Encoding

  /** The session byte: the mux id, and one more when several sessions share the link; both are
      kept in eight bits. */
  function Tci(cfg: Config, i: nat): (t: byte) {
    var mux := (cfg.base + i) % 256;
    if cfg.mode > 1 then (mux + 1) % 256 else mux
  }

  /** The two header structures; fields that are not stated are constant. */
  datatype Nth16 = Nth16(wSequence: nat, wBlockLength: nat, wNdpIndex: nat)
  {
    function Bytes(): (b: seq<byte>)
      ensures |b| == 12
    {
      [0x4E, 0x43, 0x4D, 0x48, 12, 0, Lo(wSequence), Hi(wSequence), Lo(wBlockLength), Hi(wBlockLength),
       Lo(wNdpIndex), Hi(wNdpIndex)]
    }
  }

  /** NDP16 with one datagram entry and the entry that ends the table. */
  datatype Ndp16 = Ndp16(tci: byte, wLength: nat, wNextNdpIndex: nat, wDatagramIndex: nat, wDatagramLength: nat)
  {
    function Bytes(): (b: seq<byte>)
      ensures |b| == 16
    {
      [0x49, 0x50, 0x53, tci, Lo(wLength), Hi(wLength), Lo(wNextNdpIndex), Hi(wNextNdpIndex),
       Lo(wDatagramIndex), Hi(wDatagramIndex), Lo(wDatagramLength), Hi(wDatagramLength), 0, 0, 0, 0]
    }
  }

  /** A block with one datagram. */
  function Block(seqNo: nat, tci: byte, data: seq<byte>): (b: seq<byte>)
    ensures |b| == HEADER + |data|
  {
    Nth16(seqNo, HEADER + |data|, 12).Bytes() + Ndp16(tci, 16, 0, HEADER, |data|).Bytes() + data
  }

  // ---------------------------------------------------------------------------
  // Decoding

  datatype Verdict = Go | Rejected | PastEnd | Fault
  datatype Part = Part(out: seq<Qmap.Slice>, verdict: Verdict)

  datatype Entry = Take(slice: Qmap.Slice) | Stop(verdict: Verdict)

  /** Entry `x` of the datagram table of an NDP. The bound on the number of entries does not
      count the table's own offset, so the table may run past the end of the block. */
  function EntryAt(cfg: Config, s: seq<byte>, off: nat, dev: nat, x: nat, room: nat): (e: Entry)
    requires cfg.Ok() && dev < |cfg.devs|
    ensures e.Take? ==> room > 0
  {
    var at := off + 8 + 4 * x;
    if at + 4 > |s| then Stop(PastEnd)
    else
      var from, len := U16(s, at), U16(s, at + 2);
      if from == 0 || len == 0 then Stop(Go)
      else if from + len > |s| || len > cfg.rxMax || room == 0 || !Qmap.IsIp(s[from]) then Stop(Rejected)
      else if cfg.devs[dev].Unregistered? then Stop(Fault)
      else Take(Qmap.Slice(dev, from, len))
  }

  /** The table from entry `x` on. */
  function Entries(cfg: Config, s: seq<byte>, off: nat, dev: nat, x: nat, n: nat, room: nat): (p: Part)
    requires cfg.Ok() && dev < |cfg.devs| && x <= n
    ensures |p.out| <= room
    decreases n - x
  {
    if x == n then Part([], Go)
    else match EntryAt(cfg, s, off, dev, x, room)
      case Stop(verdict) => Part([], verdict)
      case Take(slice) =>
        var p := Entries(cfg, s, off, dev, x + 1, n, room - 1);
        Part([slice] + p.out, p.verdict)
  }

  /** A table is read past the end of the block exactly when an entry that the walk reaches lies
      there: all entries before it were delivered. */
  lemma {:induction false} TablePastEndIff(cfg: Config, s: seq<byte>, off: nat, dev: nat, x: nat, n: nat, room: nat)
    requires cfg.Ok() && dev < |cfg.devs| && x <= n
    ensures Entries(cfg, s, off, dev, x, n, room).verdict == PastEnd <==>
              exists y :: x <= y < n && EntryPast(s, off, y) && AllTaken(cfg, s, off, dev, x, y, room)
    decreases n - x
  {
    if x < n {
      var e := EntryAt(cfg, s, off, dev, x, room);
      if e.Take? {
        TablePastEndIff(cfg, s, off, dev, x + 1, n, room - 1);
        assert forall y :: x < y ==> (AllTaken(cfg, s, off, dev, x, y, room) <==>
                                      AllTaken(cfg, s, off, dev, x + 1, y, room - 1));
      } else if e == Stop(PastEnd) {
        assert EntryPast(s, off, x) && AllTaken(cfg, s, off, dev, x, x, room);
      }
    }
  }

  predicate EntryPast(s: seq<byte>, off: nat, y: nat) { off + 8 + 4 * y + 4 > |s| }

  ghost predicate AllTaken(cfg: Config, s: seq<byte>, off: nat, dev: nat, x: nat, y: nat, room: nat)
    requires cfg.Ok() && dev < |cfg.devs|
    decreases y - x
  {
    x >= y || (EntryAt(cfg, s, off, dev, x, room).Take? && AllTaken(cfg, s, off, dev, x + 1, y, room - 1))
  }

  /** The session id of an NDP; device service streams are numbered from 256. */
  datatype Session = NoSession | Session(tci: nat)

  function SessionOf(s: seq<byte>, off: nat): (r: Session)
    requires off + 8 <= |s|
    ensures r.Session? ==> r.tci < 512
  {
    if s[off] == 0x49 && s[off + 1] == 0x50 && s[off + 2] == 0x53 then Session(s[off + 3])
    else if s[off] == 0x44 && s[off + 1] == 0x53 && s[off + 2] == 0x53 then Session(s[off + 3] as nat + 256)
    else NoSession
  }

  predicate Accepts(cfg: Config, tci: nat)
    requires cfg.Ok() && tci < 512
  {
    && (cfg.mode == 1 ==> tci == cfg.base)
    && (cfg.mode > 1 ==> Sub32(tci, cfg.base) <= cfg.mode)
  }

  function DevIndex(cfg: Config, tci: nat): nat
    requires cfg.Ok() && tci < 512
  {
    if cfg.mode == 1 then 0 else if tci == 0 then 0xFFFF_FFFF - cfg.base else Sub32(tci - 1, cfg.base)
  }

  /** One NDP. */
  function Ndp(cfg: Config, s: seq<byte>, off: nat, room: nat): (p: Part)
    requires cfg.Ok()
    ensures |p.out| <= room && (p.verdict.Go? ==> off + 8 <= |s|)
  {
    if |s| < off + 8 then Part([], Rejected)
    else
      var wLength := U16(s, off + 4);
      if wLength < 0x10 || |s| < 8 + (wLength - 8) / 4 * 4 then Part([], Rejected)
      else match SessionOf(s, off)
        case NoSession => Part([], Rejected)
        case Session(tci) =>
          if !Accepts(cfg, tci) then Part([], Rejected)
          else if DevIndex(cfg, tci) >= |cfg.devs| then Part([], Fault)
          else Entries(cfg, s, off, DevIndex(cfg, tci), 0, (wLength - 8) / 4, room)
  }

  datatype End = Done(verdict: Verdict) | Hangs
  datatype Outcome = Outcome(out: seq<Qmap.Slice>, end: End)

  const OFFSETS := set x | 0 <= x < 0x10000

  /** The walk along the chain of NDPs. Coming back to an NDP with nothing delivered in between,
      it goes round for ever: `seen` are the NDPs since the last delivery. */
  function Walk(cfg: Config, s: seq<byte>, off: nat, room: nat, seen: set<int>): (r: Outcome)
    requires cfg.Ok() && off < 0x10000
    decreases room, OFFSETS - seen
  {
    if off == 0 then Outcome([], Done(Go))
    else if off in seen then Outcome([], Hangs)
    else
      var p := Ndp(cfg, s, off, room);
      if !p.verdict.Go? then Outcome(p.out, Done(p.verdict))
      else
        var r := Walk(cfg, s, U16(s, off + 6), room - |p.out|, if p.out == [] then seen + {off} else {});
        Outcome(p.out + r.out, r.end)
  }

  /** The checks on NTH16. */
  predicate HeaderOk(cfg: Config, s: seq<byte>) {
    && |s| >= 20
    && s[0] == 0x4E && s[1] == 0x43 && s[2] == 0x4D && s[3] == 0x48
    && U16(s, 8) <= cfg.rxMax
  }

  /** The whole handler: what was queued is delivered even when the walk stops with an error. */
  function Receive(cfg: Config, s: seq<byte>, room: nat): (r: Outcome)
    requires cfg.Ok()
  {
    if !HeaderOk(cfg, s) then Outcome([], Done(Rejected)) else Walk(cfg, s, U16(s, 10), room, {})
  }

  // ---------------------------------------------------------------------------
  // The handler itself

  method OneEntry(cfg: Config, s: seq<byte>, off: nat, dev: nat, x: nat, room: nat) returns (e: Entry)
    requires cfg.Ok() && dev < |cfg.devs|
    ensures e == EntryAt(cfg, s, off, dev, x, room)
  {
    var at := off + 8 + 4 * x;
    if at + 4 > |s| { return Stop(PastEnd); }
    var from, len := U16(s, at), U16(s, at + 2);
    if from == 0 || len == 0 { return Stop(Go); }
    if from + len > |s| || len > cfg.rxMax { return Stop(Rejected); }
    if room == 0 { return Stop(Rejected); }
    if !Qmap.IsIp(s[from]) { return Stop(Rejected); }
    if cfg.devs[dev].Unregistered? { return Stop(Fault); }
    e := Take(Qmap.Slice(dev, from, len));
  }

  method Frames(cfg: Config, s: seq<byte>, off: nat, dev: nat, n: nat, room: nat)
    returns (out: seq<Qmap.Slice>, verdict: Verdict)
    requires cfg.Ok() && dev < |cfg.devs|
    ensures Part(out, verdict) == Entries(cfg, s, off, dev, 0, n, room)
  {
    var x, left: nat := 0, room;
    out := [];
    ghost var all := Entries(cfg, s, off, dev, 0, n, room);
    while x < n
      invariant x <= n && Joined(out, Entries(cfg, s, off, dev, x, n, left)) == all
      decreases n - x
    {
      var e := OneEntry(cfg, s, off, dev, x, left);
      if e.Stop? { return out, e.verdict; }
      JoinNext(out, e.slice, Entries(cfg, s, off, dev, x + 1, n, left - 1));
      out, left, x := out + [e.slice], left - 1, x + 1;
    }
    verdict := Go;
  }

  ghost function Joined(out: seq<Qmap.Slice>, rest: Part): Part { Part(out + rest.out, rest.verdict) }

  lemma JoinNext(out: seq<Qmap.Slice>, x: Qmap.Slice, rest: Part)
    ensures Joined(out + [x], rest) == Joined(out, Part([x] + rest.out, rest.verdict))
  {
    assert out + [x] + rest.out == out + ([x] + rest.out);
  }

  /** The body of the walk: one NDP. */
  method OneNdp(cfg: Config, s: seq<byte>, off: nat, room: nat) returns (out: seq<Qmap.Slice>, verdict: Verdict)
    requires cfg.Ok()
    ensures Part(out, verdict) == Ndp(cfg, s, off, room)
  {
    out, verdict := [], Rejected;
    if |s| < off + 8 { return; }
    var wLength := U16(s, off + 4);
    if wLength < 0x10 { return; }
    var nframes := (wLength - 8) / 4;
    if |s| < 8 + nframes * 4 { return; }
    var tci: nat;
    if s[off..off + 3] == [0x49, 0x50, 0x53] { tci := s[off + 3]; }
    else if s[off..off + 3] == [0x44, 0x53, 0x53] { tci := s[off + 3] as nat + 256; }
    else { return; }
    if (cfg.mode == 1 && tci != cfg.base) || (cfg.mode > 1 && Sub32(tci, cfg.base) > cfg.mode) { return; }
    var dev := DevIndex(cfg, tci);
    if dev >= |cfg.devs| { return [], Fault; }
    out, verdict := Frames(cfg, s, off, dev, nframes, room);
  }

  ghost function Before(out: seq<Qmap.Slice>, rest: Outcome): Outcome { Outcome(out + rest.out, rest.end) }

  lemma BeforeNext(out: seq<Qmap.Slice>, more: seq<Qmap.Slice>, rest: Outcome)
    ensures Before(out + more, rest) == Before(out, Outcome(more + rest.out, rest.end))
  {
    assert out + more + rest.out == out + (more + rest.out);
  }

  method WalkNdps(cfg: Config, s: seq<byte>, first: nat, room: nat) returns (out: seq<Qmap.Slice>, end: End)
    requires cfg.Ok() && first < 0x10000
    ensures Outcome(out, end) == Walk(cfg, s, first, room, {})
  {
    hide Ndp;
    var off, left: nat, seen: set<int> := first, room, {};
    out, end := [], Done(Go);
    ghost var all := Walk(cfg, s, first, room, {});
    while off > 0
      invariant off < 0x10000 && Before(out, Walk(cfg, s, off, left, seen)) == all
      decreases left, OFFSETS - seen
    {
      if off in seen { return out, Hangs; }
      var more, verdict := OneNdp(cfg, s, off, left);
      if verdict != Go { return out + more, Done(verdict); }
      var next := U16(s, off + 6);
      var seen' := if more == [] then seen + {off} else {};
      BeforeNext(out, more, Walk(cfg, s, next, left - |more|, seen'));
      assert more == [] ==> off in OFFSETS - seen;
      out, off, left, seen := out + more, next, left - |more|, seen';
    }
  }

  /** The sequence counters and the handler of one link. */
  class MbimContext {
    var txSeq: nat
    var rxSeq: nat

    predicate Valid()
      reads this
    {
      txSeq < 0x10000 && rxSeq < 0x10000
    }

    /** add_mbim_hdr for child `i`, then the counter that the parent device fills in. */
    method Transmit(cfg: Config, i: nat, data: seq<byte>, headroom: nat) returns (block: seq<byte>)
      requires Valid()
      modifies this`txSeq
      ensures Valid()
      ensures headroom < HEADER ==> block == [] && txSeq == old(txSeq)
      ensures headroom >= HEADER ==> block == Block(old(txSeq), Tci(cfg, i), data)
      ensures headroom >= HEADER ==> txSeq == (old(txSeq) + 1) % 0x10000
    {
      if headroom < HEADER { return []; }
      var tci := (cfg.base + i) % 256;
      if cfg.mode > 1 { tci := (tci + 1) % 256; }
      var nth := Nth16(0, HEADER + |data|, 12);
      var ndp := Ndp16(tci, 16, 0, HEADER, |data|);
      nth := nth.(wSequence := txSeq);
      block := nth.Bytes() + ndp.Bytes() + data;
      txSeq := (txSeq + 1) % 0x10000;
    }

    /** rmnet_mbim_rx_handler. A sequence glitch is only reported. */
    method Handle(cfg: Config, s: seq<byte>, room: nat) returns (out: seq<Qmap.Slice>, end: End, glitch: bool)
      requires Valid() && cfg.Ok()
      modifies this`rxSeq
      ensures Valid() && Outcome(out, end) == Receive(cfg, s, room)
      ensures if HeaderOk(cfg, s) then glitch == (U16(s, 6) != old(rxSeq)) && rxSeq == (U16(s, 6) + 1) % 0x10000
              else !glitch && rxSeq == old(rxSeq)
    {
      hide Walk, Ndp;
      out, end, glitch := [], Done(Rejected), false;
      if |s| < 20 || s[..4] != [0x4E, 0x43, 0x4D, 0x48] || U16(s, 8) > cfg.rxMax { return; }
      var wSequence := U16(s, 6);
      if rxSeq != wSequence { glitch := true; }
      rxSeq := (wSequence + 1) % 0x10000;
      out, end := WalkNdps(cfg, s, U16(s, 10), room);
    }
  }

  // ---------------------------------------------------------------------------
  // When the walk ends

  datatype Place = At(off: nat, room: nat) | Left

  /** Where the loop is after `k` turns. */
  ghost function After(cfg: Config, s: seq<byte>, off: nat, room: nat, k: nat): Place
    requires cfg.Ok()
    decreases k
  {
    if k == 0 then At(off, room)
    else if off == 0 || !Ndp(cfg, s, off, room).verdict.Go? then Left
    else After(cfg, s, U16(s, off + 6), room - |Ndp(cfg, s, off, room).out|, k - 1)
  }

  lemma {:induction false} StaysOut(cfg: Config, s: seq<byte>, off: nat, room: nat, k: nat)
    requires cfg.Ok() && After(cfg, s, off, room, k) == Left
    ensures After(cfg, s, off, room, k + 1) == Left
    decreases k
  {
    hide Ndp;
    if off != 0 && Ndp(cfg, s, off, room).verdict.Go? {
      StaysOut(cfg, s, U16(s, off + 6), room - |Ndp(cfg, s, off, room).out|, k - 1);
    }
  }

  lemma WasIn(cfg: Config, s: seq<byte>, off: nat, room: nat, k: nat)
    requires cfg.Ok() && k > 0 && After(cfg, s, off, room, k).At?
    ensures After(cfg, s, off, room, k - 1).At?
  {
    hide Ndp;
    if After(cfg, s, off, room, k - 1) == Left { StaysOut(cfg, s, off, room, k - 1); }
  }

  /** If the loop leaves, after exactly `k` turns, it never comes back to an NDP it has seen. */
  lemma {:induction false} LeavesNoHang(cfg: Config, s: seq<byte>, off: nat, room: nat, seen: set<int>, k: nat)
    requires cfg.Ok() && 0 < k && off < 0x10000
    requires After(cfg, s, off, room, k) == Left && After(cfg, s, off, room, k - 1).At?
    requires forall o :: o in seen ==> 0 <= o && After(cfg, s, o, room, k).At?
    ensures Walk(cfg, s, off, room, seen).end != Hangs
    decreases k
  {
    hide Ndp;
    if off != 0 && Ndp(cfg, s, off, room).verdict.Go? {
      var p := Ndp(cfg, s, off, room);
      var seen' := if p.out == [] then seen + {off} else {};
      forall o | o in seen' ensures 0 <= o && After(cfg, s, o, room - |p.out|, k - 1).At? {
        if o != off { WasIn(cfg, s, o, room, k); }
      }
      LeavesNoHang(cfg, s, U16(s, off + 6), room - |p.out|, seen', k - 1);
    }
  }

  lemma {:induction false} NoHangLeaves(cfg: Config, s: seq<byte>, off: nat, room: nat, seen: set<int>) returns (k: nat)
    requires cfg.Ok() && off < 0x10000 && Walk(cfg, s, off, room, seen).end != Hangs
    ensures After(cfg, s, off, room, k) == Left
    decreases room, OFFSETS - seen
  {
    hide Ndp;
    if off == 0 || !Ndp(cfg, s, off, room).verdict.Go? {
      k := 1;
    } else {
      var p := Ndp(cfg, s, off, room);
      assert off in OFFSETS - seen;
      k := NoHangLeaves(cfg, s, U16(s, off + 6), room - |p.out|, if p.out == [] then seen + {off} else {});
      k := k + 1;
    }
  }

  lemma {:induction false} FirstExit(cfg: Config, s: seq<byte>, off: nat, room: nat, k: nat) returns (m: nat)
    requires cfg.Ok() && After(cfg, s, off, room, k) == Left
    ensures 0 < m <= k && After(cfg, s, off, room, m) == Left && After(cfg, s, off, room, m - 1).At?
    decreases k
  {
    hide Ndp;
    m := k;
    if After(cfg, s, off, room, k - 1) == Left { m := FirstExit(cfg, s, off, room, k - 1); }
  }

  /** `Hangs` is exact: the walk is reported to hang if and only if it never ends. */
  lemma EndsIff(cfg: Config, s: seq<byte>, off: nat, room: nat)
    requires cfg.Ok() && off < 0x10000
    ensures Walk(cfg, s, off, room, {}).end != Hangs <==> exists k: nat :: After(cfg, s, off, room, k) == Left
  {
    if Walk(cfg, s, off, room, {}).end != Hangs {
      var k := NoHangLeaves(cfg, s, off, room, {});
    }
    if exists k: nat :: After(cfg, s, off, room, k) == Left {
      var k: nat :| After(cfg, s, off, room, k) == Left;
      var m := FirstExit(cfg, s, off, room, k);
      LeavesNoHang(cfg, s, off, room, {}, m);
    }
  }

  /** The loop has no other state: what follows a place depends on the place alone. */
  lemma {:induction false} AfterAdd(cfg: Config, s: seq<byte>, off: nat, room: nat, j: nat, m: nat)
    requires cfg.Ok()
    ensures After(cfg, s, off, room, j + m) ==
              match After(cfg, s, off, room, j) case At(o, r) => After(cfg, s, o, r, m) case Left => Left
    decreases j
  {
    hide Ndp;
    if j > 0 && off != 0 && Ndp(cfg, s, off, room).verdict.Go? {
      AfterAdd(cfg, s, U16(s, off + 6), room - |Ndp(cfg, s, off, room).out|, j - 1, m);
    }
  }

  /** A loop that returns to the same place never leaves. */
  lemma {:induction false} CycleStays(cfg: Config, s: seq<byte>, off: nat, room: nat, d: nat, m: nat)
    requires cfg.Ok() && d > 0 && After(cfg, s, off, room, d) == At(off, room)
    ensures After(cfg, s, off, room, m).At?
    decreases m
  {
    hide Ndp;
    if m < d {
      AfterAdd(cfg, s, off, room, m, d - m);
    } else {
      AfterAdd(cfg, s, off, room, d, m - d);
      CycleStays(cfg, s, off, room, d, m - d);
    }
  }

  /** The walk comes back, `d` turns after turn `j`, to the same NDP with nothing delivered in
      between. */
  ghost predicate Cycle(cfg: Config, s: seq<byte>, off: nat, room: nat, j: nat, d: nat)
    requires cfg.Ok()
  {
    d > 0 && After(cfg, s, off, room, j).At? && After(cfg, s, off, room, j + d) == After(cfg, s, off, room, j)
  }

  lemma CycleHangs(cfg: Config, s: seq<byte>, off: nat, room: nat, j: nat, d: nat)
    requires cfg.Ok() && off < 0x10000 && Cycle(cfg, s, off, room, j, d)
    ensures Walk(cfg, s, off, room, {}).end == Hangs
  {
    var p := After(cfg, s, off, room, j);
    AfterAdd(cfg, s, off, room, j, d);
    EndsIff(cfg, s, off, room);
    if k: nat :| After(cfg, s, off, room, k) == Left {
      CycleStays(cfg, s, p.off, p.room, d, k);
      AfterAdd(cfg, s, off, room, j, k);
      AfterAdd(cfg, s, off, room, k, j);
    }
  }

  /** Every NDP in `seen` leads to the current one. */
  ghost predicate LeadHere(cfg: Config, s: seq<byte>, off: nat, room: nat, seen: set<int>)
    requires cfg.Ok()
  {
    forall o :: o in seen ==> o >= 0 && exists m: nat :: m > 0 && After(cfg, s, o, room, m) == At(off, room)
  }

  lemma LeadNext(cfg: Config, s: seq<byte>, off: nat, room: nat, seen: set<int>)
    requires cfg.Ok() && off != 0 && Ndp(cfg, s, off, room) == Part([], Go) && LeadHere(cfg, s, off, room, seen)
    ensures LeadHere(cfg, s, U16(s, off + 6), room, seen + {off})
  {
    var next := U16(s, off + 6);
    assert After(cfg, s, off, room, 1) == At(next, room);
    forall o | o in seen ensures o >= 0 && exists m: nat :: m > 0 && After(cfg, s, o, room, m) == At(next, room) {
      var m: nat :| m > 0 && After(cfg, s, o, room, m) == At(off, room);
      AfterAdd(cfg, s, o, room, m, 1);
    }
  }

  lemma {:induction false} HangHasCycle(cfg: Config, s: seq<byte>, off: nat, room: nat, seen: set<int>)
    returns (j: nat, d: nat)
    requires cfg.Ok() && off < 0x10000 && LeadHere(cfg, s, off, room, seen)
    requires Walk(cfg, s, off, room, seen).end == Hangs
    ensures Cycle(cfg, s, off, room, j, d)
    decreases room, OFFSETS - seen
  {
    hide Ndp;
    if off in seen {
      var m: nat :| m > 0 && After(cfg, s, off, room, m) == At(off, room);
      j, d := 0, m;
    } else {
      var p := Ndp(cfg, s, off, room);
      assert off in OFFSETS - seen;
      var next, left := U16(s, off + 6), room - |p.out|;
      if p.out == [] { LeadNext(cfg, s, off, room, seen); }
      j, d := HangHasCycle(cfg, s, next, left, if p.out == [] then seen + {off} else {});
      assert After(cfg, s, off, room, j + 1) == After(cfg, s, next, left, j);
      assert After(cfg, s, off, room, j + 1 + d) == After(cfg, s, next, left, j + d);
      j := j + 1;
    }
  }

  /** The walk hangs if and only if the block makes it come back to an NDP with nothing delivered
      in between. */
  lemma HangsIffCycle(cfg: Config, s: seq<byte>, off: nat, room: nat)
    requires cfg.Ok() && off < 0x10000
    ensures Walk(cfg, s, off, room, {}).end == Hangs <==> exists j: nat, d: nat :: Cycle(cfg, s, off, room, j, d)
  {
    if Walk(cfg, s, off, room, {}).end == Hangs {
      var j, d := HangHasCycle(cfg, s, off, room, {});
    }
    if j: nat, d: nat :| Cycle(cfg, s, off, room, j, d) {
      CycleHangs(cfg, s, off, room, j, d);
    }
  }

  /** A block of 28 bytes whose only NDP names itself as the next. */
  const LOOPING: seq<byte> := [0x4E, 0x43, 0x4D, 0x48, 12, 0, 0, 0, 28, 0, 12, 0,
                               0x49, 0x50, 0x53, 0, 16, 0, 12, 0, 0, 0, 0, 0, 0, 0, 0, 0]

  lemma LoopingFields()
    ensures |LOOPING| == 28 && U16(LOOPING, 10) == 12 && SessionOf(LOOPING, 12) == Session(0)
    ensures U16(LOOPING, 16) == 16 && U16(LOOPING, 18) == 12 && U16(LOOPING, 20) == 0
    ensures HeaderOk(Config(1, [Qmap.Registered(1500)], 0, 0x8000), LOOPING)
  {
  }

  lemma SelfLoop(cfg: Config, s: seq<byte>, off: nat, room: nat)
    requires cfg.Ok() && 0 < off < 0x10000 && Ndp(cfg, s, off, room) == Part([], Go) && U16(s, off + 6) == off
    ensures Walk(cfg, s, off, room, {}).end == Hangs
  {
    assert Walk(cfg, s, off, room, {} + {off}).end == Hangs;
  }

  lemma LoopingHangs(room: nat)
    ensures Receive(Config(1, [Qmap.Registered(1500)], 0, 0x8000), LOOPING, room).end == Hangs
  {
    var cfg := Config(1, [Qmap.Registered(1500)], 0, 0x8000);
    LoopingFields();
    assert Entries(cfg, LOOPING, 12, 0, 0, 2, room) == Part([], Go);
    SelfLoop(cfg, LOOPING, 12, room);
  }

  // ---------------------------------------------------------------------------
  // How the walk ends

  /** The loop is left at turn `k` with this verdict: at the end of the chain, or at an NDP that is
      not followed any further. */
  ghost predicate EndsAt(cfg: Config, s: seq<byte>, off: nat, room: nat, k: nat, v: Verdict)
    requires cfg.Ok()
  {
    match After(cfg, s, off, room, k)
    case At(o, r) => if o == 0 then v == Go else v == Ndp(cfg, s, o, r).verdict != Go
    case Left => false
  }

  lemma {:induction false} WalkEndsAt(cfg: Config, s: seq<byte>, off: nat, room: nat, seen: set<int>, v: Verdict)
    returns (k: nat)
    requires cfg.Ok() && off < 0x10000 && Walk(cfg, s, off, room, seen).end == Done(v)
    ensures EndsAt(cfg, s, off, room, k, v)
    decreases room, OFFSETS - seen
  {
    hide Ndp;
    if off == 0 || !Ndp(cfg, s, off, room).verdict.Go? {
      k := 0;
    } else {
      var p := Ndp(cfg, s, off, room);
      assert off in OFFSETS - seen;
      k := WalkEndsAt(cfg, s, U16(s, off + 6), room - |p.out|, if p.out == [] then seen + {off} else {}, v);
      k := k + 1;
    }
  }

  /** The loop is left at one turn only. */
  lemma EndsOnce(cfg: Config, s: seq<byte>, off: nat, room: nat, j: nat, v: Verdict, k: nat, w: Verdict)
    requires cfg.Ok() && EndsAt(cfg, s, off, room, j, v) && EndsAt(cfg, s, off, room, k, w)
    ensures j == k && v == w
  {
    hide Ndp;
    AfterAdd(cfg, s, off, room, j, 1);
    AfterAdd(cfg, s, off, room, k, 1);
    if j < k { AfterAdd(cfg, s, off, room, j + 1, k - j - 1); }
    if k < j { AfterAdd(cfg, s, off, room, k + 1, j - k - 1); }
  }

  /** For a whole block: the walk ends with a verdict if and only if it comes to a place that has
      it. */
  lemma WalkEndsIff(cfg: Config, s: seq<byte>, off: nat, room: nat, v: Verdict)
    requires cfg.Ok() && off < 0x10000
    ensures Walk(cfg, s, off, room, {}).end == Done(v) <==> exists k: nat :: EndsAt(cfg, s, off, room, k, v)
  {
    hide Ndp;
    if k: nat :| EndsAt(cfg, s, off, room, k, v) {
      AfterAdd(cfg, s, off, room, k, 1);
      EndsIff(cfg, s, off, room);
      var w := Walk(cfg, s, off, room, {}).end.verdict;
      var j := WalkEndsAt(cfg, s, off, room, {}, w);
      EndsOnce(cfg, s, off, room, j, w, k, v);
    }
    if Walk(cfg, s, off, room, {}).end == Done(v) {
      var k := WalkEndsAt(cfg, s, off, room, {}, v);
    }
  }

  /** The checks on an NDP that precede its datagram table. */
  predicate Opens(cfg: Config, s: seq<byte>, off: nat) {
    && cfg.Ok() && off + 8 <= |s|
    && U16(s, off + 4) >= 0x10 && |s| >= 8 + (U16(s, off + 4) - 8) / 4 * 4
    && SessionOf(s, off).Session? && Accepts(cfg, SessionOf(s, off).tci)
  }

  function EntryCount(s: seq<byte>, off: nat): nat
    requires off + 8 <= |s| && U16(s, off + 4) >= 0x10
  {
    (U16(s, off + 4) - 8) / 4
  }

  /** An NDP reads past the end exactly when its checks pass and an entry that is reached lies
      beyond the block. */
  lemma NdpPastEndIff(cfg: Config, s: seq<byte>, off: nat, room: nat)
    requires cfg.Ok()
    ensures Ndp(cfg, s, off, room).verdict == PastEnd <==>
              && Opens(cfg, s, off) && DevIndex(cfg, SessionOf(s, off).tci) < |cfg.devs|
              && exists y :: 0 <= y < EntryCount(s, off) && EntryPast(s, off, y)
                   && AllTaken(cfg, s, off, DevIndex(cfg, SessionOf(s, off).tci), 0, y, room)
  {
    if Opens(cfg, s, off) && DevIndex(cfg, SessionOf(s, off).tci) < |cfg.devs| {
      TablePastEndIff(cfg, s, off, DevIndex(cfg, SessionOf(s, off).tci), 0, EntryCount(s, off), room);
    }
  }

  /** The first entry of a table is a datagram that would be delivered. */
  predicate FirstIsGood(cfg: Config, s: seq<byte>, off: nat, room: nat) {
    && off + 12 <= |s| && room > 0
    && var from, len := U16(s, off + 8), U16(s, off + 10);
       from != 0 && 0 < len <= cfg.rxMax && from + len <= |s| && Qmap.IsIp(s[from])
  }

  lemma {:induction false} RegisteredNoFault(cfg: Config, s: seq<byte>, off: nat, dev: nat, x: nat, n: nat, room: nat)
    requires cfg.Ok() && dev < |cfg.devs| && cfg.devs[dev].Registered? && x <= n
    ensures Entries(cfg, s, off, dev, x, n, room).verdict != Fault
    decreases n - x
  {
    if x < n && EntryAt(cfg, s, off, dev, x, room).Take? {
      RegisteredNoFault(cfg, s, off, dev, x + 1, n, room - 1);
    }
  }

  /** An NDP faults in exactly two ways: its session has an index outside the array of devices, or
      it names a child that is not registered and its first datagram is good. */
  lemma NdpFaultIff(cfg: Config, s: seq<byte>, off: nat, room: nat)
    requires cfg.Ok()
    ensures Ndp(cfg, s, off, room).verdict == Fault <==>
              Opens(cfg, s, off) &&
              var dev := DevIndex(cfg, SessionOf(s, off).tci);
              dev >= |cfg.devs| || (cfg.devs[dev].Unregistered? && FirstIsGood(cfg, s, off, room))
  {
    if Opens(cfg, s, off) && DevIndex(cfg, SessionOf(s, off).tci) < |cfg.devs| {
      var dev, n := DevIndex(cfg, SessionOf(s, off).tci), EntryCount(s, off);
      if cfg.devs[dev].Registered? { RegisteredNoFault(cfg, s, off, dev, 0, n, room); }
    }
  }

  /** A block whose only NDP lies at its end: the table is read past it. */
  const CUT_TABLE: seq<byte> := [0x4E, 0x43, 0x4D, 0x48, 12, 0, 0, 0, 28, 0, 20, 0, 0, 0, 0, 0, 0, 0, 0, 0,
                                 0x49, 0x50, 0x53, 0, 16, 0, 0, 0]

  lemma CutTableReadsPast(room: nat)
    ensures Receive(Config(1, [Qmap.Registered(1500)], 0, 0x8000), CUT_TABLE, room).end == Done(PastEnd)
  {
    var cfg := Config(1, [Qmap.Registered(1500)], 0, 0x8000);
    assert U16(CUT_TABLE, 10) == 20 && U16(CUT_TABLE, 24) == 16 && SessionOf(CUT_TABLE, 20) == Session(0);
    assert Ndp(cfg, CUT_TABLE, 20, room) == Part([], PastEnd);
  }

  /** A block for the session that equals mbim_mux_id, with two children. */
  const BASE_SESSION: seq<byte> := [0x4E, 0x43, 0x4D, 0x48, 12, 0, 0, 0, 28, 0, 12, 0,
                                    0x49, 0x50, 0x53, 0, 16, 0, 0, 0, 0, 0, 0, 0, 0, 0, 0, 0]

  lemma BaseSessionBlockFaults(room: nat)
    ensures Receive(Config(2, [Qmap.Registered(1500), Qmap.Registered(1500)], 0, 0x8000), BASE_SESSION, room).end
            == Done(Fault)
  {
    var cfg := Config(2, [Qmap.Registered(1500), Qmap.Registered(1500)], 0, 0x8000);
    assert U16(BASE_SESSION, 10) == 12 && U16(BASE_SESSION, 16) == 16 && SessionOf(BASE_SESSION, 12) == Session(0);
    assert Ndp(cfg, BASE_SESSION, 12, room) == Part([], Fault);
  }

  /** A block with one byte for a child that is not registered. */
  lemma NullDeviceFaults(room: nat)
    requires room > 0
    ensures Receive(Config(1, [Qmap.Unregistered], 0, 0x8000), Block(0, 0, [0x45]), room).end == Done(Fault)
  {
    var cfg, b := Config(1, [Qmap.Unregistered], 0, 0x8000), Block(0, 0, [0x45]);
    BlockFields(0, 0, [0x45], b);
    assert b[28] == b[HEADER..][0];
    NdpFaultIff(cfg, b, 12, room);
  }

  /** The `k`-th NDP after `off` in the chain, 0 once the chain has ended or left the block. */
  ghost function Hop(s: seq<byte>, off: nat, k: nat): nat
    decreases k
  {
    if k == 0 || off == 0 then off else if off + 8 > |s| then 0 else Hop(s, U16(s, off + 6), k - 1)
  }

  lemma {:induction false} ChainLeaves(cfg: Config, s: seq<byte>, off: nat, room: nat, k: nat)
    requires cfg.Ok() && Hop(s, off, k) == 0
    ensures After(cfg, s, off, room, k + 1) == Left
    decreases k
  {
    hide Ndp;
    if off != 0 && Ndp(cfg, s, off, room).verdict.Go? {
      ChainLeaves(cfg, s, U16(s, off + 6), room - |Ndp(cfg, s, off, room).out|, k - 1);
    }
  }

  /** Every acyclic chain of NDPs is walked to an end. */
  lemma AcyclicEnds(cfg: Config, s: seq<byte>, off: nat, room: nat, k: nat)
    requires cfg.Ok() && off < 0x10000 && Hop(s, off, k) == 0
    ensures Walk(cfg, s, off, room, {}).end != Hangs
  {
    ChainLeaves(cfg, s, off, room, k);
    EndsIff(cfg, s, off, room);
  }

  // ---------------------------------------------------------------------------
  // What is delivered from any block

  predicate Sound(cfg: Config, s: seq<byte>, out: seq<Qmap.Slice>) {
    forall k :: 0 <= k < |out| ==>
      && 0 < out[k].len <= cfg.rxMax && out[k].from + out[k].len <= |s| && Qmap.IsIp(s[out[k].from])
      && out[k].dev < |cfg.devs| && cfg.devs[out[k].dev].Registered?
  }

  lemma {:induction false} EntriesSound(cfg: Config, s: seq<byte>, off: nat, dev: nat, x: nat, n: nat, room: nat)
    requires cfg.Ok() && dev < |cfg.devs| && x <= n
    ensures Sound(cfg, s, Entries(cfg, s, off, dev, x, n, room).out)
    decreases n - x
  {
    if x < n && EntryAt(cfg, s, off, dev, x, room).Take? { EntriesSound(cfg, s, off, dev, x + 1, n, room - 1); }
  }

  lemma NdpSound(cfg: Config, s: seq<byte>, off: nat, room: nat)
    requires cfg.Ok()
    ensures Sound(cfg, s, Ndp(cfg, s, off, room).out)
  {
    if Ndp(cfg, s, off, room).out != [] {
      EntriesSound(cfg, s, off, DevIndex(cfg, SessionOf(s, off).tci), 0, (U16(s, off + 4) - 8) / 4, room);
    }
  }

  /** Whatever the block holds, each delivered datagram is a non-empty IP slice of it within
      rx_max, for a registered device. */
  lemma {:induction false} WalkSound(cfg: Config, s: seq<byte>, off: nat, room: nat, seen: set<int>)
    requires cfg.Ok() && off < 0x10000
    ensures Sound(cfg, s, Walk(cfg, s, off, room, seen).out)
    decreases room, OFFSETS - seen
  {
    hide Ndp;
    if off != 0 && off !in seen {
      var p := Ndp(cfg, s, off, room);
      NdpSound(cfg, s, off, room);
      assert off in OFFSETS - seen;
      if p.verdict.Go? {
        WalkSound(cfg, s, U16(s, off + 6), room - |p.out|, if p.out == [] then seen + {off} else {});
      }
    }
  }

  // ---------------------------------------------------------------------------
  // Round trip

  lemma LoHi(n: nat)
    ensures Lo(n) + Hi(n) * 256 == n % 0x10000
  {
    var q, r := n / 256, n % 256;
    assert n == 256 * q + r;
    var high, low := q / 256, q % 256;
    assert q == 256 * high + low;
    assert n == 0x10000 * high + (256 * low + r) && 256 * low + r < 0x10000;
    Residue(n, high, 256 * low + r);
  }

  lemma Residue(n: nat, high: nat, rest: nat)
    requires n == 0x10000 * high + rest && rest < 0x10000
    ensures n % 0x10000 == rest
  {
  }

  /** A field of a structure that lies at `from`. */
  lemma FieldAt(b: seq<byte>, from: nat, part: seq<byte>, k: nat, n: nat)
    requires from + |part| <= |b| && b[from..from + |part|] == part && k + 2 <= |part|
    requires part[k] == Lo(n) && part[k + 1] == Hi(n)
    ensures U16(b, from + k) == n % 0x10000
  {
    LoHi(n);
    assert b[from + k] == b[from..from + |part|][k];
    assert b[from + k + 1] == b[from..from + |part|][k + 1];
  }

  lemma NthFields(nth: Nth16, b: seq<byte>)
    requires |b| >= 12 && b[0..12] == nth.Bytes()
    ensures U16(b, 6) == nth.wSequence % 0x10000 && U16(b, 8) == nth.wBlockLength % 0x10000
    ensures U16(b, 10) == nth.wNdpIndex % 0x10000
    ensures b[0] == 0x4E && b[1] == 0x43 && b[2] == 0x4D && b[3] == 0x48
  {
    var h := nth.Bytes();
    FieldAt(b, 0, h, 6, nth.wSequence);
    FieldAt(b, 0, h, 8, nth.wBlockLength);
    FieldAt(b, 0, h, 10, nth.wNdpIndex);
    assert b[0] == h[0] && b[1] == h[1] && b[2] == h[2] && b[3] == h[3];
  }

  lemma NdpFields(ndp: Ndp16, b: seq<byte>)
    requires |b| >= 28 && b[12..28] == ndp.Bytes()
    ensures SessionOf(b, 12) == Session(ndp.tci) && U16(b, 16) == ndp.wLength % 0x10000
    ensures U16(b, 18) == ndp.wNextNdpIndex % 0x10000 && U16(b, 20) == ndp.wDatagramIndex % 0x10000
    ensures U16(b, 22) == ndp.wDatagramLength % 0x10000 && U16(b, 24) == 0
  {
    var h := ndp.Bytes();
    FieldAt(b, 12, h, 4, ndp.wLength);
    FieldAt(b, 12, h, 6, ndp.wNextNdpIndex);
    FieldAt(b, 12, h, 8, ndp.wDatagramIndex);
    FieldAt(b, 12, h, 10, ndp.wDatagramLength);
    FieldAt(b, 12, h, 12, 0);
    assert b[12] == h[0] && b[13] == h[1] && b[14] == h[2] && b[15] == h[3];
  }

  lemma BlockFields(seqNo: nat, tci: byte, data: seq<byte>, b: seq<byte>)
    requires b == Block(seqNo, tci, data)
    ensures U16(b, 6) == seqNo % 0x10000 && U16(b, 8) == (HEADER + |data|) % 0x10000 && U16(b, 10) == 12
    ensures SessionOf(b, 12) == Session(tci) && U16(b, 16) == 16 && U16(b, 18) == 0
    ensures U16(b, 20) == 28 && U16(b, 22) == |data| % 0x10000 && U16(b, 24) == 0
    ensures b[0] == 0x4E && b[1] == 0x43 && b[2] == 0x4D && b[3] == 0x48 && b[HEADER..] == data
  {
    NthFields(Nth16(seqNo, HEADER + |data|, 12), b);
    NdpFields(Ndp16(tci, 16, 0, HEADER, |data|), b);
  }

  /** The single entry of a block's table. */
  lemma BlockEntries(cfg: Config, b: seq<byte>, dev: nat, len: nat, room: nat)
    requires cfg.Ok() && dev < |cfg.devs| && cfg.devs[dev].Registered? && room > 0 && |b| >= HEADER + len
    requires U16(b, 20) == 28 && U16(b, 22) == len && U16(b, 24) == 0
    ensures Entries(cfg, b, 12, dev, 0, 2, room).out ==
              (if len != 0 && len <= cfg.rxMax && Qmap.IsIp(b[28]) then [Qmap.Slice(dev, 28, len)] else [])
    ensures Entries(cfg, b, 12, dev, 0, 2, room).out != [] ==> Entries(cfg, b, 12, dev, 0, 2, room).verdict.Go?
  {
    assert Entries(cfg, b, 12, dev, 1, 2, room - 1) == Part([], Go);
  }

  /** Some session byte reaches child `i` only when it did not have to be cut to eight bits. */
  predicate MuxFits(cfg: Config, i: nat) {
    if cfg.mode == 1 then cfg.base < 256
    else (if cfg.base + i + 1 < 0x1_0000_0000 then cfg.base + i + 1 else cfg.base + i + 1 - 0x1_0000_0000) < 256
  }

  lemma MuxIff(cfg: Config, i: nat)
    requires cfg.Ok() && i < cfg.mode
    ensures Accepts(cfg, Tci(cfg, i)) <==> MuxFits(cfg, i)
    ensures MuxFits(cfg, i) ==> DevIndex(cfg, Tci(cfg, i)) == i
  {
    var t := Tci(cfg, i) as int;
    if cfg.mode > 1 {
      NextResidue(cfg.base + i);
      SumFits(cfg.base, i + 1, t);
      if Accepts(cfg, t) { SameResidue(Sub32(t, cfg.base), i + 1, t, cfg.base); }
    }
  }

  lemma NextResidue(n: nat)
    ensures (n % 256 + 1) % 256 == (n + 1) % 256
  {
  }

  /** The 32-bit sum is what its low byte says exactly when it fits there. */
  lemma SumFits(base: nat, j: nat, t: nat)
    requires base < 0x1_0000_0000 && j < 256 && t == (base + j) % 256
    ensures var sum := if base + j < 0x1_0000_0000 then base + j else base + j - 0x1_0000_0000;
            (sum < 256 <==> sum == t) && (sum == t <==> Sub32(t, base) == j)
  {
  }

  lemma SameResidue(d: nat, j: nat, t: nat, base: nat)
    requires d < 256 && j < 256 && base < 0x1_0000_0000 && t == (base + j) % 256 && d == Sub32(t, base)
    ensures d == j
  {
    assert (d + base) % 256 == t;
  }

  /** The session number equal to mbim_mux_id passes the check although no child has it: the
      index then lies outside the array. Every other accepted session names a child. */
  lemma BaseSessionFaults(cfg: Config, tci: nat)
    requires cfg.Ok() && cfg.mode > 1 && tci < 512 && Accepts(cfg, tci)
    ensures DevIndex(cfg, tci) < cfg.mode <==> tci != cfg.base
    ensures tci == cfg.base ==> DevIndex(cfg, tci) >= |cfg.devs|
  {
  }

  function Delivered(cfg: Config, s: seq<byte>, room: nat): seq<(nat, seq<byte>)>
    requires cfg.Ok()
  {
    Qmap.Datagrams(s, Receive(cfg, s, room).out)
  }

  predicate BlockTaken(cfg: Config, i: nat, data: seq<byte>) {
    && data != [] && Qmap.IsIp(data[0]) && |data| < 0x10000 && |data| <= cfg.rxMax
    && (HEADER + |data|) % 0x10000 <= cfg.rxMax && MuxFits(cfg, i)
  }

  lemma ReceiveBlock(cfg: Config, i: nat, data: seq<byte>, seqNo: nat, room: nat, b: seq<byte>)
    requires cfg.Ok() && i < cfg.mode && cfg.devs[i].Registered? && room > 0 && b == Block(seqNo, Tci(cfg, i), data)
    ensures Receive(cfg, b, room).out ==
      if (HEADER + |data|) % 0x10000 <= cfg.rxMax && MuxFits(cfg, i) && |data| % 0x10000 != 0
         && |data| % 0x10000 <= cfg.rxMax && Qmap.IsIp(b[28])
      then [Qmap.Slice(i, 28, |data| % 0x10000)] else []
  {
    BlockFields(seqNo, Tci(cfg, i), data, b);
    MuxIff(cfg, i);
    BlockEntries(cfg, b, i, |data| % 0x10000, room);
    if U16(b, 8) <= cfg.rxMax {
      var p := Ndp(cfg, b, 12, room);
      if p.verdict.Go? {
        var r := Walk(cfg, b, 0, room - |p.out|, if p.out == [] then {12} else {});
        assert Walk(cfg, b, 12, room, {}).out == p.out + r.out == p.out;
      }
    }
  }

  /** The round trip, exactly: a datagram framed for child `i` comes out unchanged on child `i`
      if and only if it is an IP packet, it and its block are within rx_max, and the session
      number fits its byte. */
  lemma RoundTripIff(cfg: Config, i: nat, data: seq<byte>, seqNo: nat, room: nat)
    requires cfg.Ok() && i < cfg.mode && cfg.devs[i].Registered? && room > 0
    ensures Delivered(cfg, Block(seqNo, Tci(cfg, i), data), room) == [(i, data)] <==> BlockTaken(cfg, i, data)
  {
    var b := Block(seqNo, Tci(cfg, i), data);
    assert b[HEADER..] == data;
    ReceiveBlock(cfg, i, data, seqNo, room, b);
    TakenOrNot(cfg, i, data, b, Receive(cfg, b, room).out);
  }

  lemma TakenOrNot(cfg: Config, i: nat, data: seq<byte>, b: seq<byte>, out: seq<Qmap.Slice>)
    requires |b| == HEADER + |data| && b[HEADER..] == data
    requires out ==
      if (HEADER + |data|) % 0x10000 <= cfg.rxMax && MuxFits(cfg, i) && |data| % 0x10000 != 0
         && |data| % 0x10000 <= cfg.rxMax && Qmap.IsIp(b[28])
      then [Qmap.Slice(i, 28, |data| % 0x10000)] else []
    ensures Qmap.Datagrams(b, out) == [(i, data)] <==> BlockTaken(cfg, i, data)
  {
    OneDatagram(b, data, i, |data| % 0x10000);
    if data != [] { assert b[28] == b[HEADER..][0]; }
  }

  lemma OneDatagram(b: seq<byte>, data: seq<byte>, i: nat, len: nat)
    requires |b| == HEADER + |data| && b[HEADER..] == data && len <= |data|
    ensures Qmap.Datagrams(b, [Qmap.Slice(i, HEADER, len)]) == [(i, data)] <==> len == |data|
    ensures Qmap.Datagrams(b, []) != [(i, data)]
  {
    assert Qmap.Bytes(b, Qmap.Slice(i, HEADER, len)) == b[HEADER..][..len] == data[..len];
    assert Qmap.Datagrams(b, [Qmap.Slice(i, HEADER, len)]) == [(i, data[..len])];
    if len == |data| {
      assert data[..len] == data;
    } else {
      assert [(i, data[..len])][0] == (i, data[..len]) && |data[..len]| != |data|;
    }
  }

  /** The block that carries packet `k` of an exchange whose first sequence number is `first`, and
      what it delivers. */
  ghost predicate OnTheWire(cfg: Config, first: nat, packets: seq<(nat, seq<byte>)>, blocks: seq<seq<byte>>)
    requires cfg.Ok()
    requires forall k :: 0 <= k < |packets| ==> packets[k].0 < cfg.mode
  {
    && |blocks| <= |packets|
    && forall k :: 0 <= k < |blocks| ==>
         && blocks[k] == Block((first + k) % 0x10000, Tci(cfg, packets[k].0), packets[k].1)
         && Delivered(cfg, blocks[k], 1) == [packets[k]]
  }

  lemma NothingYet(cfg: Config, first: nat, packets: seq<(nat, seq<byte>)>)
    requires cfg.Ok()
    requires forall k :: 0 <= k < |packets| ==> packets[k].0 < cfg.mode
    ensures OnTheWire(cfg, first, packets, [])
  {
  }

  lemma OneMore(cfg: Config, first: nat, packets: seq<(nat, seq<byte>)>, blocks: seq<seq<byte>>, b: seq<byte>)
    requires cfg.Ok() && |blocks| < |packets|
    requires forall k :: 0 <= k < |packets| ==> packets[k].0 < cfg.mode
    requires OnTheWire(cfg, first, packets, blocks)
    requires var p := packets[|blocks|];
             b == Block((first + |blocks|) % 0x10000, Tci(cfg, p.0), p.1) && Delivered(cfg, b, 1) == [p]
    ensures OnTheWire(cfg, first, packets, blocks + [b])
  {
    hide Block, Delivered, Tci;
  }

  /** A whole exchange: every packet travels in a block of its own and arrives on its child, in
      order, and the sequence counters agree throughout, also across the 16-bit wrap. */
  method Exchange(cfg: Config, tx: MbimContext, rx: MbimContext, packets: seq<(nat, seq<byte>)>)
    returns (blocks: seq<seq<byte>>, got: seq<(nat, seq<byte>)>, glitches: bool)
    requires cfg.Ok() && tx.Valid() && rx.Valid() && tx != rx && tx.txSeq == rx.rxSeq
    requires forall k :: 0 <= k < |packets| ==>
               && packets[k].0 < cfg.mode && cfg.devs[packets[k].0].Registered?
               && BlockTaken(cfg, packets[k].0, packets[k].1)
    modifies tx, rx
    ensures |blocks| == |packets| && OnTheWire(cfg, old(tx.txSeq), packets, blocks)
    ensures got == packets && !glitches
    ensures tx.txSeq == rx.rxSeq == (old(tx.txSeq) + |packets|) % 0x10000
  {
    hide Block, Delivered, BlockTaken, Tci, OnTheWire;
    NothingYet(cfg, tx.txSeq, packets);
    blocks, got, glitches := [], [], false;
    for k := 0 to |packets|
      invariant tx.Valid() && rx.Valid() && got == packets[..k] && !glitches
      invariant |blocks| == k && OnTheWire(cfg, old(tx.txSeq), packets, blocks)
      invariant tx.txSeq == rx.rxSeq == (old(tx.txSeq) + k) % 0x10000
    {
      var block, one, glitch := Pass(cfg, tx, rx, packets[k].0, packets[k].1);
      OneMore(cfg, old(tx.txSeq), packets, blocks, block);
      blocks, got := blocks + [block], got + one;
      glitches := glitches || glitch;
    }
  }

  method Pass(cfg: Config, tx: MbimContext, rx: MbimContext, i: nat, data: seq<byte>)
    returns (block: seq<byte>, got: seq<(nat, seq<byte>)>, glitch: bool)
    requires cfg.Ok() && tx.Valid() && rx.Valid() && tx != rx && tx.txSeq == rx.rxSeq
    requires i < cfg.mode && cfg.devs[i].Registered? && BlockTaken(cfg, i, data)
    modifies tx, rx
    ensures tx.Valid() && rx.Valid() && got == Delivered(cfg, block, 1) == [(i, data)] && !glitch
    ensures block == Block(old(tx.txSeq), Tci(cfg, i), data)
    ensures tx.txSeq == rx.rxSeq == (old(tx.txSeq) + 1) % 0x10000
  {
    hide Block, Delivered, BlockTaken, Tci;
    block := Send(cfg, tx, i, data);
    got, glitch := Accept(cfg, rx, block);
  }

  method Send(cfg: Config, tx: MbimContext, i: nat, data: seq<byte>) returns (block: seq<byte>)
    requires cfg.Ok() && tx.Valid() && i < cfg.mode && cfg.devs[i].Registered? && BlockTaken(cfg, i, data)
    modifies tx`txSeq
    ensures tx.Valid() && tx.txSeq == (old(tx.txSeq) + 1) % 0x10000
    ensures block == Block(old(tx.txSeq), Tci(cfg, i), data)
    ensures HeaderOk(cfg, block) && U16(block, 6) == old(tx.txSeq) && Delivered(cfg, block, 1) == [(i, data)]
  {
    hide Block, Delivered, BlockTaken;
    block := tx.Transmit(cfg, i, data, HEADER);
    Arrives(cfg, i, data, old(tx.txSeq), block);
  }

  method Accept(cfg: Config, rx: MbimContext, block: seq<byte>) returns (got: seq<(nat, seq<byte>)>, glitch: bool)
    requires cfg.Ok() && rx.Valid() && HeaderOk(cfg, block) && U16(block, 6) == rx.rxSeq
    modifies rx`rxSeq
    ensures rx.Valid() && got == Delivered(cfg, block, 1) && !glitch && rx.rxSeq == (old(rx.rxSeq) + 1) % 0x10000
  {
    var out, end;
    out, end, glitch := rx.Handle(cfg, block, 1);
    got := Qmap.Datagrams(block, out);
  }

  lemma Arrives(cfg: Config, i: nat, data: seq<byte>, seqNo: nat, b: seq<byte>)
    requires cfg.Ok() && i < cfg.mode && cfg.devs[i].Registered? && BlockTaken(cfg, i, data)
    requires b == Block(seqNo, Tci(cfg, i), data)
    ensures HeaderOk(cfg, b) && U16(b, 6) == seqNo % 0x10000 && Delivered(cfg, b, 1) == [(i, data)]
  {
    BlockFields(seqNo, Tci(cfg, i), data, b);
    RoundTripIff(cfg, i, data, seqNo, 1);
  }
}
