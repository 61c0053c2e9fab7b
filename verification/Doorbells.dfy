/** The doorbell protocol over whole runs (mhi_main.c, mhi_pm.c): when a doorbell is written, what
    it says, and that no channel with work is left to a device that does not look. */
module Doorbells {
  import opened Rings
  import opened PowerStates
  import opened HostSpec
  import opened HostLaws
  import Runs = HostRuns
  import opened HostRuns
  import opened HostOutcomes

  /** The device was just told about everything that is outstanding. */
  ghost predicate Rung(c: Chan)
    requires ChanOk(c)
  {
    var db := Phys(c.cfg, WpSlot(c));
    c.ctxtWp == db && c.dbVal == db && c.doorbells != [] && c.doorbells[|c.doorbells| - 1] == db
  }

  // ---------------------------------------------------------------------------
  // When a doorbell is written

  /** An admitted queue call rings, unless the device is watching the ring of a burst channel. */
  lemma QueueRings(h: Host, i: nat, r: Request)
    requires HostOk(h) && i < |h.chans| && h.pm == M0 && QueueReturn(h, i, r) == Queued
    requires h.chans[i].dbMode || !h.chans[i].cfg.burst
    ensures Rung(Queue(h, i, r).chans[i]) && |Queue(h, i, r).chans[i].doorbells| == |h.chans[i].doorbells| + 1
  {
  }

  /** So does an OOB or DB_MODE event on a channel with work ... */
  lemma DbEventRings(h: Host, i: nat, code: Code, ptr: nat, bytes: nat, client: Client)
    requires HostOk(h) && i < |h.chans| && ClientOk(h, client) && h.pm == M0 && h.chans[i].enabled
    requires (code == OobCode || code == DbModeCode) && h.chans[i].out != []
    ensures var c := Xfer(h, i, code, ptr, bytes, client).chans[i];
            Rung(c) && |c.doorbells| == |h.chans[i].doorbells| + 1
  {
  }

  /** ... and so does the way back to M0. */
  lemma M0Rings(h: Host, i: nat)
    requires HostOk(h) && i < |h.chans| && h.chans[i].started && h.chans[i].out != []
    requires Try(h.pm, M0) == M0 && (h.chans[i].cfg.resetReq || h.chans[i].dbMode || !h.chans[i].cfg.burst)
    ensures Rung(ToM0(h).chans[i]) && |ToM0(h).chans[i].doorbells| == |h.chans[i].doorbells| + 1
  {
  }

  /** In any run the first queue call after a start rings, if doorbells are legal. */
  lemma FirstQueueRings(run: seq<System>, k: nat, i: nat, r: Request)
    requires Runs.Run(run) && k < |run| && i < |run[k].host.chans| && run[k].host.pm == M0
    requires run[k].host.chans[i].started && |run[k].host.chans[i].accepted| == run[k].host.chans[i].origin
    requires QueueReturn(run[k].host, i, r) == Queued
    ensures HostOk(run[k].host) && Rung(Queue(run[k].host, i, r).chans[i])
  {
    hide IsStep, Follows, Initial;
    RunKeeps(run, k);
    QueueRings(run[k].host, i, r);
  }

  // ---------------------------------------------------------------------------
  // What any operation does to the doorbell of a channel

  /** Doorbells are only added, none when they are not legal, and db_mode falls only with one. */
  predicate DbStep(legal: bool, c: Chan, c': Chan) {
    && c'.cfg == c.cfg && c.doorbells <= c'.doorbells
    && (c.dbMode && !c'.dbMode ==> |c.doorbells| < |c'.doorbells|)
    && (!legal ==> c'.doorbells == c.doorbells)
  }

  ghost predicate DbSteps(legal: bool, h: Host, h': Host) {
    |h'.chans| == |h.chans| && forall j :: 0 <= j < |h.chans| ==> DbStep(legal, h.chans[j], h'.chans[j])
  }

  lemma DbTrans(legal: bool, a: Host, b: Host, c: Host)
    requires DbSteps(legal, a, b) && DbSteps(legal, b, c)
    ensures DbSteps(legal, a, c)
  {
    forall j | 0 <= j < |a.chans| ensures DbStep(legal, a.chans[j], c.chans[j]) {
      assert DbStep(legal, a.chans[j], b.chans[j]) && DbStep(legal, b.chans[j], c.chans[j]);
    }
  }

  lemma QueueDb(h: Host, i: nat, r: Request)
    requires HostOk(h) && i < |h.chans|
    ensures DbSteps(h.pm == M0, h, Queue(h, i, r))
  {
  }

  lemma {:induction false} QueueAllDb(h: Host, calls: seq<Call>)
    requires HostOk(h) && forall k :: 0 <= k < |calls| ==> calls[k].chan < |h.chans|
    ensures DbSteps(h.pm == M0, h, QueueAll(h, calls))
    decreases |calls|
  {
    hide DbSteps;
    if calls == [] {
      DbSame(h);
    } else {
      var h1 := Queue(h, calls[0].chan, calls[0].req);
      QueueDb(h, calls[0].chan, calls[0].req);
      QueueAllDb(h1, calls[1..]);
      DbTrans(h.pm == M0, h, h1, QueueAll(h, calls));
    }
  }

  lemma DbSame(h: Host)
    ensures forall legal :: DbSteps(legal, h, h)
  {
  }

  lemma CompleteOneDb(h: Host, i: nat, status: Status, bytes: nat, client: Client)
    requires HostOk(h) && i < |h.chans| && h.chans[i].out != [] && ClientOk(h, client)
    ensures DbSteps(h.pm == M0, h, CompleteOne(h, i, status, bytes, client))
  {
    var h1 := Set(h, i, Pop(h.chans[i], status, bytes));
    var calls := client(i, |h1.chans[i].returned|);
    assert DbSteps(h.pm == M0, h, h1);
    QueueAllDb(h1, calls);
    DbTrans(h.pm == M0, h, h1, QueueAll(h1, calls));
  }

  lemma {:induction false} CompleteDb(h: Host, i: nat, count: nat, status: Status, bytes: nat, client: Client)
    requires HostOk(h) && i < |h.chans| && count <= |h.chans[i].out| && ClientOk(h, client)
    ensures DbSteps(h.pm == M0, h, Complete(h, i, count, status, bytes, client))
    decreases count
  {
    hide DbSteps, CompleteOne, ClientOk;
    if count == 0 {
      DbSame(h);
    } else {
      var h1 := CompleteOne(h, i, status, bytes, client);
      CompleteOneDb(h, i, status, bytes, client);
      CompleteDb(h1, i, count - 1, status, bytes, client);
      DbTrans(h.pm == M0, h, h1, Complete(h, i, count, status, bytes, client));
    }
  }

  lemma DispatchDb(h: Host, e: Event, client: Client)
    requires HostOk(h) && ClientOk(h, client) && Ready(h, e)
    ensures DbSteps(h.pm == M0, h, Dispatch(h, e, client))
  {
    hide Complete, CompleteOne;
    if e.XferEvent? && h.chans[e.chan].enabled && IsCompletion(e.code) {
      CompleteDb(h, e.chan, CompletionCount(h.chans[e.chan], e.ptr), StatusOf(e.code), e.len % 0x10000, client);
    }
  }

  lemma {:induction false} DrainDb(h: Host, i: nat)
    requires HostOk(h) && i < |h.chans|
    ensures DbSteps(h.pm == M0, h, Drain(h, i))
    decreases |h.chans[i].out|
  {
    var c := h.chans[i];
    if c.out != [] {
      var h1 := Set(PendDec(h, c.cfg.uplink), i, Pop(c, NotConn, 0));
      assert DbSteps(h.pm == M0, h, h1);
      DrainDb(h1, i);
      DbTrans(h.pm == M0, h, h1, Drain(h, i));
    }
  }

  lemma EndStopDb(h: Host, i: nat)
    requires HostOk(h) && i < |h.chans|
    ensures DbSteps(h.pm == M0, h, EndStop(h, i))
  {
    var cmd := h.chans[i].cmd;
    if cmd.Stopping? {
      var h1 := Vote(h, if cmd.voted then -1 else 0);
      assert DbSteps(h.pm == M0, h, h1);
      DrainDb(h1, i);
      DbTrans(h.pm == M0, h, h1, Drain(h1, i));
      DbTrans(h.pm == M0, h, Drain(h1, i), EndStop(h, i));
    }
  }

  lemma CommandDb(h: Host, i: nat, ee: bool, room: bool, answer: Answer)
    requires HostOk(h) && i < |h.chans|
    ensures DbSteps(h.pm == M0, h, BeginStart(h, i, ee, room)) && DbSteps(h.pm == M0, h, EndStart(h, i, answer))
    ensures DbSteps(h.pm == M0, h, BeginStop(h, i))
  {
  }

  lemma M0Db(h: Host)
    requires HostOk(h)
    ensures DbSteps(ToM0(h).pm == M0, h, ToM0(h))
  {
  }

  lemma PmDb(h: Host, pm: Pm, legal: bool)
    ensures DbSteps(legal, h, h.(pm := pm))
  {
  }

  lemma StepDb(s: System, step: Step, s': System)
    requires SysInv(s) && IsStep(s, step, s')
    ensures DbSteps(s'.host.pm == M0, s.host, s'.host)
  {
    hide SysInv, MarkStale, DbSteps, Queue, BeginStart, EndStart, BeginStop, EndStop, ToM0, Xfer;
    match step
    case QueueStep(i, r) => QueueDb(s.host, i, r);
    case ProcessEvent(k, client) => DispatchDb(s.host, s.rings[k][0], client);
    case M0Event => M0Db(s.host);
    case PmRequest(_) => PmDb(s.host, s'.host.pm, s'.host.pm == M0);
    case PowerUp => PmDb(s.host, Disable, false);
    case PanicDownload => PmDb(s.host, LdErrFatal, false);
    case StartStep(i, ee, room) => CommandDb(s.host, i, ee, room, Confirmed);
    case AnswerStep(i, answer) => CommandDb(s.host, i, true, true, answer);
    case DisableStep(i) => CommandDb(s.host, i, true, true, Confirmed);
    case ResetStep(i) => EndStopDb(s.host, i);
    case _ => DbSame(s.host);
  }

  // ---------------------------------------------------------------------------
  // Safety and no lost wake-up

  /** The device of a burst channel watches the ring: a doorbell came after the last time that it
      stopped. */
  predicate Watching(s: System, i: nat)
    requires Shape(s) && i < |s.er|
  {
    |s.host.chans[i].doorbells| > s.heard[i]
  }

  predicate IsDbEvent(e: Event, i: nat) {
    e.XferEvent? && e.chan == i && (e.code == OobCode || e.code == DbModeCode)
  }

  /** The device has told the host that it stopped watching, and the host has yet to read it. */
  predicate HasSaidSo(s: System, i: nat)
    requires Shape(s) && i < |s.er|
  {
    exists m :: 0 <= m < |s.rings[s.er[i]]| && IsDbEvent(s.rings[s.er[i]][m], i)
  }

  /** The law about a burst channel: a doorbell is due, or the device watches, or it has said that it
      does not. Outside M0 it says nothing of channels whose state the device loses there. */
  predicate WakeOk(s: System, i: nat)
    requires Shape(s) && i < |s.er|
  {
    var c := s.host.chans[i];
    && s.heard[i] <= |c.doorbells|
    && (c.cfg.burst && c.enabled && !s.cleared[i] && (s.host.pm == M0 || !c.cfg.resetReq) ==>
          c.dbMode || Watching(s, i) || HasSaidSo(s, i))
  }

  /** A step that leaves the rings alone, or adds to them. */
  lemma WakeGrows(s: System, s': System, i: nat)
    requires Shape(s) && Shape(s') && i < |s.er| && s'.er == s.er && WakeOk(s, i)
    requires s'.heard[i] == s.heard[i] && s'.cleared[i] == s.cleared[i]
    requires DbStep(s'.host.pm == M0, s.host.chans[i], s'.host.chans[i])
    requires s'.host.chans[i].enabled ==> s.host.chans[i].enabled
    requires s'.host.pm == M0 ==> s.host.pm == M0
    requires |s'.rings| == |s.rings| && s.rings[s.er[i]] <= s'.rings[s.er[i]]
    ensures WakeOk(s', i)
  {
    if HasSaidSo(s, i) {
      var m :| 0 <= m < |s.rings[s.er[i]]| && IsDbEvent(s.rings[s.er[i]][m], i);
      assert IsDbEvent(s'.rings[s.er[i]][m], i);
    }
  }

  lemma WakeM0(s: System, i: nat)
    requires SysInv(s) && i < |s.er| && WakeOk(s, i)
    ensures WakeOk(s.(host := ToM0(s.host)), i)
  {
    var s' := s.(host := ToM0(s.host));
    assert HasSaidSo(s', i) == HasSaidSo(s, i);
  }

  lemma WakeEvent(s: System, k: nat, client: Client, i: nat)
    requires SysInv(s) && i < |s.er| && k < |s.rings| && s.rings[k] != [] && ClientOk(s.host, client)
    requires ReadyToProcess(s, k) && WakeOk(s, i)
    ensures Shape(Handled(s, k, client)) && WakeOk(Handled(s, k, client), i)
  {
    hide Complete, CompleteOne, SysInv, RingDb;
    ShapeHolds(s);
    var s', e := Handled(s, k, client), s.rings[k][0];
    DispatchDb(s.host, e, client);
    HandledEffect(s, k, client);
    assert DbStep(s.host.pm == M0, s.host.chans[i], s'.host.chans[i]);
    assert AfterEvent(s.host.chans[i], s'.host.chans[i], e, i);
    if HasSaidSo(s, i) {
      var m :| 0 <= m < |s.rings[s.er[i]]| && IsDbEvent(s.rings[s.er[i]][m], i);
      if k != s.er[i] {
        assert IsDbEvent(s'.rings[s.er[i]][m], i);
      } else if m > 0 {
        assert IsDbEvent(s'.rings[s.er[i]][m - 1], i);
      } else if s.host.chans[i].enabled {
        DbEventDue(s.host, e, client);
      }
    }
  }

  /** After an OOB or DB_MODE event a doorbell is due or was written. */
  lemma DbEventDue(h: Host, e: Event, client: Client)
    requires HostOk(h) && ClientOk(h, client) && Ready(h, e) && e.XferEvent? && IsDbEvent(e, e.chan)
    requires h.chans[e.chan].enabled
    ensures var c := Dispatch(h, e, client).chans[e.chan];
            c.dbMode || |c.doorbells| > |h.chans[e.chan].doorbells|
  {
  }

  lemma WakePosted(s: System, s': System, i: nat, e: Event)
    requires Shape(s) && Shape(s') && i < |s.er| && s' == Post(s, i, e).(heard := StopWatching(s, i)) && IsDbEvent(e, i)
    ensures WakeOk(s', i)
  {
    var ring := s'.rings[s.er[i]];
    assert IsDbEvent(ring[|ring| - 1], i);
  }

  lemma WakeReset(s: System, j: nat, s': System, i: nat)
    requires SysInv(s) && i < |s.er| && WakeOk(s, i) && IsStep(s, ResetStep(j), s') && Shape(s')
    ensures WakeOk(s', i)
  {
    EndStopDb(s.host, j);
    EndStopEffect(s.host, j);
    assert DbStep(s'.host.pm == M0, s.host.chans[i], s'.host.chans[i]);
    assert i == j ==> ChanInv(s.host.pm, s.host.chans[i]);
    if i != j && HasSaidSo(s, i) {
      var m :| 0 <= m < |s.rings[s.er[i]]| && IsDbEvent(s.rings[s.er[i]][m], i);
      assert IsDbEvent(s'.rings[s.er[i]][m], i);
    }
  }

  lemma WakeStep(s: System, step: Step, s': System, i: nat)
    requires SysInv(s) && i < |s.er| && WakeOk(s, i) && IsStep(s, step, s') && Shape(s')
    ensures s'.er == s.er && WakeOk(s', i)
  {
    hide SysInv, MarkStale, WakeOk, EndStop, Queue, Dispatch;
    StepDb(s, step, s');
    match step
    case M0Event => WakeM0(s, i);
    case ProcessEvent(k, client) => WakeEvent(s, k, client, i);
    case ResetStep(j) => WakeReset(s, j, s', i);
    case _ => WakeQuiet(s, step, s', i);
  }

  lemma StartingDue(s: System, i: nat)
    requires SysInv(s) && i < |s.er| && s.host.chans[i].cmd.Starting?
    ensures s.host.chans[i].dbMode
  {
    assert ChanInv(s.host.pm, s.host.chans[i]);
  }

  lemma WakeForgotten(s: System, s': System, i: nat)
    requires Shape(s) && Shape(s') && i < |s.er| && s.host.pm != M0 && s.host.chans[i].cfg.resetReq
    requires s' == s.(heard := StopWatching(s, i))
    ensures WakeOk(s', i)
  {
  }

  lemma WakeAnswered(s: System, answer: Answer, s': System, i: nat)
    requires SysInv(s) && i < |s.er| && WakeOk(s, i) && IsStep(s, AnswerStep(i, answer), s') && Shape(s')
    ensures WakeOk(s', i)
  {
    StartingDue(s, i);
  }

  lemma WakeCleared(s: System, s': System, i: nat)
    requires Shape(s) && Shape(s') && i < |s.er| && WakeOk(s, i) && IsStep(s, ResetEventRings, s')
    ensures WakeOk(s', i)
  {
  }

  /** The steps that do not take events away. */
  lemma WakeQuiet(s: System, step: Step, s': System, i: nat)
    requires SysInv(s) && i < |s.er| && WakeOk(s, i) && IsStep(s, step, s') && Shape(s')
    requires DbSteps(s'.host.pm == M0, s.host, s'.host)
    requires !step.M0Event? && !step.ProcessEvent? && !step.ResetStep?
    ensures s'.er == s.er && WakeOk(s', i)
  {
    hide SysInv, Queue, RingDb, WakeOk, DbStep, BeginStart, EndStart, BeginStop;
    if !s.host.chans[i].enabled { EnabledByAnswer(s, step, s', i); }
    assert DbStep(s'.host.pm == M0, s.host.chans[i], s'.host.chans[i]);
    match step
    case DevicePostsDb(j, code) =>
      if j == i { WakePosted(s, s', i, XferEvent(i, code, 0, 0, 0)); } else { WakeGrows(s, s', i); }
    case DeviceForgets(j) =>
      if j == i { WakeForgotten(s, s', i); } else { WakeGrows(s, s', i); }
    case AnswerStep(j, answer) =>
      if j == i { WakeAnswered(s, answer, s', i); } else { WakeGrows(s, s', i); }
    case ResetEventRings => WakeCleared(s, s', i);
    case _ => WakeGrows(s, s', i);
  }

  lemma {:induction false} RunWakes(run: seq<System>, k: nat, i: nat)
    requires Runs.Run(run) && k < |run| && i < |run[0].er|
    ensures run[k].er == run[0].er && SysInv(run[k]) && WakeOk(run[k], i)
  {
    hide SysInv, IsStep, Initial, WakeOk;
    if k == 0 {
      RunKeeps(run, 0);
      WakeInitial(run[0], i);
    } else {
      RunWakes(run, k - 1, i);
      RunKeeps(run, k);
      assert Follows(run[k - 1], run[k]);
      var step :| IsStep(run[k - 1], step, run[k]);
      ShapeHolds(run[k - 1]);
      ShapeHolds(run[k]);
      WakeStep(run[k - 1], step, run[k], i);
    }
  }

  lemma WakeInitial(s: System, i: nat)
    requires Initial(s) && i < |s.er|
    ensures WakeOk(s, i)
  {
  }

  /** No wake-up is lost. In every reachable state in which doorbells are legal, a channel with work
      has published all of it, and: a plain channel has written just that to the doorbell; on a
      burst channel the device is watching, or it has said that it is not and the host will read it.
      It holds from a start on until event rings are emptied under a channel. */
  lemma NoWakeUpLost(run: seq<System>, k: nat, i: nat)
    requires Runs.Run(run) && k < |run| && i < |run[0].er| && i < |run[k].host.chans|
    requires run[k].host.pm == M0 && run[k].host.chans[i].enabled && run[k].host.chans[i].out != []
    ensures Shape(run[k]) && i < |run[k].er|
    ensures run[k].host.chans[i].ctxtWp == Phys(run[k].host.chans[i].cfg, WpSlot(run[k].host.chans[i]))
    ensures !run[k].host.chans[i].cfg.burst ==> Rung(run[k].host.chans[i])
    ensures run[k].host.chans[i].cfg.burst && !run[k].cleared[i] ==> Watching(run[k], i) || HasSaidSo(run[k], i)
  {
    hide Runs.Run, IsStep, Initial;
    RunWakes(run, k, i);
    assert ChanInv(M0, run[k].host.chans[i]);
  }

  /** Doorbells are written in M0 only, and every one is kept in the log. */
  lemma DoorbellsOnlyInM0(run: seq<System>, k: nat, i: nat)
    requires Runs.Run(run) && 0 < k < |run| && i < |run[k - 1].host.chans|
    ensures i < |run[k].host.chans|
    ensures run[k - 1].host.chans[i].doorbells <= run[k].host.chans[i].doorbells
    ensures run[k].host.chans[i].doorbells != run[k - 1].host.chans[i].doorbells ==> run[k].host.pm == M0
  {
    hide SysInv, IsStep, Initial;
    RunKeeps(run, k - 1);
    assert Follows(run[k - 1], run[k]);
    var step :| IsStep(run[k - 1], step, run[k]);
    StepDb(run[k - 1], step, run[k]);
    assert DbStep(run[k].host.pm == M0, run[k - 1].host.chans[i], run[k].host.chans[i]);
  }
}
