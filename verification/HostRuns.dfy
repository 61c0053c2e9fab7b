/** Whole runs of the host together with its device.

    Steps are taken at the granularity of the driver's critical sections. The device posts
    completion events that point into the transfer rings; the host processes them later, in
    ring order, while clients queue and the power state changes. Starting and stopping a channel
    takes two steps each; anything may happen while the command's answer is awaited, except that
    the channel's mutex keeps other starts and stops of the same channel out. */
module HostRuns {
  import opened Rings
  import Power = PowerStates
  import opened PowerStates
  import opened HostSpec
  import opened HostLaws

  /** An element of an event ring. `pos` is history the host never reads: the position, in the
      channel's log of accepted buffers, of the transfer the device meant. */
  datatype Event =
    | XferEvent(chan: nat, code: Code, ptr: nat, len: nat, pos: nat)
    | StaleEvent(chan: nat)
    | OtherEvent

  /** `er` gives the event ring of each channel. `posted[i]` is the log position below which
      the device has already reported on channel `i`. `heard[i]` counts the doorbells of a burst
      channel that the device has finished with: it watches the ring only while there was a later
      one. `cleared[i]` says that event rings were emptied since channel `i` was started. */
  datatype System = System(host: Host, er: seq<nat>, rings: seq<seq<Event>>, posted: seq<nat>,
                           heard: seq<nat>, cleared: seq<bool>)

  datatype Step =
    | QueueStep(chan: nat, req: Request)
    | DeviceCompletes(chan: nat, pos: nat, code: Code, len: nat)
    | DevicePostsDb(chan: nat, code: Code)
    | DevicePostsOther(ring: nat)
    | DeviceForgets(chan: nat)
    | ProcessEvent(ring: nat, client: Client)
    | M0Event
    | PmRequest(want: Pm)
    | PowerUp
    | PanicDownload
    | StartStep(chan: nat, ee: bool, room: bool)
    | AnswerStep(chan: nat, answer: Answer)
    | DisableStep(chan: nat)
    | ResetStep(chan: nat)
    | ResetEventRings

  /** Physical address of the element that holds log position `pos`. */
  function PosPtr(c: Chan, pos: nat): nat
    requires c.cfg.elements > 0 && c.origin <= pos
  {
    Phys(c.cfg, Cyc(pos - c.origin, c.cfg.elements))
  }

  /** mhi_mark_stale_events on the pending part of a ring. */
  function MarkStale(ring: seq<Event>, chan: nat): (r: seq<Event>)
    ensures |r| == |ring|
    ensures forall k :: 0 <= k < |ring| ==>
      r[k] == if ring[k].XferEvent? && ring[k].chan == chan then StaleEvent(chan) else ring[k]
  {
    seq(|ring|, k requires 0 <= k < |ring| =>
      if ring[k].XferEvent? && ring[k].chan == chan then StaleEvent(chan) else ring[k])
  }

  predicate Shape(s: System) {
    && |s.er| == |s.posted| == |s.heard| == |s.cleared| == |s.host.chans|
    && (forall i :: 0 <= i < |s.er| ==> s.er[i] < |s.rings|)
    && HostOk(s.host)
  }

  function Post(s: System, chan: nat, e: Event): System
    requires Shape(s) && chan < |s.er|
  {
    s.(rings := s.rings[s.er[chan] := s.rings[s.er[chan]] + [e]])
  }

  /** The device stops watching the ring of channel `i`: it says so with an OOB or DB_MODE event, or
      it loses its state outside M0 if the channel is configured for that (reset_req). */
  function StopWatching(s: System, i: nat): seq<nat>
    requires Shape(s) && i < |s.er|
  {
    s.heard[i := |s.host.chans[i].doorbells|]
  }

  /** One step of the system. The guards on device steps are the device's obligations; the
      guards on queue steps are the clients'. */
  ghost predicate IsStep(s: System, step: Step, s': System) {
    Shape(s) &&
    match step
    case QueueStep(i, r) =>
      i < |s.er| && s.host.chans[i].started && s' == s.(host := Queue(s.host, i, r))
    case DeviceCompletes(i, pos, code, len) =>
      && i < |s.er| && s.host.chans[i].started && IsCompletion(code)
      && s.host.chans[i].origin <= s.posted[i] <= pos < |s.host.chans[i].accepted|
      && s' == Post(s, i, XferEvent(i, code, PosPtr(s.host.chans[i], pos), len, pos)).(posted := s.posted[i := pos + 1])
    case DevicePostsDb(i, code) =>
      && i < |s.er| && s.host.chans[i].started && (code == OobCode || code == DbModeCode)
      && s' == Post(s, i, XferEvent(i, code, 0, 0, 0)).(heard := StopWatching(s, i))
    case DevicePostsOther(k) =>
      k < |s.rings| && s' == s.(rings := s.rings[k := s.rings[k] + [OtherEvent]])
    case DeviceForgets(i) =>
      && i < |s.er| && s.host.pm != M0 && s.host.chans[i].cfg.resetReq && s' == s.(heard := StopWatching(s, i))
    case ProcessEvent(k, client) =>
      && k < |s.rings| && s.rings[k] != [] && ClientOk(s.host, client)
      && ReadyToProcess(s, k)
      && s' == s.(rings := s.rings[k := s.rings[k][1..]], host := Dispatch(s.host, s.rings[k][0], client))
    case M0Event => s' == s.(host := ToM0(s.host))
    case PmRequest(want) => want != M0 && s' == s.(host := s.host.(pm := Try(s.host.pm, want)))
    case PowerUp => s' == s.(host := s.host.(pm := Disable))
    case PanicDownload => s' == s.(host := s.host.(pm := LdErrFatal))
    case StartStep(i, ee, room) =>
      && i < |s.er| && s.host.chans[i].cmd == NoCommand
      && s' == s.(host := BeginStart(s.host, i, ee, room))
    case AnswerStep(i, answer) =>
      && i < |s.er| && s.host.chans[i].cmd.Starting?
      && s' == s.(host := EndStart(s.host, i, answer), posted := s.posted[i := |s.host.chans[i].returned|],
                  cleared := s.cleared[i := false])
    case DisableStep(i) =>
      && i < |s.er| && s.host.chans[i].cmd == NoCommand
      && s' == s.(host := BeginStop(s.host, i))
    case ResetStep(i) =>
      && i < |s.er| && s.host.chans[i].cmd.Stopping?
      && s' == s.(rings := s.rings[s.er[i] := MarkStale(s.rings[s.er[i]], i)], host := EndStop(s.host, i))
    case ResetEventRings => s' == s.(rings := seq(|s.rings|, _ => []), cleared := seq(|s.er|, _ => true))
  }

  /** What the handling of an event relies on: a completion names an outstanding transfer. */
  predicate Ready(h: Host, e: Event)
    requires HostOk(h)
  {
    e.XferEvent? ==>
      && e.chan < |h.chans|
      && (h.chans[e.chan].enabled && IsCompletion(e.code) ==> NamesOutstanding(h.chans[e.chan], e.ptr))
  }

  /** ... of the event at the head of ring `k`. `HeadIsReady` proves it of every reachable state. */
  predicate ReadyToProcess(s: System, k: nat)
    requires Shape(s) && k < |s.rings| && s.rings[k] != []
  {
    Ready(s.host, s.rings[k][0])
  }

  ghost function Dispatch(h: Host, e: Event, client: Client): Host
    requires HostOk(h) && ClientOk(h, client) && Ready(h, e)
  {
    if e.XferEvent? then Xfer(h, e.chan, e.code, e.ptr, e.len, client) else h
  }

  // ---------------------------------------------------------------------------
  // The invariant of the joint system

  predicate IsReport(e: Event) { e.XferEvent? && IsCompletion(e.code) }

  /** An event of channel `i` sits in the channel's own ring. A pending report names the log
      position it was posted for, and that transfer is still outstanding. */
  ghost predicate EventOk(s: System, k: nat, e: Event)
    requires Shape(s)
  {
    && (e.XferEvent? ==> e.chan < |s.er| && s.er[e.chan] == k)
    && (IsReport(e) ==>
          var c := s.host.chans[e.chan];
          && c.started && |c.returned| <= e.pos < s.posted[e.chan]
          && c.origin <= e.pos && c.cfg.elements > 0 && e.ptr == PosPtr(c, e.pos))
  }

  /** Reports on one channel are pending in log order. */
  predicate Before(a: Event, b: Event) {
    IsReport(a) && IsReport(b) && a.chan == b.chan ==> a.pos < b.pos
  }

  ghost predicate RingOk(s: System, k: nat)
    requires Shape(s) && k < |s.rings|
  {
    && (forall m :: 0 <= m < |s.rings[k]| ==> EventOk(s, k, s.rings[k][m]))
    && (forall m, n :: 0 <= m < n < |s.rings[k]| ==> Before(s.rings[k][m], s.rings[k][n]))
  }

  ghost predicate PostedOk(s: System, i: nat)
    requires Shape(s) && i < |s.er|
  {
    s.host.chans[i].started ==> |s.host.chans[i].returned| <= s.posted[i] <= |s.host.chans[i].accepted|
  }

  ghost predicate SysInv(s: System) {
    && Shape(s) && Inv(s.host, 0)
    && (forall i :: 0 <= i < |s.er| ==> PostedOk(s, i))
    && (forall k :: 0 <= k < |s.rings| ==> RingOk(s, k))
  }

  // ---------------------------------------------------------------------------
  // From a pointer back to the log position

  lemma SlotOfPhys(cfg: Config, slot: nat)
    ensures Phys(cfg, slot) >= cfg.iommu && (Phys(cfg, slot) - cfg.iommu) % TRE_SIZE == 0
    ensures (Phys(cfg, slot) - cfg.iommu) / TRE_SIZE == slot
  {
  }

  /** The device's pointer, although it wraps round the ring, identifies one log position:
      the event completes exactly the accepted transfers up to that position. */
  lemma PointerNamesPosition(pm: Pm, c: Chan, pos: nat)
    requires ChanInv(pm, c) && c.started && |c.returned| <= pos < |c.accepted|
    ensures c.cfg.elements > 0 && c.origin <= pos
    ensures NamesOutstanding(c, PosPtr(c, pos))
    ensures CompletionCount(c, PosPtr(c, pos)) == pos + 1 - |c.returned|
  {
    hide Phys, Fifo, DoorbellOk;
    FifoOutstanding(c);
    var n, a, d := c.cfg.elements, |c.returned| - c.origin, pos - |c.returned|;
    CycAdd(a, d, n);
    var slot := Cyc(pos - c.origin, n);
    assert slot == Wrap(c.rp + d, n);
    SlotOfPhys(c.cfg, slot);
    if d + 1 < n { DistanceUnique(c.rp, d + 1, n); }
  }

  /** In every state that satisfies the invariant the next event can be processed, and it
      hands back exactly the transfers up to the log position it was posted for. */
  lemma HeadIsReady(s: System, k: nat)
    requires SysInv(s) && k < |s.rings| && s.rings[k] != []
    ensures ReadyToProcess(s, k)
    ensures IsReport(s.rings[k][0]) ==> PointsAtLog(s, s.rings[k][0])
  {
    var e := s.rings[k][0];
    assert RingOk(s, k);
    if IsReport(e) {
      assert PostedOk(s, e.chan);
      PointerNamesPosition(s.host.pm, s.host.chans[e.chan], e.pos);
    }
  }

  ghost predicate PointsAtLog(s: System, e: Event)
    requires Shape(s) && IsReport(e)
  {
    && e.chan < |s.host.chans|
    && var c := s.host.chans[e.chan];
       && c.started && NamesOutstanding(c, e.ptr)
       && CompletionCount(c, e.ptr) == e.pos + 1 - |c.returned|
  }

  // ---------------------------------------------------------------------------
  // Every step keeps the invariant

  /** No channel changed in a way that pending events could notice. */
  ghost predicate Steady(s: System, s': System) {
    && Shape(s) && Shape(s') && s'.er == s.er && s'.posted == s.posted && |s'.rings| == |s.rings|
    && forall i :: 0 <= i < |s.er| ==> SteadyChan(s.host.chans[i], s'.host.chans[i])
  }

  predicate SteadyChan(c: Chan, c': Chan) {
    && c'.cfg == c.cfg && c'.started == c.started && c'.origin == c.origin
    && |c'.returned| == |c.returned| && |c'.accepted| >= |c.accepted|
  }

  lemma SteadyKeeps(s: System, s': System)
    requires SysInv(s) && Steady(s, s') && s'.rings == s.rings && Inv(s'.host, 0)
    ensures SysInv(s')
  {
    forall i | 0 <= i < |s'.er| ensures PostedOk(s', i) { assert PostedOk(s, i); }
    forall k | 0 <= k < |s'.rings| ensures RingOk(s', k) {
      assert RingOk(s, k);
      forall m | 0 <= m < |s'.rings[k]| ensures EventOk(s', k, s'.rings[k][m]) {
        assert EventOk(s, k, s.rings[k][m]);
      }
    }
  }

  lemma QueueStepKeeps(s: System, i: nat, r: Request)
    requires SysInv(s) && i < |s.er| && s.host.chans[i].started
    ensures SysInv(s.(host := Queue(s.host, i, r)))
  {
    QueueKeeps(s.host, i, r, 0);
    SteadyKeeps(s, s.(host := Queue(s.host, i, r)));
  }

  lemma PowerStepKeeps(s: System, pm: Pm)
    requires SysInv(s) && (pm == M0 ==> s.host.pm == M0)
    ensures SysInv(s.(host := s.host.(pm := pm)))
  {
    PmKeeps(s.host, pm);
    SteadyKeeps(s, s.(host := s.host.(pm := pm)));
  }

  lemma M0Steady(h: Host)
    requires HostOk(h)
    ensures forall i :: 0 <= i < |h.chans| ==> SteadyChan(h.chans[i], ToM0(h).chans[i])
    ensures forall i :: 0 <= i < |h.chans| ==>
      && ToM0(h).chans[i].accepted == h.chans[i].accepted && ToM0(h).chans[i].returned == h.chans[i].returned
  {
  }

  lemma M0StepKeeps(s: System)
    requires SysInv(s)
    ensures SysInv(s.(host := ToM0(s.host)))
  {
    M0Keeps(s.host);
    M0Steady(s.host);
    SteadyKeeps(s, s.(host := ToM0(s.host)));
  }

  /** Posting at the tail of a ring. */
  lemma PostKeeps(s: System, i: nat, e: Event, posted: nat)
    requires SysInv(s) && i < |s.er| && s.posted[i] <= posted
    requires s.host.chans[i].started ==> posted <= |s.host.chans[i].accepted|
    requires e.XferEvent? && e.chan == i
    requires IsReport(e) ==> s.posted[i] <= e.pos && EventOk(s.(posted := s.posted[i := posted]), s.er[i], e)
    ensures SysInv(Post(s, i, e).(posted := s.posted[i := posted]))
  {
    var s' := Post(s, i, e).(posted := s.posted[i := posted]);
    forall j | 0 <= j < |s'.er| ensures PostedOk(s', j) { assert PostedOk(s, j); }
    forall k | 0 <= k < |s'.rings| ensures RingOk(s', k) {
      assert RingOk(s, k);
      forall m | 0 <= m < |s'.rings[k]| ensures EventOk(s', k, s'.rings[k][m]) {
        if m < |s.rings[k]| { assert EventOk(s, k, s.rings[k][m]); }
      }
    }
  }

  lemma OtherKeeps(s: System, k: nat)
    requires SysInv(s) && k < |s.rings|
    ensures SysInv(s.(rings := s.rings[k := s.rings[k] + [OtherEvent]]))
  {
    var s' := s.(rings := s.rings[k := s.rings[k] + [OtherEvent]]);
    forall j | 0 <= j < |s'.er| ensures PostedOk(s', j) { assert PostedOk(s, j); }
    forall n | 0 <= n < |s'.rings| ensures RingOk(s', n) {
      assert RingOk(s, n);
      forall m | 0 <= m < |s'.rings[n]| ensures EventOk(s', n, s'.rings[n][m]) {
        if m < |s.rings[n]| { assert EventOk(s, n, s.rings[n][m]); }
      }
    }
  }

  /** The host after the head event of ring `k` was handled. */
  ghost function Handled(s: System, k: nat, client: Client): System
    requires Shape(s) && k < |s.rings| && s.rings[k] != [] && ClientOk(s.host, client) && ReadyToProcess(s, k)
  {
    s.(rings := s.rings[k := s.rings[k][1..]], host := Dispatch(s.host, s.rings[k][0], client))
  }

  lemma ReportEffect(s: System, k: nat, client: Client, i: nat)
    requires SysInv(s) && k < |s.rings| && s.rings[k] != [] && ClientOk(s.host, client) && ReadyToProcess(s, k)
    requires IsReport(s.rings[k][0]) && i < |s.er|
    ensures i < |Handled(s, k, client).host.chans|
    ensures AfterEvent(s.host.chans[i], Handled(s, k, client).host.chans[i], s.rings[k][0], i)
  {
    var e := s.rings[k][0];
    HeadIsReady(s, k);
    var count := CompletionCount(s.host.chans[e.chan], e.ptr);
    if !s.host.chans[e.chan].enabled { return; }
    if i == e.chan { CompleteEffect(s.host, i, count, StatusOf(e.code), e.len % 0x10000, client); }
    else { CompleteElsewhere(s.host, e.chan, count, StatusOf(e.code), e.len % 0x10000, client, i); }
  }

  /** Effect of one event on the logs: on an enabled channel a report at log position `pos` leaves
      exactly `pos + 1` buffers returned; nothing else is returned anywhere. */
  lemma HandledEffect(s: System, k: nat, client: Client)
    requires SysInv(s) && k < |s.rings| && s.rings[k] != [] && ClientOk(s.host, client) && ReadyToProcess(s, k)
    ensures Shape(Handled(s, k, client)) && Inv(Handled(s, k, client).host, 0)
    ensures forall i :: 0 <= i < |s.er| ==>
      AfterEvent(s.host.chans[i], Handled(s, k, client).host.chans[i], s.rings[k][0], i)
  {
    hide ChanInv, PostedOk, RingOk, Complete, CompleteOne, VotesOk;
    var e := s.rings[k][0];
    if e.XferEvent? {
      XferKeeps(s.host, e.chan, e.code, e.ptr, e.len, client);
      if IsReport(e) {
        forall i | 0 <= i < |s.er|
          ensures AfterEvent(s.host.chans[i], Handled(s, k, client).host.chans[i], e, i)
        {
          ReportEffect(s, k, client, i);
        }
      }
    }
  }

  /** What a report hands to the client: the buffers up to the log position it was posted for, in
      order, each with the length of the event and with -EOVERFLOW exactly if the device says so. */
  ghost function Reported(c: Chan, e: Event): seq<Result>
    requires e.XferEvent? && |c.returned| <= e.pos < |c.returned| + |c.out|
  {
    Results(c.out, e.pos + 1 - |c.returned|, if e.code == OverflowCode then Overflow else Success, e.len % 0x10000)
  }

  ghost predicate AfterEvent(c: Chan, c': Chan, e: Event, i: nat) {
    && c'.cfg == c.cfg && c'.started == c.started && c'.enabled == c.enabled && c'.cmd == c.cmd
    && c'.origin == c.origin && c.accepted <= c'.accepted
    && if IsReport(e) && e.chan == i && c.enabled
       then |c.returned| <= e.pos < |c.returned| + |c.out| && c'.returned == c.returned + Reported(c, e)
       else c'.returned == c.returned
  }

  lemma ProcessKeeps(s: System, k: nat, client: Client)
    requires SysInv(s) && k < |s.rings| && s.rings[k] != [] && ClientOk(s.host, client) && ReadyToProcess(s, k)
    ensures SysInv(Handled(s, k, client))
  {
    var s', e := Handled(s, k, client), s.rings[k][0];
    HandledEffect(s, k, client);
    assert RingOk(s, k) && EventOk(s, k, e);
    forall i | 0 <= i < |s'.er| ensures PostedOk(s', i) {
      assert PostedOk(s, i);
      assert AfterEvent(s.host.chans[i], s'.host.chans[i], e, i);
    }
    forall n | 0 <= n < |s'.rings| ensures RingOk(s', n) {
      assert RingOk(s, n);
      forall m | 0 <= m < |s'.rings[n]| ensures EventOk(s', n, s'.rings[n][m]) {
        var f := s.rings[n][if n == k then m + 1 else m];
        assert EventOk(s, n, f) && (n == k ==> Before(e, f));
        LaterEventOk(s, s', k, e, n, f);
      }
    }
  }

  /** Events behind the handled one stay in order and ahead of what was returned. */
  lemma LaterEventOk(s: System, s': System, k: nat, e: Event, n: nat, f: Event)
    requires Shape(s) && Shape(s') && s'.er == s.er && s'.posted == s.posted
    requires EventOk(s, k, e) && EventOk(s, n, f) && (n == k ==> Before(e, f))
    requires f.XferEvent? ==> AfterEvent(s.host.chans[f.chan], s'.host.chans[f.chan], e, f.chan)
    ensures EventOk(s', n, f)
  {
  }

  lemma StartStepKeeps(s: System, i: nat, ee: bool, room: bool)
    requires SysInv(s) && i < |s.er| && s.host.chans[i].cmd == NoCommand
    ensures SysInv(s.(host := BeginStart(s.host, i, ee, room)))
  {
    BeginStartKeeps(s.host, i, ee, room);
    var s' := s.(host := BeginStart(s.host, i, ee, room));
    forall j | 0 <= j < |s'.er| ensures PostedOk(s', j) { assert PostedOk(s, j); }
    forall k | 0 <= k < |s'.rings| ensures RingOk(s', k) {
      assert RingOk(s, k);
      forall m | 0 <= m < |s'.rings[k]| ensures EventOk(s', k, s'.rings[k][m]) {
        assert EventOk(s, k, s.rings[k][m]);
      }
    }
  }

  lemma AnswerStepKeeps(s: System, i: nat, answer: Answer)
    requires SysInv(s) && i < |s.er| && s.host.chans[i].cmd.Starting?
    ensures SysInv(s.(host := EndStart(s.host, i, answer), posted := s.posted[i := |s.host.chans[i].returned|],
                      cleared := s.cleared[i := false]))
  {
    var s' := s.(host := EndStart(s.host, i, answer), posted := s.posted[i := |s.host.chans[i].returned|],
                 cleared := s.cleared[i := false]);
    EndStartKeeps(s.host, i, answer);
    forall j | 0 <= j < |s'.er| ensures PostedOk(s', j) { assert PostedOk(s, j); }
    forall k | 0 <= k < |s'.rings| ensures RingOk(s', k) {
      assert RingOk(s, k);
      forall m | 0 <= m < |s'.rings[k]| ensures EventOk(s', k, s'.rings[k][m]) {
        assert EventOk(s, k, s.rings[k][m]);
      }
    }
  }

  lemma DisableStepKeeps(s: System, i: nat)
    requires SysInv(s) && i < |s.er|
    ensures SysInv(s.(host := BeginStop(s.host, i)))
  {
    BeginStopKeeps(s.host, i);
    SteadyKeeps(s, s.(host := BeginStop(s.host, i)));
  }

  /** Only channel `i` changes, and everything outstanding on it is returned. */
  lemma EndStopEffect(h: Host, i: nat)
    requires HostOk(h) && i < |h.chans| && h.chans[i].cmd.Stopping?
    ensures forall j :: 0 <= j < |h.chans| && j != i ==> EndStop(h, i).chans[j] == h.chans[j]
    ensures var c, c' := h.chans[i], EndStop(h, i).chans[i];
            && c'.accepted == c.accepted && c'.out == [] && c'.enabled == c.enabled
            && !c'.started && c'.cmd == NoCommand
            && c'.returned == c.returned + Results(c.out, |c.out|, NotConn, 0)
  {
    DrainVote(h, i, if h.chans[i].cmd.voted then -1 else 0);
    DrainEffect(h, i);
  }

  lemma ResetStepKeeps(s: System, i: nat)
    requires SysInv(s) && i < |s.er| && s.host.chans[i].cmd.Stopping?
    ensures SysInv(s.(rings := s.rings[s.er[i] := MarkStale(s.rings[s.er[i]], i)], host := EndStop(s.host, i)))
  {
    var s' := s.(rings := s.rings[s.er[i] := MarkStale(s.rings[s.er[i]], i)], host := EndStop(s.host, i));
    EndStopKeeps(s.host, i);
    EndStopEffect(s.host, i);
    forall j | 0 <= j < |s'.er| ensures PostedOk(s', j) { assert PostedOk(s, j); }
    forall k | 0 <= k < |s'.rings| ensures RingOk(s', k) {
      assert RingOk(s, k);
      forall m | 0 <= m < |s'.rings[k]| ensures EventOk(s', k, s'.rings[k][m]) {
        assert EventOk(s, k, s.rings[k][m]);
      }
      forall m, n | 0 <= m < n < |s'.rings[k]| ensures Before(s'.rings[k][m], s'.rings[k][n]) {
        assert Before(s.rings[k][m], s.rings[k][n]);
      }
    }
  }

  lemma ResetRingsKeeps(s: System)
    requires SysInv(s)
    ensures SysInv(s.(rings := seq(|s.rings|, _ => []), cleared := seq(|s.er|, _ => true)))
  {
    var s' := s.(rings := seq(|s.rings|, _ => []), cleared := seq(|s.er|, _ => true));
    forall j | 0 <= j < |s'.er| ensures PostedOk(s', j) { assert PostedOk(s, j); }
  }

  lemma DeviceKeeps(s: System, i: nat, pos: nat, code: Code, len: nat)
    requires SysInv(s) && i < |s.er| && s.host.chans[i].started && IsCompletion(code)
    requires s.host.chans[i].origin <= s.posted[i] <= pos < |s.host.chans[i].accepted|
    ensures SysInv(Post(s, i, XferEvent(i, code, PosPtr(s.host.chans[i], pos), len, pos))
                   .(posted := s.posted[i := pos + 1]))
  {
    assert PostedOk(s, i);
    PostKeeps(s, i, XferEvent(i, code, PosPtr(s.host.chans[i], pos), len, pos), pos + 1);
  }

  lemma DbPostKeeps(s: System, i: nat, code: Code)
    requires SysInv(s) && i < |s.er| && !IsCompletion(code)
    ensures SysInv(Post(s, i, XferEvent(i, code, 0, 0, 0)).(heard := StopWatching(s, i)))
  {
    assert PostedOk(s, i);
    PostKeeps(s, i, XferEvent(i, code, 0, 0, 0), s.posted[i]);
    assert s.posted[i := s.posted[i]] == s.posted;
    HeardKeeps(Post(s, i, XferEvent(i, code, 0, 0, 0)), StopWatching(s, i));
  }

  /** What the device has heard is history that the host never reads. */
  lemma HeardKeeps(s: System, heard: seq<nat>)
    requires SysInv(s) && |heard| == |s.er|
    ensures SysInv(s.(heard := heard))
  {
    var s' := s.(heard := heard);
    forall j | 0 <= j < |s'.er| ensures PostedOk(s', j) { assert PostedOk(s, j); }
    forall k | 0 <= k < |s'.rings| ensures RingOk(s', k) {
      assert RingOk(s, k);
      forall m | 0 <= m < |s'.rings[k]| ensures EventOk(s', k, s'.rings[k][m]) {
        assert EventOk(s, k, s.rings[k][m]);
      }
    }
  }

  lemma StepKeeps(s: System, step: Step, s': System)
    requires SysInv(s) && IsStep(s, step, s')
    ensures SysInv(s')
  {
    hide SysInv;
    match step
    case QueueStep(i, r) => QueueStepKeeps(s, i, r);
    case DeviceCompletes(i, pos, code, len) => DeviceKeeps(s, i, pos, code, len);
    case DevicePostsDb(i, code) => DbPostKeeps(s, i, code);
    case DevicePostsOther(k) => OtherKeeps(s, k);
    case DeviceForgets(i) => HeardKeeps(s, StopWatching(s, i));
    case ProcessEvent(k, client) => ProcessKeeps(s, k, client);
    case M0Event => M0StepKeeps(s);
    case PmRequest(want) => PowerStepKeeps(s, Try(s.host.pm, want));
    case PowerUp => PowerStepKeeps(s, Disable);
    case PanicDownload => PowerStepKeeps(s, LdErrFatal);
    case StartStep(i, ee, room) => StartStepKeeps(s, i, ee, room);
    case AnswerStep(i, answer) => AnswerStepKeeps(s, i, answer);
    case DisableStep(i) => DisableStepKeeps(s, i);
    case ResetStep(i) => ResetStepKeeps(s, i);
    case ResetEventRings => ResetRingsKeeps(s);
  }

  // ---------------------------------------------------------------------------
  // Runs

  ghost predicate Initial(s: System) {
    && Shape(s) && (s.host.pm == Disable || s.host.pm == Por) && s.host.pending == 0 && s.host.votes == 0
    && (forall i :: 0 <= i < |s.er| ==> Idle(s.host.chans[i]) && s.heard[i] == 0)
    && (forall k :: 0 <= k < |s.rings| ==> s.rings[k] == [])
  }

  predicate Idle(c: Chan) {
    !c.started && !c.enabled && c.cmd == NoCommand && c.out == []
    && c.accepted == [] && c.returned == [] && c.doorbells == []
  }

  ghost predicate Run(run: seq<System>) {
    && run != [] && Initial(run[0])
    && forall k :: 0 < k < |run| ==> Follows(run[k - 1], run[k])
  }

  /** Consecutive steps from some state on. */
  ghost predicate Path(path: seq<System>) {
    path != [] && forall k :: 0 < k < |path| ==> Follows(path[k - 1], path[k])
  }

  /** A path from the last state of a run continues the run. */
  lemma RunContinues(run: seq<System>, path: seq<System>)
    requires Run(run) && Path(path) && path[0] == run[|run| - 1]
    ensures Run(run + path[1..])
  {
    var all := run + path[1..];
    forall k | 0 < k < |all| ensures Follows(all[k - 1], all[k]) {
      if k >= |run| {
        assert all[k] == path[k - |run| + 1] && all[k - 1] == path[k - |run|];
        assert Follows(path[k - |run|], path[k - |run| + 1]);
      } else {
        assert Follows(run[k - 1], run[k]);
      }
    }
  }

  lemma PathCons(s: System, s': System, path: seq<System>)
    requires Follows(s, s') && Path(path) && path[0] == s'
    ensures Path([s] + path)
  {
    var all := [s] + path;
    forall k | 0 < k < |all| ensures Follows(all[k - 1], all[k]) {
      if k > 1 { assert Follows(path[k - 2], path[k - 1]); }
    }
  }

  ghost predicate Follows(s: System, s': System) { exists step :: IsStep(s, step, s') }

  lemma {:induction false} NoLoad(chans: seq<Chan>)
    requires forall i :: 0 <= i < |chans| ==> Idle(chans[i])
    ensures TotalLoad(chans) == 0 && Commands(chans) == 0
  {
    if chans != [] { NoLoad(chans[1..]); }
  }

  lemma InitialInv(s: System)
    requires Initial(s)
    ensures SysInv(s)
  {
    NoLoad(s.host.chans);
  }

  lemma {:induction false} RunKeeps(run: seq<System>, k: nat)
    requires Run(run) && k < |run|
    ensures SysInv(run[k])
  {
    hide SysInv, Follows, Initial;
    if k == 0 {
      InitialInv(run[0]);
    } else {
      RunKeeps(run, k - 1);
      FollowsKeeps(run[k - 1], run[k]);
    }
  }

  /** Safety of every reachable state: buffers come back exactly once and in queue order, no
      doorbell is lost, the pending count and the runtime vote match the rings, and the next
      event of every ring can be processed and means what the device meant. */
  lemma EveryRunIsSafe(run: seq<System>, k: nat)
    requires Run(run) && k < |run|
    ensures var h := run[k].host;
            && (forall i :: 0 <= i < |h.chans| ==> Fifo(h.chans[i]))
            && (forall i :: 0 <= i < |h.chans| ==> ChanOk(h.chans[i]) && DoorbellOk(h.pm, h.chans[i]))
            && h.pending == TotalLoad(h.chans)
            && h.votes == (if h.pending > 0 then 1 else 0) + Commands(h.chans)
    ensures Shape(run[k])
    ensures forall r :: 0 <= r < |run[k].rings| && run[k].rings[r] != [] ==>
              ReadyToProcess(run[k], r) && (IsReport(run[k].rings[r][0]) ==> PointsAtLog(run[k], run[k].rings[r][0]))
  {
    RunKeeps(run, k);
    forall r | 0 <= r < |run[k].rings| && run[k].rings[r] != []
      ensures ReadyToProcess(run[k], r) && (IsReport(run[k].rings[r][0]) ==> PointsAtLog(run[k], run[k].rings[r][0]))
    {
      HeadIsReady(run[k], r);
    }
  }

  /** What any step may do to a channel: its logs only grow, so what was returned stays returned
      and never comes back again, and in the middle of a stop nothing is returned. */
  ghost predicate ChanStep(c: Chan, c': Chan) {
    && c.accepted <= c'.accepted && c.returned <= c'.returned
    && (c.cmd.Stopping? && c'.cmd.Stopping? ==> c'.returned == c.returned)
  }

  lemma QueueChanStep(h: Host, i: nat, r: Request, j: nat)
    requires HostOk(h) && i < |h.chans| && j < |h.chans|
    ensures |Queue(h, i, r).chans| == |h.chans| && ChanStep(h.chans[j], Queue(h, i, r).chans[j])
  {
    assert ChanGrew(h.chans[j], Queue(h, i, r).chans[j]);
  }

  lemma CommandChanStep(h: Host, i: nat, ee: bool, room: bool, answer: Answer, j: nat)
    requires HostOk(h) && i < |h.chans| && j < |h.chans|
    ensures ChanStep(h.chans[j], BeginStart(h, i, ee, room).chans[j])
    ensures ChanStep(h.chans[j], EndStart(h, i, answer).chans[j])
    ensures ChanStep(h.chans[j], BeginStop(h, i).chans[j])
  {
  }

  lemma ResetChanStep(h: Host, i: nat, j: nat)
    requires HostOk(h) && i < |h.chans| && j < |h.chans| && h.chans[i].cmd.Stopping?
    ensures ChanStep(h.chans[j], EndStop(h, i).chans[j])
  {
    EndStopEffect(h, i);
  }

  lemma StepGrows(s: System, step: Step, s': System, i: nat)
    requires SysInv(s) && IsStep(s, step, s') && i < |s.er|
    ensures LogsExtend(s, s', i)
  {
    hide SysInv, MarkStale, Queue, BeginStart, EndStart, BeginStop, EndStop, Dispatch;
    match step
    case QueueStep(j, r) => QueueChanStep(s.host, j, r, i);
    case M0Event => M0Steady(s.host);
    case StartStep(j, ee, room) => CommandChanStep(s.host, j, ee, room, Confirmed, i);
    case AnswerStep(j, answer) => CommandChanStep(s.host, j, true, true, answer, i);
    case DisableStep(j) => CommandChanStep(s.host, j, true, true, Confirmed, i);
    case ProcessEvent(k, client) =>
      HandledEffect(s, k, client);
      assert AfterEvent(s.host.chans[i], s'.host.chans[i], s.rings[k][0], i);
    case ResetStep(j) => ResetChanStep(s.host, j, i);
    case _ =>
  }

  ghost predicate LogsExtend(s: System, s': System, i: nat) {
    && i < |s.host.chans| && i < |s'.host.chans| && s'.er == s.er
    && ChanStep(s.host.chans[i], s'.host.chans[i])
  }

  lemma FollowsKeeps(s: System, s': System)
    requires SysInv(s) && Follows(s, s')
    ensures SysInv(s')
    ensures forall i :: 0 <= i < |s.er| ==> LogsExtend(s, s', i)
  {
    hide SysInv, IsStep, LogsExtend;
    var step :| IsStep(s, step, s');
    StepKeeps(s, step, s');
    forall i | 0 <= i < |s.er| ensures LogsExtend(s, s', i) { StepGrows(s, step, s', i); }
  }

  lemma NextExtends(run: seq<System>, k: nat, i: nat)
    requires Run(run) && 0 < k < |run| && i < |run[k - 1].host.chans|
    ensures LogsExtend(run[k - 1], run[k], i)
  {
    hide IsStep, Follows, LogsExtend, Initial;
    RunKeeps(run, k - 1);
    FollowsKeeps(run[k - 1], run[k]);
  }

  /** Between any two states of a run the logs only grow. */
  lemma {:induction false} LogsGrow(run: seq<System>, j: nat, k: nat, i: nat)
    requires Run(run) && j <= k < |run| && i < |run[j].host.chans|
    ensures i < |run[k].host.chans|
    ensures run[j].host.chans[i].accepted <= run[k].host.chans[i].accepted
    ensures run[j].host.chans[i].returned <= run[k].host.chans[i].returned
    decreases k - j
  {
    hide Run;
    if j < k {
      LogsGrow(run, j, k - 1, i);
      NextExtends(run, k, i);
      PrefixTrans(run[j].host.chans[i].accepted, run[k - 1].host.chans[i].accepted, run[k].host.chans[i].accepted);
      PrefixTrans(run[j].host.chans[i].returned, run[k - 1].host.chans[i].returned, run[k].host.chans[i].returned);
    }
  }

  lemma PrefixTrans<T>(a: seq<T>, b: seq<T>, c: seq<T>)
    requires a <= b <= c
    ensures a <= c
  {
  }

  /** Resetting a channel leaves no report on it pending, however many were posted while the stop
      was waited for, so nothing posted before can complete a buffer queued after a restart; and
      everything that was still outstanding has been handed back with -ENOTCONN. */
  lemma NoReportSurvivesStop(run: seq<System>, k: nat, i: nat)
    requires Run(run) && 0 < k < |run| && i < |run[k - 1].er|
    requires IsStep(run[k - 1], ResetStep(i), run[k])
    ensures forall r, m :: 0 <= r < |run[k].rings| && 0 <= m < |run[k].rings[r]| ==>
              !(IsReport(run[k].rings[r][m]) && run[k].rings[r][m].chan == i)
    ensures Shape(run[k]) && run[k].host.chans[i].out == []
    ensures var c := run[k - 1].host.chans[i];
            run[k].host.chans[i].returned == c.returned + Results(c.out, |c.out|, NotConn, 0)
  {
    RunKeeps(run, k);
    EndStopEffect(run[k - 1].host, i);
    forall r, m | 0 <= r < |run[k].rings| && 0 <= m < |run[k].rings[r]|
      ensures !(IsReport(run[k].rings[r][m]) && run[k].rings[r][m].chan == i)
    {
      assert RingOk(run[k], r) && EventOk(run[k], r, run[k].rings[r][m]);
    }
  }

  /** While the answer to the reset command is awaited, events of the channel are consumed and
      clients may queue, but no buffer of the channel is returned. */
  lemma {:induction false} NothingReturnedWhileStopping(run: seq<System>, j: nat, k: nat, i: nat)
    requires Run(run) && j <= k < |run|
    requires forall m :: j <= m <= k ==> IsStopping(run[m], i)
    ensures IsStopping(run[j], i) && IsStopping(run[k], i)
    ensures run[k].host.chans[i].returned == run[j].host.chans[i].returned
    decreases k - j
  {
    hide Run;
    if j < k {
      NothingReturnedWhileStopping(run, j, k - 1, i);
      StoppingNext(run, k, i);
    }
  }

  lemma StoppingNext(run: seq<System>, k: nat, i: nat)
    requires Run(run) && 0 < k < |run| && IsStopping(run[k - 1], i) && IsStopping(run[k], i)
    ensures run[k].host.chans[i].returned == run[k - 1].host.chans[i].returned
  {
    hide Run;
    NextExtends(run, k, i);
  }

  predicate IsStopping(s: System, i: nat) {
    i < |s.host.chans| && s.host.chans[i].cmd.Stopping?
  }

  // ---------------------------------------------------------------------------
  // The power state along a run of the whole system

  /** A refused request leaves the state as it is. */
  lemma StaysPut(pm: Pm)
    ensures Move(pm, pm)
  {
    assert pm == Try(pm, M3) || pm == Try(pm, M2);
  }

  lemma PmMoves(s: System, step: Step, s': System)
    requires SysInv(s) && IsStep(s, step, s')
    ensures Move(s.host.pm, s'.host.pm)
  {
    hide SysInv;
    StaysPut(s.host.pm);
    match step
    case M0Event => assert s'.host.pm == Try(s.host.pm, M0);
    case PmRequest(want) => assert s'.host.pm == Try(s.host.pm, want);
    case _ =>
  }

  ghost function PmOf(run: seq<System>): (r: seq<Pm>)
    ensures |r| == |run|
  {
    seq(|run|, k requires 0 <= k < |run| => run[k].host.pm)
  }

  /** The power states of a run of the system are a run of the power state machine. */
  lemma PmRun(run: seq<System>)
    requires Run(run)
    ensures Power.Run(PmOf(run))
  {
    forall k | 0 < k < |run| ensures Move(PmOf(run)[k - 1], PmOf(run)[k]) {
      RunKeeps(run, k - 1);
      assert Follows(run[k - 1], run[k]);
      var step :| IsStep(run[k - 1], step, run[k]);
      PmMoves(run[k - 1], step, run[k]);
    }
  }

  /** So whatever else happens, doorbells are legal again after an error only once the host has
      gone through POR. */
  lemma RecoveryPassesPor(run: seq<System>, i: nat, j: nat)
    requires Run(run) && i <= j < |run| && InError(run[i].host.pm) && DbValid(run[j].host.pm)
    ensures exists k :: i < k < j && run[k].host.pm == Por
  {
    PmRun(run);
    ErrorToM0PassesPor(PmOf(run), i, j);
    var k :| i < k < j && PmOf(run)[k] == Por;
    assert run[k].host.pm == Por;
  }
}
