/** What the operations of the MHI host achieve: which calls are accepted, what a report hands to
    the client, when a channel is enabled and which events move the power state. */
module HostOutcomes {
  import opened PowerStates
  import opened HostSpec
  import opened HostLaws
  import Runs = HostRuns
  import opened HostRuns

  // ---------------------------------------------------------------------------
  // Queue calls

  /** A buffer is accepted exactly when there is a free element, the host is not in an error state
      and the buffer is mapped, by the client or now. The refusals differ in what they look at
      first: on a full ring in an error state only mhi_queue_buf says -EIO. */
  lemma AcceptedIff(h: Host, i: nat, r: Request)
    requires HostOk(h) && i < |h.chans|
    ensures var c, ret := h.chans[i], QueueReturn(h, i, r);
            && (ret == Queued <==>
                  |c.out| < c.cfg.elements - 1 && !InError(h.pm) && (r.kind == DmaQueue || r.mapping.Mapped?))
            && (ret.MapError? ==> r.mapping == MapFailed(ret.error))
            && (|c.out| + 1 == c.cfg.elements && InError(h.pm) ==> ret == if r.kind == BufQueue then Io else NoMem)
            && (|c.out| + 1 == c.cfg.elements && !InError(h.pm) ==> ret == NoMem)
            && (|c.out| + 1 < c.cfg.elements && InError(h.pm) ==> ret == Io)
  {
  }

  /** An accepted buffer is the newest outstanding one and nothing else changes on any channel but
      the doorbell state; a refused call changes nothing. */
  lemma QueueEffect(h: Host, i: nat, r: Request)
    requires HostOk(h) && i < |h.chans|
    ensures var h', ok := Queue(h, i, r), QueueReturn(h, i, r) == Queued;
            && (!ok ==> h' == h)
            && (ok ==> h'.chans[i].accepted == h.chans[i].accepted + [r.buf]
                       && h'.chans[i].out == h.chans[i].out + [MakeItem(h.chans[i].cfg, r)])
            && forall j :: 0 <= j < |h.chans| && j != i ==> h'.chans[j] == h.chans[j]
  {
  }

  /** The queue calls of a callback take effect one after the other. */
  lemma {:induction false} QueueAllInOrder(h: Host, a: seq<Call>, b: seq<Call>)
    requires HostOk(h) && forall k :: 0 <= k < |a + b| ==> (a + b)[k].chan < |h.chans|
    ensures forall k :: 0 <= k < |a| ==> a[k].chan < |h.chans|
    ensures forall k :: 0 <= k < |b| ==> b[k].chan < |h.chans|
    ensures QueueAll(h, a + b) == QueueAll(QueueAll(h, a), b)
    decreases |a|
  {
    forall k | 0 <= k < |a| ensures a[k].chan < |h.chans| { assert (a + b)[k] == a[k]; }
    forall k | 0 <= k < |b| ensures b[k].chan < |h.chans| { assert (a + b)[|a| + k] == b[k]; }
    if a == [] {
      assert a + b == b;
    } else {
      assert (a + b)[0] == a[0] && (a + b)[1..] == a[1..] + b;
      QueueAllInOrder(Queue(h, a[0].chan, a[0].req), a[1..], b);
    }
  }

  // ---------------------------------------------------------------------------
  // Error states

  lemma {:induction false} QueueAllRefused(h: Host, calls: seq<Call>)
    requires HostOk(h) && InError(h.pm) && forall k :: 0 <= k < |calls| ==> calls[k].chan < |h.chans|
    ensures QueueAll(h, calls) == h
    decreases |calls|
  {
    if calls != [] {
      AcceptedIff(h, calls[0].chan, calls[0].req);
      QueueAllRefused(h, calls[1..]);
    }
  }

  /** The buffers taken from clients, channel by channel. */
  ghost predicate SameAccepted(h: Host, h': Host) {
    |h'.chans| == |h.chans| && forall j :: 0 <= j < |h.chans| ==> h'.chans[j].accepted == h.chans[j].accepted
  }

  lemma CompleteOneAcceptsNone(h: Host, i: nat, status: Status, bytes: nat, client: Client)
    requires HostOk(h) && i < |h.chans| && h.chans[i].out != [] && ClientOk(h, client) && InError(h.pm)
    ensures SameAccepted(h, CompleteOne(h, i, status, bytes, client))
  {
    var h1 := Set(h, i, Pop(h.chans[i], status, bytes));
    QueueAllRefused(h1, client(i, |h1.chans[i].returned|));
  }

  lemma {:induction false} CompleteAcceptsNone(h: Host, i: nat, count: nat, status: Status, bytes: nat, client: Client)
    requires HostOk(h) && i < |h.chans| && count <= |h.chans[i].out| && ClientOk(h, client) && InError(h.pm)
    ensures SameAccepted(h, Complete(h, i, count, status, bytes, client))
    decreases count
  {
    hide CompleteOne, ClientOk;
    if count > 0 {
      CompleteOneAcceptsNone(h, i, status, bytes, client);
      CompleteAcceptsNone(CompleteOne(h, i, status, bytes, client), i, count - 1, status, bytes, client);
    }
  }

  lemma EventAcceptsNone(h: Host, e: Event, client: Client)
    requires HostOk(h) && ClientOk(h, client) && Ready(h, e) && InError(h.pm)
    ensures SameAccepted(h, Dispatch(h, e, client))
  {
    hide Complete, CompleteOne;
    if e.XferEvent? && h.chans[e.chan].enabled && IsCompletion(e.code) {
      var count := CompletionCount(h.chans[e.chan], e.ptr);
      CompleteAcceptsNone(h, e.chan, count, StatusOf(e.code), e.len % 0x10000, client);
    }
  }

  lemma CommandAcceptsNone(h: Host, i: nat, ee: bool, room: bool, answer: Answer)
    requires HostOk(h) && i < |h.chans|
    ensures SameAccepted(h, BeginStart(h, i, ee, room)) && SameAccepted(h, EndStart(h, i, answer))
    ensures SameAccepted(h, BeginStop(h, i)) && SameAccepted(h, EndStop(h, i))
  {
    if h.chans[i].cmd.Stopping? { EndStopEffect(h, i); }
  }

  /** Whatever happens, while the host is in an error state no buffer is taken from a client. */
  lemma NothingAcceptedInError(run: seq<System>, k: nat)
    requires Runs.Run(run) && 0 < k < |run| && InError(run[k - 1].host.pm)
    ensures SameAccepted(run[k - 1].host, run[k].host)
  {
    hide SysInv, IsStep, Initial;
    RunKeeps(run, k - 1);
    assert Follows(run[k - 1], run[k]);
    var step :| IsStep(run[k - 1], step, run[k]);
    StepAcceptsNone(run[k - 1], step, run[k]);
  }

  lemma StepAcceptsNone(s: System, step: Step, s': System)
    requires IsStep(s, step, s') && InError(s.host.pm)
    ensures SameAccepted(s.host, s'.host)
  {
    hide MarkStale, BeginStart, EndStart, BeginStop, EndStop, Xfer;
    match step
    case QueueStep(i, r) => AcceptedIff(s.host, i, r);
    case ProcessEvent(k, client) => EventAcceptsNone(s.host, s.rings[k][0], client);
    case M0Event => M0Steady(s.host);
    case StartStep(i, ee, room) => CommandAcceptsNone(s.host, i, ee, room, Confirmed);
    case AnswerStep(i, answer) => CommandAcceptsNone(s.host, i, true, true, answer);
    case DisableStep(i) => CommandAcceptsNone(s.host, i, true, true, Confirmed);
    case ResetStep(i) => CommandAcceptsNone(s.host, i, true, true, Confirmed);
    case _ =>
  }

  // ---------------------------------------------------------------------------
  // Reports

  /** In every reachable state the report at the head of a ring hands the client of an enabled
      channel exactly the buffers up to the one the device meant, in queue order. Each comes with the
      length of the event, in its sixteen bits, and with -EOVERFLOW exactly if the device reports
      that; no other channel gets anything back. */
  lemma ReportDelivers(run: seq<System>, k: nat, r: nat, client: Client)
    requires Runs.Run(run) && k < |run| && r < |run[k].rings| && run[k].rings[r] != []
    requires ClientOk(run[k].host, client) && IsReport(run[k].rings[r][0])
    ensures Shape(run[k]) && ReadyToProcess(run[k], r)
    ensures var e, s' := run[k].rings[r][0], Handled(run[k], r, client);
            && |s'.host.chans| == |run[k].host.chans|
            && forall j :: 0 <= j < |run[k].host.chans| ==>
                 var c, c' := run[k].host.chans[j], s'.host.chans[j];
                 if j != e.chan || !c.enabled then c'.returned == c.returned
                 else && |c.returned| <= e.pos < |c.returned| + |c.out|
                      && c'.returned == c.returned +
                           Results(c.out, e.pos + 1 - |c.returned|,
                                   if e.code == OverflowCode then Overflow else Success, e.len % 0x10000)
  {
    hide SysInv, IsStep, Initial, Dispatch;
    RunKeeps(run, k);
    HeadIsReady(run[k], r);
    ShapeHolds(run[k]);
    HandledEffect(run[k], r, client);
    var e, s' := run[k].rings[r][0], Handled(run[k], r, client);
    assert forall j :: 0 <= j < |run[k].host.chans| ==> AfterEvent(run[k].host.chans[j], s'.host.chans[j], e, j);
  }

  lemma ShapeHolds(s: System)
    requires SysInv(s)
    ensures Shape(s)
  {
  }

  // ---------------------------------------------------------------------------
  // Starting and stopping

  /** A start is sent exactly when the execution environment allows it, the channel is not enabled
      already, its rings could be allocated and the host is not in an error state. */
  lemma StartSentIff(h: Host, i: nat, ee: bool, room: bool)
    requires HostOk(h) && i < |h.chans| && !h.chans[i].cmd.Starting?
    ensures var h' := BeginStart(h, i, ee, room);
            && (h'.chans[i].cmd.Starting? <==> ee && room && !h.chans[i].enabled && !InError(h.pm))
            && h'.votes == h.votes + (if h'.chans[i].cmd.Starting? then 1 else 0)
            && (h'.chans[i].cmd.Starting? ==> ChanOk(h'.chans[i]) && h'.chans[i].out == []
                                              && h'.chans[i].ctxtWp == Phys(h'.chans[i].cfg, WpSlot(h'.chans[i])))
            && forall j :: 0 <= j < |h.chans| && j != i ==> h'.chans[j] == h.chans[j]
  {
  }

  /** In any run a channel becomes enabled by a confirmed start and by nothing else. */
  lemma EnabledByAnswer(s: System, step: Step, s': System, i: nat)
    requires SysInv(s) && IsStep(s, step, s') && i < |s.er| && !s.host.chans[i].enabled
    ensures i < |s'.host.chans| && (s'.host.chans[i].enabled <==> step == AnswerStep(i, Confirmed))
    ensures s'.host.chans[i].enabled ==> s'.host.chans[i].started && s'.host.chans[i].cmd == NoCommand
  {
    hide SysInv, MarkStale, Queue, Dispatch;
    match step
    case QueueStep(j, r) => assert ChanGrew(s.host.chans[i], s'.host.chans[i]);
    case ProcessEvent(k, client) =>
      HandledEffect(s, k, client);
      assert AfterEvent(s.host.chans[i], s'.host.chans[i], s.rings[k][0], i);
    case ResetStep(j) => EndStopEffect(s.host, j);
    case _ =>
  }

  /** A stop disables the channel at once; a command with a vote goes out exactly when the host is not
      in an error state. */
  lemma StopSentIff(h: Host, i: nat)
    requires HostOk(h) && i < |h.chans| && h.chans[i].enabled
    ensures var h' := BeginStop(h, i);
            && !h'.chans[i].enabled && h'.chans[i].out == h.chans[i].out && h'.chans[i].returned == h.chans[i].returned
            && h'.chans[i].cmd.Stopping? && (h'.chans[i].cmd.voted <==> !InError(h.pm))
            && h'.votes == h.votes + (if InError(h.pm) then 0 else 1)
  {
  }
}
