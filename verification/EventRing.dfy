/** Event rings (mhi_main.c, mhi_pm.c): the device writes, the host consumes.

    The ring is armed by handing all slots but one to the device; the write pointer then
    always trails the read pointer by exactly one slot. */
module EventRings {
  import opened Rings
  import opened PowerStates
  import opened HostSpec
  import opened HostLaws
  import opened HostRuns
  import opened HostImpl

  const TX_EVENT: nat := 0x22
  const STALE_EVENT: nat := 0x49

  // MHI_TRE_GET_EV_TYPE, MHI_TRE_GET_EV_CHID, MHI_TRE_GET_EV_CODE, MHI_TRE_GET_EV_LEN
  function EvType(t: Tre): nat { (t.dword1 / 0x10000) % 0x100 }
  function EvChan(t: Tre): nat { (t.dword1 / 0x1000000) % 0x100 }
  function EvCode(t: Tre): nat { (t.dword0 / 0x1000000) % 0x100 }
  function EvLen(t: Tre): nat { t.dword0 % 0x10000 }

  /** MHI_TRE_EV_DWORD1 */
  function EvDword1(chan: nat, ty: nat): nat { chan * 0x1000000 + ty * 0x10000 }

  function CodeOf(c: nat): Code {
    match c
    case 2 => EotCode case 3 => OverflowCode case 4 => EobCode
    case 5 => OobCode case 6 => DbModeCode case _ => OtherCode
  }

  /** What the host makes of a ring element. */
  function Decode(t: Tre): Event {
    if EvType(t) == TX_EVENT then XferEvent(EvChan(t), CodeOf(EvCode(t)), t.ptr, EvLen(t), 0)
    else if EvType(t) == STALE_EVENT then StaleEvent(EvChan(t))
    else OtherEvent
  }

  /** A transfer event as the device writes it. */
  function Written(chan: nat, code: nat, ptr: nat, len: nat): Tre {
    Tre(ptr, code * 0x1000000 + len, chan * 0x1000000 + 0x220000)
  }

  /** What the device writes is what the host reads. */
  lemma EventOnWire(chan: nat, code: nat, ptr: nat, len: nat)
    requires chan < 0x100 && code < 0x100 && len < 0x10000
    ensures Decode(Written(chan, code, ptr, len)) == XferEvent(chan, CodeOf(code), ptr, len, 0)
  {
  }

  /** What a transfer event written by the device does to an enabled channel, by its completion code.
      EOT (2) and EOB (4) hand buffers back as complete, OVERFLOW (3) with that error; OOB (5) and
      DB_MODE (6) hand back nothing and make a doorbell due, which is written if there is work and
      doorbells are legal; any other code is ignored. */
  lemma CodeDoes(h: Host, i: nat, code: nat, ptr: nat, len: nat, client: Client)
    requires HostOk(h) && ClientOk(h, client) && i < |h.chans| && i < 0x100 && h.chans[i].enabled
    requires code < 0x100 && len < 0x10000 && Ready(h, Decode(Written(i, code, ptr, len)))
    ensures var h' := Dispatch(h, Decode(Written(i, code, ptr, len)), client);
            && |h'.chans| == |h.chans|
            && var c, c' := h.chans[i], h'.chans[i];
               && (code == 2 || code == 3 || code == 4 ==>
                     && NamesOutstanding(c, ptr)
                     && c'.returned == c.returned + Results(c.out, CompletionCount(c, ptr),
                                                            if code == 3 then Overflow else Success, len))
               && (code == 5 || code == 6 ==>
                     && c'.returned == c.returned && c'.out == c.out
                     && (c.out == [] || h.pm != M0 ==> c' == c.(dbMode := true))
                     && (c.out != [] && h.pm == M0 ==> |c'.doorbells| == |c.doorbells| + 1))
               && (code < 2 || code > 6 ==> h' == h)
  {
    hide Complete, CompleteOne;
    EventOnWire(i, code, ptr, len);
    if IsCompletion(CodeOf(code)) {
      CompleteEffect(h, i, CompletionCount(h.chans[i], ptr), StatusOf(CodeOf(code)), len, client);
    }
  }

  function DecodeAll(ts: seq<Tre>): (es: seq<Event>)
    ensures |es| == |ts|
    ensures forall k :: 0 <= k < |ts| ==> es[k] == Decode(ts[k])
  {
    seq(|ts|, k requires 0 <= k < |ts| => Decode(ts[k]))
  }

  /** The rewrite mhi_mark_stale_events applies to one element. */
  function Marked(t: Tre, chan: nat): Tre {
    if EvType(t) == TX_EVENT && EvChan(t) == chan then t.(dword1 := EvDword1(chan, STALE_EVENT)) else t
  }

  lemma MarkedDecodes(t: Tre, chan: nat)
    requires chan < 0x100
    ensures Decode(Marked(t, chan)) ==
            if Decode(t).XferEvent? && Decode(t).chan == chan then StaleEvent(chan) else Decode(t)
  {
  }

  // ---------------------------------------------------------------------------
  // Processing a batch of events

  /** How many of the pending events one call consumes: it stops when the quota of transfer
      events is used up. */
  function Taken(evs: seq<Event>, quota: nat): (n: nat)
    ensures n <= |evs|
  {
    if evs == [] || quota == 0 then 0
    else 1 + Taken(evs[1..], if evs[0].XferEvent? then quota - 1 else quota)
  }

  function Transfers(evs: seq<Event>): nat {
    if evs == [] then 0 else (if evs[0].XferEvent? then 1 else 0) + Transfers(evs[1..])
  }

  /** A call dispatches at most `quota` transfer events, and it stops short of the end only
      when it dispatched exactly that many. */
  lemma {:induction false} TakenBounds(evs: seq<Event>, quota: nat)
    ensures Transfers(evs[..Taken(evs, quota)]) <= quota
    ensures Taken(evs, quota) < |evs| ==> Transfers(evs[..Taken(evs, quota)]) == quota
  {
    if evs != [] && quota > 0 {
      var q := if evs[0].XferEvent? then quota - 1 else quota;
      TakenBounds(evs[1..], q);
      assert evs[..Taken(evs, quota)][1..] == evs[1..][..Taken(evs[1..], q)];
    }
  }

  /** Each event, when its turn comes, names something outstanding. */
  ghost predicate AllReady(h: Host, evs: seq<Event>, client: Client)
    requires HostOk(h)
    decreases |evs|
  {
    evs != [] ==> Ready(h, evs[0]) && ClientOk(h, client) && HostOk(Dispatch(h, evs[0], client))
                  && AllReady(Dispatch(h, evs[0], client), evs[1..], client)
  }

  /** The host after the events were dispatched in order. */
  ghost function DispatchAll(h: Host, evs: seq<Event>, client: Client): Host
    requires HostOk(h) && AllReady(h, evs, client)
    decreases |evs|
  {
    if evs == [] then h else DispatchAll(Dispatch(h, evs[0], client), evs[1..], client)
  }

  // ---------------------------------------------------------------------------
  // The ring in memory

  class EventRing {
    const ring: Ring<Tre>
    var ctxtWp: nat

    constructor (r: Ring<Tre>)
      ensures ring == r
    {
      ring, ctxtWp := r, r.iommuBase;
    }

    ghost predicate Valid()
      reads this, ring
    {
      ring.Valid() && ring.elSize == TRE_SIZE
    }

    /** The write pointer is one slot behind the read pointer and the device knows it. */
    ghost predicate Armed()
      requires Valid()
      reads this, ring
    {
      && ring.ri == Wrap(ring.wi + 1, ring.elements)
      && ctxtWp == ring.iommuBase + ring.wi * TRE_SIZE
    }

    /** Events the device has written and the host has not consumed, when the device's read
        pointer stands at slot `dev`. */
    ghost function Pending(dev: nat): (s: seq<Tre>)
      requires Valid() && dev < ring.elements
      reads this, ring, ring.mem
      ensures |s| == Distance(ring.ri, dev, ring.elements)
    {
      Window(ring.mem[..], ring.ri, Distance(ring.ri, dev, ring.elements))
    }

    lemma PendingTail(dev: nat)
      requires Valid() && dev < ring.elements && ring.ri != dev
      ensures var next := Wrap(ring.ri + 1, ring.elements);
              Pending(dev)[1..] == Window(ring.mem[..], next, Distance(next, dev, ring.elements))
    {
      DistanceStep(ring.ri, dev, ring.elements);
      WindowTail(ring.mem[..], ring.ri, Distance(ring.ri, dev, ring.elements));
    }

    /** mhi_ready_state_transition and mhi_pm_mission_mode_transition: hand the slots over. */
    method Arm()
      requires Valid() && ring.rp == ring.base
      modifies this, ring
      ensures Valid() && Armed() && ring.ri == old(ring.ri)
    {
      ring.SameSlot(ring.ri, 0);
      var n := ring.elements;
      assert (n - 1) * TRE_SIZE == n * TRE_SIZE - TRE_SIZE;
      ring.wp := ring.base + ring.elSize * n - ring.elSize;
      ring.wi := n - 1;
      ctxtWp := ring.iommuBase + ring.elSize * n - ring.elSize;
    }

    /** mhi_recycle_ev_ring_element */
    method Recycle(ghost dev: nat)
      requires Valid() && Armed() && dev < ring.elements && ring.ri != dev
      modifies this, ring
      ensures Valid() && Armed() && ring.ri == Wrap(old(ring.ri) + 1, ring.elements)
      ensures Pending(dev) == old(Pending(dev))[1..]
    {
      PendingTail(dev);
      ring.wp := ring.Next(ring.wp, ring.wi);
      ring.wi := Wrap(ring.wi + 1, ring.elements);
      ctxtWp := ring.iommuBase + (ring.wp - ring.base);
      ring.rp := ring.Next(ring.rp, ring.ri);
      ring.ri := Wrap(ring.ri + 1, ring.elements);
    }

    method AtDev(devRp: nat, ghost dev: nat) returns (b: bool)
      requires Valid() && dev < ring.elements && devRp == ring.base + dev * TRE_SIZE
      ensures b <==> Pending(dev) == []
    {
      ring.SameSlot(dev, ring.ri);
      b := devRp == ring.rp;
    }

    method RecycleAndCheck(devRp: nat, ghost dev: nat) returns (done: bool)
      requires Valid() && Armed() && dev < ring.elements && devRp == ring.base + dev * TRE_SIZE && Pending(dev) != []
      modifies this, ring
      ensures Valid() && Armed() && Pending(dev) == old(Pending(dev))[1..]
      ensures done <==> Pending(dev) == []
    {
      Recycle(dev);
      done := AtDev(devRp, dev);
    }

    /** mhi_mark_stale_events: walk from the read pointer to the device's, across the wrap,
        and rewrite in place exactly the transfer events of channel `chan`. */
    method MarkStaleEvents(devRp: nat, ghost dev: nat, chan: nat)
      requires Valid() && dev < ring.elements && devRp == ring.base + dev * TRE_SIZE
      modifies ring.mem
      ensures Valid()
      ensures forall j :: 0 <= j < ring.elements ==>
        ring.mem[j] == if Distance(ring.ri, j, ring.elements) < Distance(ring.ri, dev, ring.elements)
                       then Marked(old(ring.mem[j]), chan) else old(ring.mem[j])
    {
      ghost var n, total := ring.elements, Distance(ring.ri, dev, ring.elements);
      var localRp := ring.rp;
      ghost var at, k := ring.ri, 0;
      ring.SameSlot(dev, at);
      while devRp != localRp
        invariant 0 <= k <= total && at == Wrap(ring.ri + k, n)
        invariant localRp == ring.base + at * TRE_SIZE
        invariant devRp == localRp <==> dev == at
        invariant forall j :: 0 <= j < n ==>
          ring.mem[j] == if Distance(ring.ri, j, n) < k then Marked(old(ring.mem[j]), chan) else old(ring.mem[j])
        decreases total - k
      {
        DistanceUnique(ring.ri, k, n);
        var slot := ring.SlotOf(localRp, at);
        MarkSlot(slot, chan);
        localRp := ring.Next(localRp, at);
        at, k := Wrap(at + 1, n), k + 1;
        ring.SameSlot(dev, at);
      }
    }

    /** Seen as events, the pending part of the ring is rewritten as the joint runs say. */
    method MarkPending(devRp: nat, ghost dev: nat, chan: nat)
      requires Valid() && dev < ring.elements && devRp == ring.base + dev * TRE_SIZE && chan < 0x100
      modifies ring.mem
      ensures Valid() && DecodeAll(Pending(dev)) == MarkStale(DecodeAll(old(Pending(dev))), chan)
    {
      ghost var before := Pending(dev);
      MarkStaleEvents(devRp, dev, chan);
      forall k | 0 <= k < |before| ensures Pending(dev)[k] == Marked(before[k], chan) {
        DistanceUnique(ring.ri, k, ring.elements);
      }
      forall k | 0 <= k < |before|
        ensures DecodeAll(Pending(dev))[k] == MarkStale(DecodeAll(before), chan)[k]
      {
        MarkedDecodes(before[k], chan);
      }
    }

    /** The end of __mhi_unprepare_channel with mhi_reset_chan: in memory, the reset step of the
        joint runs. */
    method ResetChannel(c: Controller, i: nat, devRp: nat, ghost dev: nat, answer: Answer)
      requires Valid() && dev < ring.elements && devRp == ring.base + dev * TRE_SIZE
      requires c.Valid() && Apart(c) && i < |c.chans| && i < 0x100 && c.chans[i].cmd.Stopping?
      modifies ring.mem, c, c.foot
      ensures Valid() && c.Valid() && c.Abs() == EndStop(old(c.Abs()), i)
      ensures DecodeAll(Pending(dev)) == MarkStale(DecodeAll(old(Pending(dev))), i)
    {
      MarkPending(devRp, dev, i);
      c.EndStopping(i, answer);
    }

    method MarkSlot(slot: nat, chan: nat)
      requires slot < ring.mem.Length
      modifies ring.mem
      ensures ring.mem[slot] == Marked(old(ring.mem[slot]), chan)
      ensures forall j :: 0 <= j < ring.mem.Length && j != slot ==> ring.mem[j] == old(ring.mem[j])
    {
      var t := ring.mem[slot];
      if EvType(t) == TX_EVENT && chan == EvChan(t) {
        ring.mem[slot] := t.(dword1 := EvDword1(chan, STALE_EVENT));
      }
    }

    ghost predicate Apart(c: Controller) {
      c.foot + {c} !! {this, ring, ring.mem}
    }

    /** The element under the read pointer. */
    method Head(ghost dev: nat) returns (t: Tre)
      requires Valid() && dev < ring.elements && Pending(dev) != []
      ensures t == Pending(dev)[0]
    {
      var slot := ring.SlotOf(ring.rp, ring.ri);
      t := ring.mem[slot];
    }

    /** One turn of the data event loop: dispatch the head event, then give its slot back. */
    method TakeOne(c: Controller, devRp: nat, ghost dev: nat, client: Client) returns (isTransfer: bool, done: bool)
      requires Valid() && Armed() && dev < ring.elements && devRp == ring.base + dev * TRE_SIZE && Pending(dev) != []
      requires c.Valid() && Apart(c) && ClientOk(c.Abs(), client) && Ready(c.Abs(), Decode(Pending(dev)[0]))
      modifies this, ring, c, c.foot
      ensures Valid() && Armed() && c.Valid()
      ensures Pending(dev) == old(Pending(dev))[1..]
      ensures c.Abs() == Dispatch(old(c.Abs()), Decode(old(Pending(dev))[0]), client)
      ensures isTransfer == Decode(old(Pending(dev))[0]).XferEvent? && done == (Pending(dev) == [])
    {
      var t := Head(dev);
      isTransfer := DispatchElement(c, t, client);
      done := RecycleAndCheck(devRp, dev);
    }

    method DataLoop(c: Controller, devRp: nat, ghost dev: nat, quota: nat, client: Client) returns (count: nat)
      requires Valid() && Armed() && dev < ring.elements && devRp == ring.base + dev * TRE_SIZE
      requires c.Valid() && Apart(c)
      requires AllReady(c.Abs(), DecodeAll(Pending(dev)), client)
      modifies this, ring, c, c.foot
      ensures Valid() && Armed() && c.Valid()
      ensures count == Taken(DecodeAll(old(Pending(dev))), quota) && Pending(dev) == old(Pending(dev))[count..]
      ensures Outcome(old(c.Abs()), DecodeAll(old(Pending(dev)))[..count], client, c.Abs())
    {
      hide *;
      ghost var pend := Pending(dev);
      ghost var evs, h0, h := DecodeAll(pend), c.Abs(), c.Abs();
      ProgressStart(evs, h0, quota, client);
      var left := quota;
      count := 0;
      var done := AtDev(devRp, dev);
      while !done && left > 0
        invariant Valid() && Armed() && c.Valid() && h == c.Abs()
        invariant done <==> Pending(dev) == []
        invariant count <= |pend| && Pending(dev) == pend[count..]
        invariant Progress(evs, h0, h, count, left, quota, client)
        decreases |pend| - count
      {
        assert Pending(dev)[0] == pend[count] && evs[count] == Decode(pend[count]);
        ProgressStep(evs, h0, h, count, left, quota, client);
        h := Dispatch(h, evs[count], client);
        var isTransfer;
        isTransfer, done := TakeOne(c, devRp, dev, client);
        left := if isTransfer then left - 1 else left;
        count := count + 1;
      }
      ProgressEnd(evs, h0, h, count, left, quota, client);
    }

    /** mhi_process_data_event_ring while the device is quiet, with its read pointer at `devRp`.
        The result is the number of elements given back, or -EIO when events are out of reach. */
    method ProcessData(c: Controller, devRp: nat, ghost dev: nat, quota: nat, client: Client) returns (count: int)
      requires Valid() && Armed() && dev < ring.elements && devRp == ring.base + dev * TRE_SIZE
      requires c.Valid() && Apart(c)
      requires AllReady(c.Abs(), DecodeAll(Pending(dev)), client)
      modifies this, ring, c, c.foot
      ensures Valid() && Armed() && c.Valid()
      ensures if old(c.pm == Disable || InError(c.pm))
              then count == -EIO && c.Abs() == old(c.Abs()) && Pending(dev) == old(Pending(dev))
              else && count == Taken(DecodeAll(old(Pending(dev))), quota)
                   && Pending(dev) == old(Pending(dev))[count..]
                   && Outcome(old(c.Abs()), DecodeAll(old(Pending(dev)))[..count], client, c.Abs())
    {
      if c.pm == Disable || InError(c.pm) { return -EIO; }
      count := DataLoop(c, devRp, dev, quota, client);
    }
  }

  /** Dispatching `evs` in order takes the host from `h` to `h'`. */
  ghost predicate Outcome(h: Host, evs: seq<Event>, client: Client, h': Host) {
    HostOk(h) && AllReady(h, evs, client) && h' == DispatchAll(h, evs, client)
  }

  /** parse_xfer_event for a transfer event; other elements are ignored by the data loop. */
  method DispatchElement(c: Controller, t: Tre, client: Client) returns (isTransfer: bool)
    requires c.Valid() && ClientOk(c.Abs(), client) && Ready(c.Abs(), Decode(t))
    modifies c, c.foot
    ensures c.Valid() && c.Abs() == Dispatch(old(c.Abs()), Decode(t), client)
    ensures isTransfer == Decode(t).XferEvent?
  {
    isTransfer := EvType(t) == TX_EVENT;
    if isTransfer {
      c.ParseXfer(EvChan(t), CodeOf(EvCode(t)), t.ptr, EvLen(t), client);
    }
  }

  /** Where the data event loop stands after `count` turns. */
  ghost predicate Progress(evs: seq<Event>, h0: Host, h: Host, count: nat, left: nat, quota: nat, client: Client) {
    && count <= |evs| && HostOk(h)
    && count + Taken(evs[count..], left) == Taken(evs, quota)
    && Outcome(h0, evs[..count], client, h)
    && AllReady(h, evs[count..], client)
  }

  lemma ProgressStart(evs: seq<Event>, h: Host, quota: nat, client: Client)
    requires HostOk(h) && AllReady(h, evs, client)
    ensures Progress(evs, h, h, 0, quota, quota, client)
  {
    assert evs[0..] == evs;
  }

  lemma ProgressEnd(evs: seq<Event>, h0: Host, h: Host, count: nat, left: nat, quota: nat, client: Client)
    requires Progress(evs, h0, h, count, left, quota, client) && (count == |evs| || left == 0)
    ensures count == Taken(evs, quota) && Outcome(h0, evs[..count], client, h)
  {
  }

  lemma {:induction false} OutcomeSnoc(h0: Host, evs: seq<Event>, h: Host, e: Event, client: Client)
    requires Outcome(h0, evs, client, h) && HostOk(h) && ClientOk(h, client) && Ready(h, e)
    requires HostOk(Dispatch(h, e, client))
    ensures Outcome(h0, evs + [e], client, Dispatch(h, e, client))
    decreases |evs|
  {
    assert (evs + [e])[0] == if evs == [] then e else evs[0];
    if evs == [] {
      assert (evs + [e])[1..] == [];
    } else {
      assert (evs + [e])[1..] == evs[1..] + [e];
      OutcomeSnoc(Dispatch(h0, evs[0], client), evs[1..], h, e, client);
    }
  }

  lemma ProgressStep(evs: seq<Event>, h0: Host, h: Host, count: nat, left: nat, quota: nat, client: Client)
    requires Progress(evs, h0, h, count, left, quota, client) && count < |evs| && left > 0
    ensures ClientOk(h, client) && Ready(h, evs[count])
    ensures Progress(evs, h0, Dispatch(h, evs[count], client), count + 1,
                     if evs[count].XferEvent? then left - 1 else left, quota, client)
  {
    assert evs[count..][0] == evs[count] && evs[count..][1..] == evs[count + 1..];
    OutcomeSnoc(h0, evs[..count], h, evs[count], client);
    assert evs[..count + 1] == evs[..count] + [evs[count]];
  }

  const EIO: int := 5

  // ---------------------------------------------------------------------------
  // Reachable states satisfy what event processing asks for

  /** An event as the host sees it. */
  function Seen(e: Event): Event { if e.XferEvent? then e.(pos := 0) else e }

  function SeenAll(es: seq<Event>): (r: seq<Event>)
    ensures |r| == |es| && forall k :: 0 <= k < |es| ==> r[k] == Seen(es[k])
  {
    seq(|es|, k requires 0 <= k < |es| => Seen(es[k]))
  }

  /** In a state that satisfies the invariant every pending event of a ring is ready when its
      turn comes, although each one changes the rings the next one points into. */
  lemma {:induction false} PendingIsReady(s: System, k: nat, client: Client)
    requires SysInv(s) && k < |s.rings| && ClientOk(s.host, client)
    ensures AllReady(s.host, SeenAll(s.rings[k]), client)
    decreases |s.rings[k]|
  {
    if s.rings[k] != [] {
      HeadMoves(s, k, client);
      var s' := Handled(s, k, client);
      PendingIsReady(s', k, client);
      assert SeenAll(s.rings[k])[1..] == SeenAll(s'.rings[k]);
    }
  }

  // ---------------------------------------------------------------------------
  // A batch of events is a sequence of steps

  /** Nothing but the host and the processed part of ring `k` differs. */
  ghost predicate Consumed(s: System, s': System, k: nat, n: nat) {
    && k < |s.rings| && n <= |s.rings[k]|
    && s' == s.(host := s'.host, rings := s.rings[k := s.rings[k][n..]])
  }

  /** Dispatching the first `n` events of a ring is `n` steps of the joint system. */
  lemma {:induction false} BatchIsPath(s: System, k: nat, n: nat, client: Client) returns (path: seq<System>)
    requires SysInv(s) && k < |s.rings| && n <= |s.rings[k]| && ClientOk(s.host, client)
    ensures Path(path) && |path| == n + 1 && path[0] == s
    ensures SysInv(path[n]) && Consumed(s, path[n], k, n)
    ensures Outcome(s.host, SeenAll(s.rings[k][..n]), client, path[n].host)
    decreases n
  {
    if n == 0 {
      path := [s];
      assert s.rings[k := s.rings[k][0..]] == s.rings;
    } else {
      HeadMoves(s, k, client);
      var s' := Handled(s, k, client);
      path := BatchIsPath(s', k, n - 1, client);
      BatchCons(s, s', path[n - 1], k, n, client);
      PathCons(s, s', path);
      path := [s] + path;
    }
  }

  /** The head event can be handled, and that is a step. */
  lemma HeadMoves(s: System, k: nat, client: Client)
    requires SysInv(s) && k < |s.rings| && s.rings[k] != [] && ClientOk(s.host, client)
    ensures ReadyToProcess(s, k)
    ensures SysInv(Handled(s, k, client)) && ClientOk(Handled(s, k, client).host, client)
    ensures Follows(s, Handled(s, k, client))
  {
    HeadIsReady(s, k);
    ProcessKeeps(s, k, client);
    HandledEffect(s, k, client);
    var s' := Handled(s, k, client);
    assert forall i :: 0 <= i < |s.er| ==> AfterEvent(s.host.chans[i], s'.host.chans[i], s.rings[k][0], i);
    assert IsStep(s, ProcessEvent(k, client), s');
  }

  lemma BatchCons(s: System, s': System, t: System, k: nat, n: nat, client: Client)
    requires Shape(s) && k < |s.rings| && 0 < n <= |s.rings[k]| && ClientOk(s.host, client) && ReadyToProcess(s, k)
    requires s' == Handled(s, k, client) && Consumed(s', t, k, n - 1)
    requires Outcome(s'.host, SeenAll(s'.rings[k][..n - 1]), client, t.host)
    ensures Consumed(s, t, k, n) && Outcome(s.host, SeenAll(s.rings[k][..n]), client, t.host)
  {
    var e := s.rings[k][0];
    OutcomeCons(s.host, e, SeenAll(s'.rings[k][..n - 1]), client, t.host);
    assert SeenAll(s.rings[k][..n]) == [Seen(e)] + SeenAll(s'.rings[k][..n - 1]);
    assert s'.rings[k][n - 1..] == s.rings[k][n..];
  }

  /** The host does not look at the position an event was posted for. */
  lemma OutcomeCons(h: Host, e: Event, es: seq<Event>, client: Client, h': Host)
    requires HostOk(h) && ClientOk(h, client) && Ready(h, e) && Outcome(Dispatch(h, e, client), es, client, h')
    ensures Outcome(h, [Seen(e)] + es, client, h')
  {
    assert ([Seen(e)] + es)[1..] == es;
  }

  /** mhi_process_data_event_ring in any reachable state: it needs nothing but the invariant, and
      takes the system along a path of its steps to the state the memory then shows. */
  method ProcessInRun(r: EventRing, c: Controller, devRp: nat, ghost dev: nat, quota: nat, client: Client,
                      ghost s: System, ghost k: nat)
    returns (count: int, ghost path: seq<System>)
    requires r.Valid() && r.Armed() && dev < r.ring.elements && devRp == r.ring.base + dev * TRE_SIZE
    requires c.Valid() && r.Apart(c) && c.Abs() == s.host
    requires SysInv(s) && k < |s.rings| && ClientOk(s.host, client)
    requires DecodeAll(r.Pending(dev)) == SeenAll(s.rings[k])
    modifies r, r.ring, c, c.foot
    ensures r.Valid() && r.Armed() && c.Valid() && Path(path) && path[0] == s
    ensures SysInv(path[|path| - 1]) && c.Abs() == path[|path| - 1].host
    ensures k < |path[|path| - 1].rings| && DecodeAll(r.Pending(dev)) == SeenAll(path[|path| - 1].rings[k])
    ensures |path| == if count < 0 then 1 else count + 1
    ensures count == if old(c.pm == Disable || InError(c.pm)) then -EIO else Taken(SeenAll(s.rings[k]), quota)
  {
    hide SysInv, Outcome, ClientOk, Path;
    PathOfOne(s);
    PendingIsReady(s, k, client);
    ghost var before := r.Pending(dev);
    count := r.ProcessData(c, devRp, dev, quota, client);
    path := [s];
    if count >= 0 { path := BatchEnds(s, k, count, client, before, r.Pending(dev), c.Abs()); }
  }

  lemma PathOfOne(s: System)
    ensures Path([s])
  {
  }

  /** The path of a batch ends in the state that the memory shows. */
  lemma BatchEnds(s: System, k: nat, n: nat, client: Client, before: seq<Tre>, after: seq<Tre>, h: Host)
    returns (path: seq<System>)
    requires SysInv(s) && k < |s.rings| && ClientOk(s.host, client) && n <= |before| && after == before[n..]
    requires DecodeAll(before) == SeenAll(s.rings[k]) && Outcome(s.host, DecodeAll(before)[..n], client, h)
    ensures Path(path) && |path| == n + 1 && path[0] == s && SysInv(path[n]) && path[n].host == h
    ensures k < |path[n].rings| && DecodeAll(after) == SeenAll(path[n].rings[k])
  {
    path := BatchIsPath(s, k, n, client);
    assert DecodeAll(before)[..n] == SeenAll(s.rings[k][..n]);
    assert DecodeAll(after) == DecodeAll(before)[n..] == SeenAll(s.rings[k][n..]);
  }
}
