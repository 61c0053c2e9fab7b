/** The control event loop (mhi_process_ctrl_ev_ring): state changes, command completions,
    execution environment changes and the transfer events of channels that share the ring. */
module ControlRings {
  import opened Rings
  import opened PowerStates
  import opened HostSpec
  import opened HostLaws
  import opened HostRuns
  import opened HostOutcomes
  import opened HostImpl
  import opened EventRings
  import opened Doorbells

  datatype Ctrl =
    | StateChange(state: nat) | CmdCompletion | EeChange | Transfer(event: Event) | RscTransfer | Unsupported

  /** The switch on the packet type. Stale events have no case of their own; coalesced transfers
      have one, but no channel that is modelled receives them. */
  function DecodeCtrl(t: Tre): (e: Ctrl)
    ensures e.Transfer? ==> e.event.XferEvent?
  {
    match EvType(t)
    case 0x20 => StateChange(EvCode(t))
    case 0x21 => CmdCompletion
    case 0x22 => Transfer(Decode(t))
    case 0x28 => RscTransfer
    case 0x40 => EeChange
    case _ => Unsupported
  }

  function DecodeCtrls(ts: seq<Tre>): (es: seq<Ctrl>)
    ensures |es| == |ts|
    ensures forall k :: 0 <= k < |ts| ==> es[k] == DecodeCtrl(ts[k])
  {
    seq(|ts|, k requires 0 <= k < |ts| => DecodeCtrl(ts[k]))
  }

  /** A stop may leave stale events in the control ring, and there they are unsupported. */
  lemma StaleIsUnsupported(t: Tre, chan: nat)
    requires EvType(t) == TX_EVENT && EvChan(t) == chan
    ensures DecodeCtrl(Marked(t, chan)) == Unsupported
  {
  }

  const STATE_M0: nat := 2
  const STATE_M1: nat := 3
  const STATE_M3: nat := 5
  const STATE_SYS_ERR: nat := 0xFF

  predicate CtrlReady(h: Host, e: Ctrl)
    requires HostOk(h)
  {
    e.Transfer? ==> Ready(h, e.event)
  }

  /** What one control event does to the host. */
  ghost function Control(h: Host, e: Ctrl, client: Client): (h': Host)
    requires HostOk(h) && ClientOk(h, client) && CtrlReady(h, e)
    ensures HostOk(h') && |h'.chans| == |h.chans|
  {
    match e
    case StateChange(state) =>
      if state == STATE_M0 then ToM0(h)
      else if state == STATE_M1 then h.(pm := Try(h.pm, M2))
      else if state == STATE_M3 then h.(pm := Try(h.pm, M3))
      else if state == STATE_SYS_ERR then h.(pm := Try(h.pm, SysErrDetect))
      else h
    case Transfer(event) => Dispatch(h, event, client)
    case _ => h
  }

  /** A state change event as the device writes it. */
  lemma StateOnWire(state: nat, ptr: nat)
    requires state < 0x100
    ensures DecodeCtrl(Tre(ptr, state * 0x1000000, 0x200000)) == StateChange(state)
  {
  }

  /** Where each state change event leads: M0 from POR, M2 and M3_EXIT, M1 from M0 to M2, M3 from
      M3_ENTER, and SYS_ERR from every state that works and from a failed firmware download. Events
      that do not fit, and all other states, change nothing. */
  lemma EventMoves(h: Host, state: nat, client: Client)
    requires HostOk(h) && ClientOk(h, client)
    ensures var h' := Control(h, StateChange(state), client);
            && (state == 2 && h.pm in {Por, M2, M3Exit} ==> h'.pm == M0)
            && (state == 3 && h.pm == M0 ==> h' == h.(pm := M2))
            && (state == 5 && h.pm == M3Enter ==> h' == h.(pm := M3))
            && (state == 0xFF && (h.pm == FwDlErr || (!InError(h.pm) && h.pm != Disable)) ==>
                  h' == h.(pm := SysErrDetect))
            && (state == 2 && h.pm !in {M0, Por, M2, M3Exit} ==> h' == h)
            && (state == 3 && h.pm != M0 ==> h' == h) && (state == 5 && h.pm != M3Enter ==> h' == h)
            && (state == 0xFF && (h.pm == Disable || (InError(h.pm) && h.pm != FwDlErr)) ==> h' == h)
            && (state !in {2, 3, 5, 0xFF} ==> h' == h)
  {
  }

  /** A suspend and a resume: the host asks for M3, the device confirms, the host asks to leave it, the
      device confirms. Doorbells are legal again, and every started channel with work has rung,
      except a burst channel whose device kept watching. */
  lemma SuspendAndResume(h: Host, client: Client)
    requires HostOk(h) && ClientOk(h, client) && h.pm == M0
    ensures var asked := h.(pm := Try(h.pm, M3Enter));
            var asleep := Control(asked, StateChange(5), client);
            var waking := asleep.(pm := Try(asleep.pm, M3Exit));
            var awake := Control(waking, StateChange(2), client);
            && asleep.pm == M3 && awake.pm == M0 && |awake.chans| == |h.chans|
            && forall i :: 0 <= i < |h.chans| && h.chans[i].started && h.chans[i].out != [] ==>
                 && awake.chans[i].out == h.chans[i].out
                 && (h.chans[i].cfg.resetReq || h.chans[i].dbMode || !h.chans[i].cfg.burst ==> Rung(awake.chans[i]))
  {
    var asked := h.(pm := M3Enter);
    EventMoves(asked, 5, client);
    var waking := h.(pm := M3Exit);
    EventMoves(waking, 2, client);
    forall i | 0 <= i < |h.chans| && h.chans[i].started && h.chans[i].out != []
      ensures ToM0(waking).chans[i].out == h.chans[i].out
      ensures h.chans[i].cfg.resetReq || h.chans[i].dbMode || !h.chans[i].cfg.burst ==> Rung(ToM0(waking).chans[i])
    {
      if h.chans[i].cfg.resetReq || h.chans[i].dbMode || !h.chans[i].cfg.burst { M0Rings(waking, i); }
    }
  }

  /** Every control event keeps the host's invariant: order, doorbells and votes. */
  lemma ControlKeeps(h: Host, e: Ctrl, client: Client)
    requires Inv(h, 0) && ClientOk(h, client) && CtrlReady(h, e)
    ensures Inv(Control(h, e, client), 0)
  {
    match e
    case StateChange(state) =>
      if state == STATE_M0 { M0Keeps(h); }
      else { PmKeeps(h, Control(h, e, client).pm); }
    case Transfer(event) =>
      if event.XferEvent? { XferKeeps(h, event.chan, event.code, event.ptr, event.len, client); }
    case _ =>
  }

  /** Handling `es` in order takes the host from `h` to `h'`. */
  ghost predicate Handles(h: Host, es: seq<Ctrl>, client: Client, h': Host)
    decreases |es|
  {
    HostOk(h) &&
    if es == [] then h' == h
    else CtrlReady(h, es[0]) && ClientOk(h, client) && Handles(Control(h, es[0], client), es[1..], client, h')
  }

  /** Every event is ready when its turn comes. */
  ghost predicate AllCtrlReady(h: Host, es: seq<Ctrl>, client: Client)
    decreases |es|
  {
    HostOk(h) &&
    (es != [] ==> CtrlReady(h, es[0]) && ClientOk(h, client)
                  && AllCtrlReady(Control(h, es[0], client), es[1..], client))
  }

  lemma {:induction false} HandlesSnoc(h0: Host, es: seq<Ctrl>, h: Host, e: Ctrl, client: Client)
    requires Handles(h0, es, client, h) && HostOk(h) && ClientOk(h, client) && CtrlReady(h, e)
    ensures Handles(h0, es + [e], client, Control(h, e, client))
    decreases |es|
  {
    if es == [] {
      assert (es + [e])[1..] == [] && (es + [e])[0] == e;
    } else {
      assert (es + [e])[1..] == es[1..] + [e] && (es + [e])[0] == es[0];
      HandlesSnoc(Control(h0, es[0], client), es[1..], h, e, client);
    }
  }

  /** Whatever a batch of control events does, the invariant holds after it. */
  lemma {:induction false} HandlesKeeps(h: Host, es: seq<Ctrl>, client: Client, h': Host)
    requires Handles(h, es, client, h') && Inv(h, 0)
    ensures Inv(h', 0)
    decreases |es|
  {
    if es != [] {
      ControlKeeps(h, es[0], client);
      HandlesKeeps(Control(h, es[0], client), es[1..], client, h');
    }
  }

  /** mhi_pm_m0_transition, mhi_pm_m1_transition, mhi_pm_m3_transition and the system error
      request, chosen by the new device state. */
  method StateChanged(c: Controller, state: nat)
    requires c.Valid()
    modifies c, c.foot
    ensures c.Valid() && HostOk(old(c.Abs()))
    ensures c.Abs() == (if state == STATE_M0 then ToM0(old(c.Abs()))
                        else old(c.Abs()).(pm := old(if state == STATE_M1 then Try(c.pm, M2)
                                                     else if state == STATE_M3 then Try(c.pm, M3)
                                                     else if state == STATE_SYS_ERR then Try(c.pm, SysErrDetect)
                                                     else c.pm)))
  {
    if state == STATE_M0 {
      var _ := c.M0Transition();
    } else if state == STATE_M1 {
      c.TrySetPm(M2);
    } else if state == STATE_M3 {
      c.TrySetPm(M3);
    } else if state == STATE_SYS_ERR {
      c.TrySetPm(SysErrDetect);
    }
  }

  /** The body of the loop for one element. */
  method ControlElement(c: Controller, t: Tre, client: Client) returns (supported: bool)
    requires c.Valid() && ClientOk(c.Abs(), client) && CtrlReady(c.Abs(), DecodeCtrl(t))
    modifies c, c.foot
    ensures c.Valid() && c.Abs() == Control(old(c.Abs()), DecodeCtrl(t), client)
    ensures supported <==> DecodeCtrl(t) != Unsupported
  {
    supported := true;
    match EvType(t)
    case 0x20 => StateChanged(c, EvCode(t));
    case 0x22 => var _ := DispatchElement(c, t, client);
    case 0x21 =>
    case 0x28 =>
    case 0x40 =>
    case _ => supported := false;
  }

  /** One turn: handle the head event, then give its slot back. */
  method TakeControl(r: EventRing, c: Controller, devRp: nat, ghost dev: nat, client: Client)
    returns (supported: bool, done: bool)
    requires r.Valid() && r.Armed() && dev < r.ring.elements && devRp == r.ring.base + dev * TRE_SIZE
    requires r.Pending(dev) != []
    requires c.Valid() && r.Apart(c) && ClientOk(c.Abs(), client) && CtrlReady(c.Abs(), DecodeCtrl(r.Pending(dev)[0]))
    modifies r, r.ring, c, c.foot
    ensures r.Valid() && r.Armed() && c.Valid() && r.Pending(dev) == old(r.Pending(dev))[1..]
    ensures c.Abs() == Control(old(c.Abs()), DecodeCtrl(old(r.Pending(dev))[0]), client)
    ensures supported == (DecodeCtrl(old(r.Pending(dev))[0]) != Unsupported) && done == (r.Pending(dev) == [])
  {
    var t := r.Head(dev);
    supported := ControlElement(c, t, client);
    done := r.RecycleAndCheck(devRp, dev);
  }

  /** Where the loop stands after `count` turns. */
  ghost predicate Standing(es: seq<Ctrl>, h0: Host, h: Host, count: nat, warned: bool, client: Client) {
    && count <= |es| && Handles(h0, es[..count], client, h) && AllCtrlReady(h, es[count..], client)
    && (warned <==> Unsupported in es[..count])
  }

  lemma StandingStep(es: seq<Ctrl>, h0: Host, h: Host, count: nat, warned: bool, client: Client)
    requires Standing(es, h0, h, count, warned, client) && count < |es|
    ensures HostOk(h) && ClientOk(h, client) && CtrlReady(h, es[count])
    ensures Standing(es, h0, Control(h, es[count], client), count + 1, warned || es[count] == Unsupported, client)
  {
    assert es[count..][0] == es[count] && es[count..][1..] == es[count + 1..];
    HandlesSnoc(h0, es[..count], h, es[count], client);
    assert es[..count + 1] == es[..count] + [es[count]];
  }

  lemma StandingStart(es: seq<Ctrl>, h: Host, client: Client)
    requires AllCtrlReady(h, es, client)
    ensures Standing(es, h, h, 0, false, client)
  {
    assert es[0..] == es;
  }

  lemma StandingEnd(es: seq<Ctrl>, h0: Host, h: Host, warned: bool, client: Client)
    requires Standing(es, h0, h, |es|, warned, client)
    ensures Handles(h0, es, client, h) && (warned <==> Unsupported in es)
  {
    assert es[..|es|] == es;
  }

  method ControlLoop(r: EventRing, c: Controller, devRp: nat, ghost dev: nat, client: Client)
    returns (count: nat, warned: bool)
    requires r.Valid() && r.Armed() && dev < r.ring.elements && devRp == r.ring.base + dev * TRE_SIZE
    requires c.Valid() && r.Apart(c) && AllCtrlReady(c.Abs(), DecodeCtrls(r.Pending(dev)), client)
    modifies r, r.ring, c, c.foot
    ensures r.Valid() && r.Armed() && c.Valid() && r.Pending(dev) == [] && count == |old(r.Pending(dev))|
    ensures Handles(old(c.Abs()), DecodeCtrls(old(r.Pending(dev))), client, c.Abs())
    ensures warned <==> Unsupported in DecodeCtrls(old(r.Pending(dev)))
  {
    hide *;
    ghost var pend := r.Pending(dev);
    ghost var es, h0, h := DecodeCtrls(pend), c.Abs(), c.Abs();
    StandingStart(es, h0, client);
    count, warned := 0, false;
    var done := r.AtDev(devRp, dev);
    while !done
      invariant r.Valid() && r.Armed() && c.Valid() && h == c.Abs()
      invariant done <==> r.Pending(dev) == []
      invariant count <= |pend| && r.Pending(dev) == pend[count..]
      invariant Standing(es, h0, h, count, warned, client)
      decreases |pend| - count
    {
      assert r.Pending(dev)[0] == pend[count] && es[count] == DecodeCtrl(pend[count]);
      StandingStep(es, h0, h, count, warned, client);
      h := Control(h, es[count], client);
      var supported;
      supported, done := TakeControl(r, c, devRp, dev, client);
      warned := warned || !supported;
      count := count + 1;
    }
    StandingEnd(es, h0, h, warned, client);
  }

  /** mhi_process_ctrl_ev_ring while the device is quiet: all pending events, in order; -EIO
      when events are out of reach. `warned` is the assertion about an unsupported type. */
  method ProcessControl(r: EventRing, c: Controller, devRp: nat, ghost dev: nat, client: Client)
    returns (count: int, warned: bool)
    requires r.Valid() && r.Armed() && dev < r.ring.elements && devRp == r.ring.base + dev * TRE_SIZE
    requires c.Valid() && r.Apart(c) && AllCtrlReady(c.Abs(), DecodeCtrls(r.Pending(dev)), client)
    modifies r, r.ring, c, c.foot
    ensures r.Valid() && r.Armed() && c.Valid() && (count < 0 <==> old(c.pm == Disable || InError(c.pm)))
    ensures if old(c.pm == Disable || InError(c.pm))
            then count == -EIO && !warned && c.Abs() == old(c.Abs()) && r.Pending(dev) == old(r.Pending(dev))
            else && count == |old(r.Pending(dev))| && r.Pending(dev) == []
                 && Handles(old(c.Abs()), DecodeCtrls(old(r.Pending(dev))), client, c.Abs())
                 && (warned <==> Unsupported in DecodeCtrls(old(r.Pending(dev))))
  {
    if c.pm == Disable || InError(c.pm) { return -EIO, false; }
    count, warned := ControlLoop(r, c, devRp, dev, client);
  }

  // ---------------------------------------------------------------------------
  // Reachable states satisfy what the control loop asks for

  /** The elements `es` as the control loop sees the pending events of a ring. */
  ghost predicate Shows(es: seq<Ctrl>, ring: seq<Event>) {
    && |es| == |ring|
    && forall m :: 0 <= m < |es| ==> if ring[m].XferEvent? then es[m] == Transfer(Seen(ring[m])) else !es[m].Transfer?
  }

  /** A state change keeps the joint invariant and what clients may do. */
  lemma ChangeKeeps(s: System, e: Ctrl, client: Client)
    requires SysInv(s) && ClientOk(s.host, client) && !e.Transfer?
    ensures SysInv(s.(host := Control(s.host, e, client))) && ClientOk(Control(s.host, e, client), client)
  {
    hide SysInv;
    ShapeHolds(s);
    if e.StateChange? && e.state == STATE_M0 {
      M0StepKeeps(s);
    } else {
      PowerStepKeeps(s, Control(s.host, e, client).pm);
    }
  }

  /** Handling the head event, and then the state change it announces, if any. */
  ghost function After(s: System, k: nat, e: Ctrl, client: Client): System
    requires Shape(s) && k < |s.rings| && s.rings[k] != [] && ClientOk(s.host, client) && ReadyToProcess(s, k)
    requires Shows([e], s.rings[k][..1])
  {
    if e.Transfer? then Handled(s, k, client)
    else Handled(s, k, client).(host := Control(s.host, e, client))
  }

  /** A control event is one or two steps of the joint system: the event itself, and the M0
      transition or power state request that it causes. */
  lemma EventIsPath(s: System, k: nat, e: Ctrl, client: Client) returns (path: seq<System>)
    requires SysInv(s) && k < |s.rings| && s.rings[k] != [] && ClientOk(s.host, client)
    requires Shows([e], s.rings[k][..1])
    ensures ReadyToProcess(s, k) && CtrlReady(s.host, e) && After(s, k, e, client).host == Control(s.host, e, client)
    ensures Path(path) && 2 <= |path| <= 3 && path[0] == s && path[|path| - 1] == After(s, k, e, client)
    ensures SysInv(After(s, k, e, client)) && ClientOk(After(s, k, e, client).host, client)
  {
    assert s.rings[k][..1][0] == s.rings[k][0];
    HeadMoves(s, k, client);
    var s1 := Handled(s, k, client);
    path := [s, s1];
    if !e.Transfer? && Control(s.host, e, client) != s.host {
      ChangeKeeps(s1, e, client);
      var s2 := s1.(host := Control(s1.host, e, client));
      ChangeIsStep(s1, e, client);
      assert Follows(path[0], path[1]);
      path := [s, s1, s2];
    }
  }

  lemma ChangeIsStep(s: System, e: Ctrl, client: Client)
    requires Shape(s) && ClientOk(s.host, client) && !e.Transfer? && Control(s.host, e, client) != s.host
    ensures Follows(s, s.(host := Control(s.host, e, client)))
  {
    var s' := s.(host := Control(s.host, e, client));
    var want := if e.state == STATE_M1 then M2 else if e.state == STATE_M3 then M3 else SysErrDetect;
    assert IsStep(s, if e.state == STATE_M0 then M0Event else PmRequest(want), s');
  }

  /** In every state that satisfies the invariant a whole batch of control events is a path of the
      joint system: each event is ready when its turn comes, although the ones before it complete
      transfers and change the power state, and the invariant holds at the end. */
  lemma {:induction false} ControlIsPath(s: System, k: nat, es: seq<Ctrl>, client: Client) returns (path: seq<System>)
    requires SysInv(s) && k < |s.rings| && ClientOk(s.host, client) && Shows(es, s.rings[k])
    ensures AllCtrlReady(s.host, es, client) && |es| == |s.rings[k]|
    ensures Path(path) && path != [] && path[0] == s && SysInv(path[|path| - 1])
    ensures k < |path[|path| - 1].rings| && path[|path| - 1].rings[k] == []
    ensures Handles(s.host, es, client, path[|path| - 1].host)
    decreases |es|
  {
    path := [s];
    if es != [] {
      assert Shows([es[0]], s.rings[k][..1]);
      path := EventIsPath(s, k, es[0], client);
      var t := After(s, k, es[0], client);
      var rest := ControlIsPath(t, k, es[1..], client);
      PathsJoin(path, rest);
      path := path + rest[1..];
    }
  }

  lemma PathsJoin(a: seq<System>, b: seq<System>)
    requires Path(a) && Path(b) && b[0] == a[|a| - 1]
    ensures Path(a + b[1..]) && (a + b[1..])[0] == a[0] && (a + b[1..])[|a| + |b| - 2] == b[|b| - 1]
  {
    var all := a + b[1..];
    forall k | 0 < k < |all| ensures Follows(all[k - 1], all[k]) {
      if k >= |a| {
        assert all[k] == b[k - |a| + 1] && all[k - 1] == b[k - |a|];
        assert Follows(b[k - |a|], b[k - |a| + 1]);
      } else {
        assert Follows(a[k - 1], a[k]);
      }
    }
  }

  /** mhi_process_ctrl_ev_ring in any reachable state: it needs nothing but the invariant, and takes
      the system along a path of its steps to the state the memory then shows. */
  method ControlInRun(r: EventRing, c: Controller, devRp: nat, ghost dev: nat, client: Client,
                      ghost s: System, ghost k: nat)
    returns (count: int, warned: bool, ghost path: seq<System>)
    requires r.Valid() && r.Armed() && dev < r.ring.elements && devRp == r.ring.base + dev * TRE_SIZE
    requires c.Valid() && r.Apart(c) && c.Abs() == s.host
    requires SysInv(s) && k < |s.rings| && ClientOk(s.host, client)
    requires Shows(DecodeCtrls(r.Pending(dev)), s.rings[k])
    modifies r, r.ring, c, c.foot
    ensures r.Valid() && r.Armed() && c.Valid() && Path(path) && path[0] == s
    ensures SysInv(path[|path| - 1]) && c.Abs() == path[|path| - 1].host
    ensures count >= 0 ==> k < |path[|path| - 1].rings| && path[|path| - 1].rings[k] == [] && r.Pending(dev) == []
    ensures count < 0 ==> path == [s] && r.Pending(dev) == old(r.Pending(dev))
    ensures count == if old(c.pm == Disable || InError(c.pm)) then -EIO else |s.rings[k]|
    ensures warned <==> count >= 0 && Unsupported in old(DecodeCtrls(r.Pending(dev)))
  {
    hide *;
    ghost var es, h0 := DecodeCtrls(r.Pending(dev)), c.Abs();
    path := ControlIsPath(s, k, es, client);
    count, warned := ProcessControl(r, c, devRp, dev, client);
    if count < 0 {
      path := [s];
      PathOfOne(s);
    } else { HandlesUnique(h0, es, client, c.Abs(), path[|path| - 1].host); }
  }

  lemma {:induction false} HandlesUnique(h: Host, es: seq<Ctrl>, client: Client, a: Host, b: Host)
    requires Handles(h, es, client, a) && Handles(h, es, client, b)
    ensures a == b
    decreases |es|
  {
    if es != [] { HandlesUnique(Control(h, es[0], client), es[1..], client, a, b); }
  }
}
