/** Uplink aggregation over USB (qmi_wwan_q.c): frames of one network device are collected in a
    buffer that is sent when it is full, too old, or when the timer's worker flushes it. */
module Aggregators {
  import opened Octets
  import opened Qmap

  datatype Held = NoSkb | Skb(data: seq<byte>)

  /** What a pass cannot decide itself: the two clock comparisons, xmit_more, the verdict of
      rmnet_usb_tx_agg_skip, and whether the two allocations succeed. */
  datatype Luck = Luck(late: bool, spaced: bool, more: bool, skip: bool, aggRoom: bool, skbRoom: bool)
  {
    predicate Urgent() { !more && skip }

    /** Whether a packet that finds nothing held starts an aggregate. */
    predicate Opens() { !spaced && !Urgent() && aggRoom }
  }

  /** What may happen while the lock is free. */
  datatype Tick = TimerFires | WorkRuns

  /** A packet handed to rmnet_vnd_start_xmit, and everything that varies while it is sent. */
  datatype Input = Input(skb: seq<byte>, ipOffset: nat, tailroom: nat, junk: nat -> byte,
                         first: Luck, second: Luck, between: seq<Tick>, after: seq<Tick>)
  {
    predicate Ok() { ipOffset <= |skb| }
    predicate Lucky() { first.aggRoom && first.skbRoom && second.aggRoom && second.skbRoom }
  }

  datatype Op = Send(input: Input) | Happens(tick: Tick) | Store(maxDatagrams: nat, maxSize: nat)

  datatype Fate = Kept | Dropped | Again

  // ---------------------------------------------------------------------------
  // Frames held and frames emitted

  ghost function Flat(groups: seq<seq<Packet>>): seq<Packet> {
    if groups == [] then [] else Flat(groups[..|groups| - 1]) + groups[|groups| - 1]
  }

  lemma FlatSnoc(groups: seq<seq<Packet>>, ps: seq<Packet>)
    ensures Flat(groups + [ps]) == Flat(groups) + ps
  {
    assert (groups + [ps])[..|groups|] == groups;
  }

  lemma {:induction false} FramesSnoc(v: Version, ps: seq<Packet>, p: Packet)
    ensures Frames(v, ps + [p]) == Frames(v, ps) + FrameOf(v, p)
  {
    if ps == [] {
      assert (ps + [p])[1..] == [];
    } else {
      assert (ps + [p])[1..] == ps[1..] + [p];
      FramesSnoc(v, ps[1..], p);
    }
  }

  lemma FramesOfOne(v: Version, p: Packet)
    ensures Frames(v, [p]) == FrameOf(v, p)
  {
    assert [p][1..] == [] && Frames(v, []) == [];
  }

  /** Every emitted buffer is the frames of its group of packets. */
  ghost predicate Matches(v: Version, emitted: seq<seq<byte>>, groups: seq<seq<Packet>>) {
    && |emitted| == |groups|
    && forall i :: 0 <= i < |emitted| ==> emitted[i] == Frames(v, groups[i])
  }

  // ---------------------------------------------------------------------------
  // The aggregator as a machine over packets

  /** The packets held, the groups that were sent, the two flags and the limits; and whether a frame
      was ever put into a buffer too small for it. */
  datatype State = State(held: seq<Packet>, groups: seq<seq<Packet>>, timer: bool, work: bool,
                         maxDatagrams: nat, maxSize: nat, overran: bool)
  {
    function Flushed(): State { this.(held := [], groups := groups + [held]) }

    function Ticked(t: Tick): State {
      match t
      case TimerFires => if timer then this.(timer := false, work := true) else this
      case WorkRuns =>
        if !work then this
        else if held == [] then this.(work := false) else this.(work := false).Flushed()
    }

    ghost function TickedAll(ts: seq<Tick>): State
      decreases |ts|
    {
      if ts == [] then this else TickedAll(ts[..|ts| - 1]).Ticked(ts[|ts| - 1])
    }

    /** One pass of new_packet for a packet whose skb has `len` bytes with its link header. */
    ghost function Passed(v: Version, p: Packet, len: nat, luck: Luck): (State, Fate) {
      if held != [] then
        if |Frames(v, held)| + len + HdrLen(v) < maxSize then
          var s := this.(held := held + [p]);
          (if luck.late || |s.held| == maxDatagrams || luck.Urgent() then s.Flushed() else s, Kept)
        else (Flushed(), Again)
      else if !luck.Opens() then Alone(p, luck.skbRoom)
      else (this.(held := [p], overran := overran || |FrameOf(v, p)| > maxSize), Kept)
    }

    function Alone(p: Packet, room: bool): (State, Fate) {
      if room then (this.(groups := groups + [[p]]), Kept) else (this, Dropped)
    }

    /** The timer is started for what is held. */
    function Timed(): State { if held != [] then this.(timer := true) else this }

    /** One or two passes, with the timer and the worker in between and afterwards. */
    ghost function AfterSend(v: Version, p: Packet, len: nat, input: Input): (State, Fate) {
      if maxDatagrams == 1 then Alone(p, input.first.skbRoom)
      else
        var (s, fate) := Passed(v, p, len, input.first);
        if fate != Again then (s.TickedAll(input.after).Timed(), fate)
        else
          var (s', fate') := s.TickedAll(input.between).Passed(v, p, len, input.second);
          (s'.TickedAll(input.after).Timed(), fate')
    }

    ghost function Done(v: Version, dev: nat, op: Op): State
      requires MUX_BASE + dev < 256 && (op.Send? ==> op.input.Ok())
    {
      match op
      case Send(input) => AfterSend(v, PacketOf(v, dev, input), SkbLen(v, input), input).0
      case Happens(t) => Ticked(t)
      case Store(datagrams, size) =>
        if maxDatagrams == 1 && datagrams > 1 then this.(maxDatagrams := datagrams, maxSize := size) else this
    }

    ghost function DoneAll(v: Version, dev: nat, ops: seq<Op>): State
      requires MUX_BASE + dev < 256 && AllOk(ops)
      decreases |ops|
    {
      if ops == [] then this else DoneAll(v, dev, ops[..|ops| - 1]).Done(v, dev, ops[|ops| - 1])
    }
  }

  /** The packet that an input makes, and the length of its padded skb. */
  function PacketOf(v: Version, dev: nat, input: Input): Packet
    requires MUX_BASE + dev < 256 && input.Ok()
  {
    Packet(dev, input.skb[input.ipOffset..],
           PaddingOf(v, |input.skb|, input.ipOffset, input.tailroom, input.junk))
  }

  function SkbLen(v: Version, input: Input): nat
    requires input.Ok()
  {
    |input.skb| + |PaddingOf(v, |input.skb|, input.ipOffset, input.tailroom, input.junk)|
  }

  // ---------------------------------------------------------------------------

  class Aggregator {
    const version: Version
    const dev: nat
    var agg: Held
    var aggCount: nat
    var timer: bool
    var work: bool
    var maxDatagrams: nat
    var maxSize: nat
    /** skb_put ran over the end of its buffer. */
    var overran: bool
    var emitted: seq<seq<byte>>
    ghost var held: seq<Packet>
    ghost var groups: seq<seq<Packet>>
    ghost var kept: seq<Packet>

    ghost predicate Valid()
      reads this
    {
      && MUX_BASE + dev < 256
      && (agg.NoSkb? <==> aggCount == 0) && aggCount == |held| && aggCount < maxDatagrams
      && (agg.Skb? ==> agg.data == Frames(version, held))
      && (agg.Skb? ==> |agg.data| <= maxSize || overran)
      && Matches(version, emitted, groups)
      && kept == Flat(groups) + held
    }

    ghost function Abs(): State
      reads this
    {
      State(held, groups, timer, work, maxDatagrams, maxSize, overran)
    }

    /** An aggregate that is held will be flushed. */
    predicate Armed()
      reads this
    {
      agg.Skb? ==> timer || work
    }

    constructor (version: Version, dev: nat)
      requires MUX_BASE + dev < 256
      ensures Valid() && Armed() && kept == [] && emitted == [] && held == [] && !overran
      ensures this.version == version && this.dev == dev && Abs() == State([], [], false, false, 1, 1500, false)
    {
      this.version, this.dev := version, dev;
      agg, aggCount, timer, work := NoSkb, 0, false, false;
      maxDatagrams, maxSize, overran, emitted := 1, 1500, false, [];
      held, groups, kept := [], [], [];
    }

    /** qma_setting_store: limits change only while aggregation is off, when nothing is held. */
    method StoreSettings(datagrams: nat, size: nat)
      requires Valid()
      modifies this`maxDatagrams, this`maxSize
      ensures Valid()
      ensures if old(maxDatagrams) == 1 && datagrams > 1 then maxDatagrams == datagrams && maxSize == size
              else maxDatagrams == old(maxDatagrams) && maxSize == old(maxSize)
    {
      if maxDatagrams == 1 && datagrams > 1 {
        maxDatagrams, maxSize := datagrams, size;
      }
    }

    /** dev_queue_xmit: `ps` are the packets whose frames the buffer holds. */
    method Emit(data: seq<byte>, ghost ps: seq<Packet>)
      requires Matches(version, emitted, groups) && data == Frames(version, ps)
      modifies this`emitted, this`groups
      ensures emitted == old(emitted) + [data] && groups == old(groups) + [ps]
      ensures Matches(version, emitted, groups) && Flat(groups) == old(Flat(groups)) + ps
    {
      FlatSnoc(groups, ps);
      emitted, groups := emitted + [data], groups + [ps];
    }

    /** Detaches the aggregate and hands it to the real device; its last frame may just have
        reached the count limit. */
    method Flush()
      requires agg.Skb? && agg.data == Frames(version, held) && Matches(version, emitted, groups)
      requires kept == Flat(groups) + held && MUX_BASE + dev < 256 && maxDatagrams > 0
      modifies this`agg, this`aggCount, this`emitted, this`held, this`groups
      ensures Valid() && agg.NoSkb? && emitted == old(emitted) + [old(agg.data)] && Abs() == old(Abs()).Flushed()
    {
      hide Frames, Flat;
      Emit(agg.data, held);
      agg, aggCount, held := NoSkb, 0, [];
    }

    /** Sends one frame in a buffer of its own while nothing is held. */
    method SendAlone(frame: seq<byte>, ghost p: Packet, room: bool) returns (fate: Fate)
      requires Valid() && agg.NoSkb? && frame == FrameOf(version, p)
      modifies this`emitted, this`groups, this`kept
      ensures Valid() && (Abs(), fate) == old(Abs()).Alone(p, room)
      ensures kept == old(kept) + (if fate == Kept then [p] else [])
      ensures emitted == old(emitted) + (if fate == Kept then [frame] else [])
    {
      if !room { return Dropped; }
      FramesOfOne(version, p);
      Emit(frame, [p]);
      kept := kept + [p];
      fate := Kept;
    }

    /** Adds a frame to the aggregate, or starts one with it. */
    method Append(frame: seq<byte>, ghost p: Packet)
      requires Valid() && frame == FrameOf(version, p) && aggCount + 1 < maxDatagrams + (if agg.Skb? then 1 else 0)
      modifies this`agg, this`aggCount, this`held, this`kept, this`overran
      ensures agg.Skb? && aggCount == old(aggCount) + 1 && held == old(held) + [p] && kept == old(kept) + [p]
      ensures agg.data == (if old(agg).Skb? then old(agg.data) else []) + frame
      ensures agg.data == Frames(version, held) && kept == Flat(groups) + held
      ensures overran == (old(overran) || |agg.data| > maxSize)
    {
      FramesSnoc(version, held, p);
      agg := Skb((if agg.Skb? then agg.data else []) + frame);
      aggCount, held, kept := aggCount + 1, held + [p], kept + [p];
      overran := overran || |agg.data| > maxSize;
    }

    /** The locked part of rmnet_usb_tx_agg after new_packet. The length test counts the link
        header of the skb, `len` bytes with it, although only the frame is copied. */
    method Pass(frame: seq<byte>, ghost p: Packet, len: nat, hdrLen: nat, luck: Luck) returns (fate: Fate)
      requires Valid() && maxDatagrams != 1 && frame == FrameOf(version, p)
      requires |frame| <= len + hdrLen && hdrLen == HdrLen(version)
      modifies this`agg, this`aggCount, this`emitted, this`held, this`groups, this`kept, this`overran
      ensures Valid() && (Abs(), fate) == old(Abs()).Passed(version, p, len, luck)
      ensures kept == old(kept) + (if fate == Kept then [p] else [])
    {
      hide Matches, Flat, Frames, FrameOf;
      if agg.Skb? {
        if |agg.data| + len + hdrLen < maxSize {
          Append(frame, p);
          var ready := luck.late || aggCount == maxDatagrams || luck.Urgent();
          if ready { Flush(); }
          fate := Kept;
        } else {
          Flush();
          fate := Again;
        }
      } else if !luck.Opens() {
        fate := SendAlone(frame, p, luck.skbRoom);
      } else {
        Append(frame, p);
        assert held == [p];
        fate := Kept;
      }
    }

    /** rmnet_usb_tx_agg_timer_cb and rmnet_usb_tx_agg_work. */
    method Tick(t: Tick)
      requires Valid()
      modifies this`agg, this`aggCount, this`emitted, this`held, this`groups, this`timer, this`work
      ensures Valid() && Abs() == old(Abs()).Ticked(t)
    {
      if t.TimerFires? && timer {
        timer, work := false, true;
      } else if t.WorkRuns? && work {
        work := false;
        if agg.Skb? { Flush(); }
      }
    }

    /** When the timer expires and the worker runs, nothing stays behind. */
    method Settle()
      requires Valid() && Armed()
      modifies this`agg, this`aggCount, this`emitted, this`held, this`groups, this`timer, this`work
      ensures Valid() && Armed() && agg.NoSkb? && held == []
      ensures Abs() == old(Abs()).Ticked(TimerFires).Ticked(WorkRuns)
    {
      Tick(TimerFires);
      Tick(WorkRuns);
    }

    method Ticks(ts: seq<Tick>)
      requires Valid()
      modifies this`agg, this`aggCount, this`emitted, this`held, this`groups, this`timer, this`work
      ensures Valid() && Abs() == old(Abs()).TickedAll(ts)
    {
      hide Valid, State.Ticked;
      assert ts[..0] == [] && ts[..|ts|] == ts;
      for i := 0 to |ts|
        invariant Valid() && Abs() == old(Abs()).TickedAll(ts[..i])
      {
        assert ts[..i + 1][..i] == ts[..i] && ts[..i + 1][i] == ts[i];
        Tick(ts[i]);
      }
    }

    /** The goto loop of rmnet_usb_tx_agg: the timer and the worker may run whenever the lock is
        free, and still a second pass always finishes. */
    method Passes(frame: seq<byte>, ghost p: Packet, len: nat, hdrLen: nat, input: Input)
      returns (fate: Fate, passes: nat)
      requires Valid() && maxDatagrams != 1 && frame == FrameOf(version, p)
      requires |frame| <= len + hdrLen && hdrLen == HdrLen(version)
      modifies this`agg, this`aggCount, this`emitted, this`held, this`groups, this`kept
      modifies this`overran, this`timer, this`work
      ensures Valid() && passes <= 2 && (Abs().Timed(), fate) == old(Abs()).AfterSend(version, p, len, input)
      ensures fate != Again && kept == old(kept) + (if fate == Kept then [p] else [])
    {
      hide Valid, State.Passed;
      passes, fate := 0, Again;
      ghost var one := Abs().Passed(version, p, len, input.first);
      ghost var two := one.0.TickedAll(input.between).Passed(version, p, len, input.second);
      PassedTwice(Abs(), version, p, len, input);
      while fate == Again
        invariant Valid() && passes <= 2 && maxDatagrams == old(maxDatagrams) && maxSize == old(maxSize)
        invariant passes == 0 ==> Abs() == old(Abs()) && fate == Again
        invariant passes == 1 ==>
                    fate == one.1 && Abs() == one.0.TickedAll(if fate == Again then input.between else input.after)
        invariant passes == 2 ==> one.1 == Again && fate == two.1 && Abs() == two.0.TickedAll(input.after)
        invariant kept == old(kept) + (if fate == Kept then [p] else [])
        decreases 2 - passes
      {
        fate := Pass(frame, p, len, hdrLen, if passes == 0 then input.first else input.second);
        passes := passes + 1;
        Ticks(if fate == Again then input.between else input.after);
      }
    }

    /** rmnet_usb_tx_agg: what a send does to the packets held, the flags and the groups sent. */
    method TxAgg(frame: seq<byte>, ghost p: Packet, len: nat, hdrLen: nat, input: Input)
      returns (fate: Fate, passes: nat)
      requires Valid() && frame == FrameOf(version, p) && |frame| <= len + hdrLen && hdrLen == HdrLen(version)
      modifies this`agg, this`aggCount, this`emitted, this`held, this`groups, this`kept
      modifies this`overran, this`timer, this`work
      ensures Valid() && passes <= 2 && (Abs(), fate) == old(Abs()).AfterSend(version, p, len, input)
      ensures kept == old(kept) + (if fate == Kept then [p] else [])
    {
      if maxDatagrams == 1 {
        passes := 0;
        fate := SendAlone(frame, p, input.first.skbRoom);
      } else {
        fate, passes := Passes(frame, p, len, hdrLen, input);
        if agg.Skb? && !timer { timer := true; }
      }
    }

    /** rmnet_vnd_start_xmit: the header and the padding are added, then the frame is aggregated. */
    method StartXmit(input: Input) returns (fate: Fate, passes: nat)
      requires Valid() && input.Ok()
      modifies this`agg, this`aggCount, this`emitted, this`held, this`groups, this`kept
      modifies this`overran, this`timer, this`work
      ensures Valid() && passes <= 2 && Abs() == old(Abs()).Done(version, dev, Send(input))
      ensures fate == old(Abs()).AfterSend(version, PacketOf(version, dev, input), SkbLen(version, input), input).1
      ensures kept == old(kept) + (if fate == Kept then [PacketOf(version, dev, input)] else [])
    {
      hide State.AfterSend;
      var hdr, skb := AddHeader(version, MUX_BASE + dev, input.skb, input.ipOffset, input.tailroom, input.junk);
      ghost var p := PacketOf(version, dev, input);
      var frame := hdr + skb[input.ipOffset..];
      assert skb[|input.skb|..] == p.padding;
      assert frame == FrameOf(version, p) && |frame| <= |skb| + |hdr|;
      fate, passes := TxAgg(frame, p, |skb|, |hdr|, input);
    }

    method Do(op: Op)
      requires Valid() && Armed() && (op.Send? ==> op.input.Ok())
      modifies this
      ensures Valid() && Armed() && Abs() == old(Abs()).Done(version, dev, op)
      ensures (op.Send? ==> op.input.Lucky()) ==> Contents(kept) == old(Contents(kept)) + Given(dev, op)
      ensures old(AllFor(kept, dev)) ==> AllFor(kept, dev)
    {
      hide State.AfterSend, Frames, Flat, Matches, PaddingOf;
      match op
      case Send(input) =>
        ghost var before, p := kept, PacketOf(version, dev, input);
        SentKeeps(Abs(), version, p, SkbLen(version, input), input);
        var fate, _ := StartXmit(input);
        ContentsSum(before, [p]);
      case Happens(t) => Tick(t);
      case Store(datagrams, size) => StoreSettings(datagrams, size);
    }

    /** Any run: packets, timer expiries, worker runs and settings in any order. */
    method Drive(ops: seq<Op>, ghost bound: nat)
      requires Valid() && Armed() && AllOk(ops)
      modifies this
      ensures Valid() && Armed() && Abs() == old(Abs()).DoneAll(version, dev, ops)
      ensures Lucky(ops) ==> Contents(kept) == old(Contents(kept)) + Sent(dev, ops)
      ensures old(AllFor(kept, dev)) ==> AllFor(kept, dev)
      ensures old(Roomy(Abs(), bound)) && AllWithin(version, ops, bound) ==> overran == old(overran)
    {
      hide State.Done, Frames, Flat, Matches, Given;
      SentNone(dev);
      assert ops[..0] == [];
      for i := 0 to |ops|
        invariant Valid() && Armed() && AllOk(ops[..i]) && Abs() == old(Abs()).DoneAll(version, dev, ops[..i])
        invariant old(AllFor(kept, dev)) ==> AllFor(kept, dev)
        invariant Lucky(ops) ==> Contents(kept) == old(Contents(kept)) + Sent(dev, ops[..i])
      {
        SentNext(dev, ops, i);
        assert AllOk(ops[..i + 1]) && ops[..i + 1][..i] == ops[..i] && ops[..i + 1][i] == ops[i];
        Do(ops[i]);
      }
      assert ops[..|ops|] == ops;
      if Roomy(old(Abs()), bound) && AllWithin(version, ops, bound) {
        NeverOverrun(old(Abs()), version, dev, ops, bound);
      }
    }
  }

  // ---------------------------------------------------------------------------
  // What a send keeps

  /** What is held is covered by the timer or the worker. */
  predicate Covered(a: State) { a.held != [] ==> a.timer || a.work }

  lemma {:induction false} TicksKeep(a: State, ts: seq<Tick>)
    ensures Covered(a) ==> Covered(a.TickedAll(ts))
    ensures a.held == [] ==> a.TickedAll(ts).held == []
    ensures a.TickedAll(ts).maxDatagrams == a.maxDatagrams && a.TickedAll(ts).maxSize == a.maxSize
    ensures a.TickedAll(ts).overran == a.overran && (a.TickedAll(ts).timer ==> a.timer)
  {
    if ts != [] { TicksKeep(a, ts[..|ts| - 1]); }
  }

  /** A second pass always finishes: the first one flushed, and the worker adds nothing. */
  lemma PassedTwice(a: State, v: Version, p: Packet, len: nat, input: Input)
    ensures var one := a.Passed(v, p, len, input.first);
            one.1 == Again ==> one.0.TickedAll(input.between).Passed(v, p, len, input.second).1 != Again
  {
    TicksKeep(a.Passed(v, p, len, input.first).0, input.between);
  }

  /** After a send what is held is covered, the timer was not started for nothing, and the packet is
      dropped only when an allocation fails. */
  lemma SentKeeps(a: State, v: Version, p: Packet, len: nat, input: Input)
    ensures (a.maxDatagrams == 1 ==> a.held == []) ==> Covered(a.AfterSend(v, p, len, input).0)
    ensures var b := a.AfterSend(v, p, len, input).0; b.timer && !a.timer ==> b.held != []
    ensures a.AfterSend(v, p, len, input).1 != Again && (input.Lucky() ==> a.AfterSend(v, p, len, input).1 == Kept)
  {
    PassedTwice(a, v, p, len, input);
    TimerNeeded(a, v, p, len, input);
  }

  lemma TimerNeeded(a: State, v: Version, p: Packet, len: nat, input: Input)
    ensures var b := a.AfterSend(v, p, len, input).0; b.timer && !a.timer ==> b.held != []
  {
    hide State.Passed, State.TickedAll;
    var one := a.Passed(v, p, len, input.first).0;
    PassKeepsTimer(a, v, p, len, input.first);
    TicksKeep(one, input.between);
    TicksKeep(one, input.after);
    var later := one.TickedAll(input.between);
    PassKeepsTimer(later, v, p, len, input.second);
    TicksKeep(later.Passed(v, p, len, input.second).0, input.after);
  }

  lemma PassKeepsTimer(a: State, v: Version, p: Packet, len: nat, luck: Luck)
    ensures a.Passed(v, p, len, luck).0.timer == a.timer
  {
    hide Frames, FrameOf;
  }

  // ---------------------------------------------------------------------------
  // Where a packet goes

  /** `ps` are held and `groups` were sent; or the worker ran and has sent `ps` as well. */
  ghost predicate Holds(b: State, ps: seq<Packet>, groups: seq<seq<Packet>>, ts: seq<Tick>) {
    || (b.held == ps && b.groups == groups)
    || (ps != [] && WorkRuns in ts && b.held == [] && b.groups == groups + [ps])
  }

  lemma {:induction false} TicksHold(a: State, ts: seq<Tick>)
    ensures Holds(a.TickedAll(ts), a.held, a.groups, ts)
    decreases |ts|
  {
    if ts != [] {
      TicksHold(a, ts[..|ts| - 1]);
      assert ts[|ts| - 1] in ts;
      assert forall t :: t in ts[..|ts| - 1] ==> t in ts;
    }
  }

  /** When the timer expires and the worker runs, what was held has gone out as one buffer, and neither
      is pending any more. */
  lemma SettlingFlushes(a: State)
    requires Covered(a)
    ensures var b := a.Ticked(TimerFires).Ticked(WorkRuns);
            && b.held == [] && !b.timer && !b.work && b.groups == a.groups + (if a.held == [] then [] else [a.held])
  {
  }

  /** A packet that fits behind what is held. When the aggregate is too old, when the packet is urgent
      or when it is the last that the limit allows, everything goes out in one buffer at once;
      otherwise it waits with the others. */
  lemma SendJoins(a: State, v: Version, p: Packet, len: nat, input: Input)
    requires a.maxDatagrams != 1 && a.held != [] && |Frames(v, a.held)| + len + HdrLen(v) < a.maxSize
    ensures var (b, fate) := a.AfterSend(v, p, len, input);
            fate == Kept &&
            if input.first.late || input.first.Urgent() || |a.held| + 1 == a.maxDatagrams
            then b.held == [] && b.groups == a.groups + [a.held + [p]]
            else Holds(b, a.held + [p], a.groups, input.after)
  {
    hide Frames, State.TickedAll;
    TicksHold(a.Passed(v, p, len, input.first).0, input.after);
  }

  /** A packet that finds nothing held. It goes out alone at once when there was a pause, when it is
      urgent or when no aggregate can be allocated; otherwise it starts one. */
  lemma SendStarts(a: State, v: Version, p: Packet, len: nat, input: Input)
    requires a.maxDatagrams != 1 && a.held == []
    ensures var (b, fate) := a.AfterSend(v, p, len, input);
            if input.first.spaced || input.first.Urgent() || !input.first.aggRoom
            then AloneOrDropped(b, fate, p, a.groups, input.first)
            else fate == Kept && Holds(b, [p], a.groups, input.after)
  {
    hide State.TickedAll, FrameOf;
    TicksHold(a.Passed(v, p, len, input.first).0, input.after);
  }

  /** Nothing is held, and the packet was sent by itself or, without memory, dropped. */
  ghost predicate AloneOrDropped(b: State, fate: Fate, p: Packet, groups: seq<seq<Packet>>, luck: Luck) {
    && b.held == [] && (fate == Kept <==> luck.skbRoom) && fate != Again
    && b.groups == groups + if luck.skbRoom then [[p]] else []
  }

  /** A packet that does not fit behind what is held: that goes out first, in a buffer of its own, and
      then the packet is treated as one that finds nothing held. */
  lemma SendFlushes(a: State, v: Version, p: Packet, len: nat, input: Input)
    requires a.maxDatagrams != 1 && a.held != [] && |Frames(v, a.held)| + len + HdrLen(v) >= a.maxSize
    ensures var (b, fate) := a.AfterSend(v, p, len, input);
            if input.second.spaced || input.second.Urgent() || !input.second.aggRoom
            then AloneOrDropped(b, fate, p, a.groups + [a.held], input.second)
            else fate == Kept && Holds(b, [p], a.groups + [a.held], input.after)
  {
    hide Frames, FrameOf, State.TickedAll;
    var one := a.Passed(v, p, len, input.first).0;
    TicksHold(one, input.between);
    TicksHold(one.TickedAll(input.between).Passed(v, p, len, input.second).0, input.after);
  }

  /** Without aggregation every packet goes out by itself. */
  lemma SendPlain(a: State, v: Version, p: Packet, len: nat, input: Input)
    requires a.maxDatagrams == 1
    ensures var (b, fate) := a.AfterSend(v, p, len, input);
            && (fate == Kept <==> input.first.skbRoom) && fate != Again
            && b == a.(groups := a.groups + if fate == Kept then [[p]] else [])
  {
  }

  /** Limits are set once: as soon as aggregation is on, no later setting changes them. */
  lemma {:induction false} LimitsStay(a: State, v: Version, dev: nat, ops: seq<Op>)
    requires MUX_BASE + dev < 256 && AllOk(ops)
    ensures a.maxDatagrams != 1 ==>
              var b := a.DoneAll(v, dev, ops); b.maxDatagrams == a.maxDatagrams && b.maxSize == a.maxSize
    ensures a.maxDatagrams == 1 && (forall op :: op in ops && op.Store? ==> op.maxDatagrams <= 1) ==>
              var b := a.DoneAll(v, dev, ops); b.maxDatagrams == 1 && b.maxSize == a.maxSize
    decreases |ops|
  {
    hide State.AfterSend;
    if ops != [] {
      var n := |ops| - 1;
      LimitsStay(a, v, dev, ops[..n]);
      assert ops[n] in ops && forall op :: op in ops[..n] ==> op in ops;
      var b := a.DoneAll(v, dev, ops[..n]);
      if ops[n].Send? {
        SendKeepsLimits(b, v, PacketOf(v, dev, ops[n].input), SkbLen(v, ops[n].input), ops[n].input);
      }
    }
  }

  // ---------------------------------------------------------------------------
  // When a buffer is overrun

  /** A pass overruns when it starts an aggregate with a frame longer than the limit, and holds
      nothing when the packet has to come again. */
  lemma PassOverruns(a: State, v: Version, p: Packet, len: nat, luck: Luck)
    ensures var (b, fate) := a.Passed(v, p, len, luck);
            && b.maxDatagrams == a.maxDatagrams && b.maxSize == a.maxSize
            && (b.overran <==> a.overran || (a.held == [] && luck.Opens() && |FrameOf(v, p)| > a.maxSize))
            && (fate == Again <==> a.held != [] && |Frames(v, a.held)| + len + HdrLen(v) >= a.maxSize)
            && (fate == Again ==> b.held == [])
  {
    hide Frames, FrameOf;
  }

  /** A send overruns exactly when it starts an aggregate with a frame longer than the limit: the
      first frame of an aggregate is not checked. */
  lemma OverrunsIff(a: State, v: Version, p: Packet, len: nat, input: Input)
    ensures a.AfterSend(v, p, len, input).0.overran <==>
              || a.overran
              || (a.maxDatagrams != 1 && |FrameOf(v, p)| > a.maxSize
                  && if a.held == [] then input.first.Opens()
                     else |Frames(v, a.held)| + len + HdrLen(v) >= a.maxSize && input.second.Opens())
  {
    hide State.Passed, State.TickedAll, Frames, FrameOf;
    var one := a.Passed(v, p, len, input.first).0;
    PassOverruns(a, v, p, len, input.first);
    TicksKeep(one, input.between);
    TicksKeep(one, input.after);
    var later := one.TickedAll(input.between);
    PassOverruns(later, v, p, len, input.second);
    TicksKeep(later.Passed(v, p, len, input.second).0, input.after);
  }

  /** The most a packet can take in an aggregate. */
  function Room(v: Version, input: Input): nat
    requires input.Ok()
  {
    HdrLen(v) + |input.skb| - input.ipOffset + 3
  }

  /** The frame alone fits `bound`, and no limit below it is set. */
  predicate Within(v: Version, op: Op, bound: nat) {
    match op
    case Send(input) => input.Ok() && Room(v, input) <= bound
    case Happens(_) => true
    case Store(datagrams, size) => datagrams > 1 ==> bound <= size
  }

  predicate AllWithin(v: Version, ops: seq<Op>, bound: nat) {
    forall i :: 0 <= i < |ops| ==> Within(v, ops[i], bound)
  }

  /** Nothing is aggregated yet, or the limit leaves room for `bound`. */
  predicate Roomy(a: State, bound: nat) { a.maxDatagrams == 1 || a.maxSize >= bound }

  lemma StepStaysRoomy(a: State, v: Version, dev: nat, op: Op, bound: nat)
    requires MUX_BASE + dev < 256 && Roomy(a, bound) && Within(v, op, bound)
    requires op.Send? ==> op.input.Ok()
    ensures Roomy(a.Done(v, dev, op), bound) && a.Done(v, dev, op).overran == a.overran
  {
    if op.Send? {
      OverrunsIff(a, v, PacketOf(v, dev, op.input), SkbLen(v, op.input), op.input);
      SendKeepsLimits(a, v, PacketOf(v, dev, op.input), SkbLen(v, op.input), op.input);
    }
  }

  lemma SendKeepsLimits(a: State, v: Version, p: Packet, len: nat, input: Input)
    ensures var b := a.AfterSend(v, p, len, input).0; b.maxDatagrams == a.maxDatagrams && b.maxSize == a.maxSize
  {
    hide State.Passed, State.TickedAll;
    var one := a.Passed(v, p, len, input.first).0;
    PassOverruns(a, v, p, len, input.first);
    TicksKeep(one, input.between);
    TicksKeep(one, input.after);
    var later := one.TickedAll(input.between);
    PassOverruns(later, v, p, len, input.second);
    TicksKeep(later.Passed(v, p, len, input.second).0, input.after);
  }

  /** When each frame alone fits, no run overruns a buffer. */
  lemma {:induction false} NeverOverrun(a: State, v: Version, dev: nat, ops: seq<Op>, bound: nat)
    requires MUX_BASE + dev < 256 && AllOk(ops) && Roomy(a, bound) && AllWithin(v, ops, bound)
    ensures Roomy(a.DoneAll(v, dev, ops), bound) && a.DoneAll(v, dev, ops).overran == a.overran
    decreases |ops|
  {
    if ops != [] {
      var n := |ops| - 1;
      NeverOverrun(a, v, dev, ops[..n], bound);
      StepStaysRoomy(a.DoneAll(v, dev, ops[..n]), v, dev, ops[n], bound);
    }
  }

  // ---------------------------------------------------------------------------
  // Runs and what comes out of them

  /** All packets are for one device. */
  predicate AllFor(ps: seq<Packet>, dev: nat) {
    forall k :: 0 <= k < |ps| ==> ps[k].dev == dev
  }

  predicate AllOk(ops: seq<Op>) {
    forall i :: 0 <= i < |ops| && ops[i].Send? ==> ops[i].input.Ok()
  }

  predicate Lucky(ops: seq<Op>) {
    forall i :: 0 <= i < |ops| && ops[i].Send? ==> ops[i].input.Lucky()
  }

  /** The (device, packet) list that a run was given. */
  ghost function Sent(dev: nat, ops: seq<Op>): seq<(nat, seq<byte>)>
    requires AllOk(ops)
  {
    if ops == [] then []
    else
      Sent(dev, ops[..|ops| - 1]) + Given(dev, ops[|ops| - 1])
  }

  ghost function Given(dev: nat, op: Op): seq<(nat, seq<byte>)>
    requires op.Send? ==> op.input.Ok()
  {
    if op.Send? then [(dev, op.input.skb[op.input.ipOffset..])] else []
  }

  lemma SentNone(dev: nat)
    ensures Sent(dev, []) == []
  {
  }

  lemma SentNext(dev: nat, ops: seq<Op>, i: nat)
    requires i < |ops| && AllOk(ops)
    ensures Sent(dev, ops[..i + 1]) == Sent(dev, ops[..i]) + Given(dev, ops[i])
  {
    assert ops[..i + 1][..i] == ops[..i];
  }

  lemma ContentsSum(a: seq<Packet>, b: seq<Packet>)
    ensures Contents(a + b) == Contents(a) + Contents(b)
  {
  }

  /** The receiver decodes the buffers one after the other. */
  ghost function DecodeAll(cfg: Config, buffers: seq<seq<byte>>, room: nat): seq<(nat, seq<byte>)>
    requires cfg.Ok()
  {
    if buffers == [] then []
    else DecodeAll(cfg, buffers[..|buffers| - 1], room) + Receive(cfg, buffers[|buffers| - 1], 0, room).list
  }

  lemma DecodeBuffer(cfg: Config, v: Version, ps: seq<Packet>, room: nat)
    requires cfg.Ok() && cfg.minPad == 0 && AllSendable(cfg, ps) && |ps| <= room
    ensures Receive(cfg, Frames(v, ps), 0, room).list == Contents(ps)
  {
    var s := Frames(v, ps);
    assert s[0..] == s;
    FramesCarry(v, ps, s, 0);
    DecodeFrames(cfg, v, ps, s, 0, room);
  }

  /** Decoding what was emitted, in the order it was detached, gives back the packets. */
  lemma {:induction false} DecodeEmitted(cfg: Config, v: Version, emitted: seq<seq<byte>>, groups: seq<seq<Packet>>,
                                         room: nat)
    requires cfg.Ok() && cfg.minPad == 0 && Matches(v, emitted, groups)
    requires forall i :: 0 <= i < |groups| ==> AllSendable(cfg, groups[i]) && |groups[i]| <= room
    ensures DecodeAll(cfg, emitted, room) == Contents(Flat(groups))
    decreases |emitted|
  {
    if emitted != [] {
      var n := |emitted| - 1;
      DecodeEmitted(cfg, v, emitted[..n], groups[..n], room);
      DecodeBuffer(cfg, v, groups[n], room);
      ContentsSum(Flat(groups[..n]), groups[n]);
    } else {
      assert Contents([]) == [];
    }
  }

  lemma {:induction false} FlatMember(groups: seq<seq<Packet>>, i: nat, k: nat)
    requires i < |groups| && k < |groups[i]|
    ensures groups[i][k] in Flat(groups) && |groups[i]| <= |Flat(groups)|
    decreases |groups|
  {
    var n := |groups| - 1;
    if i < n { FlatMember(groups[..n], i, k); }
  }

  lemma GroupsSendable(cfg: Config, groups: seq<seq<Packet>>)
    requires AllSendable(cfg, Flat(groups))
    ensures forall i :: 0 <= i < |groups| ==> AllSendable(cfg, groups[i]) && |groups[i]| <= |Flat(groups)|
  {
    forall i | 0 <= i < |groups| ensures AllSendable(cfg, groups[i]) && |groups[i]| <= |Flat(groups)| {
      forall k | 0 <= k < |groups[i]| ensures Sendable(cfg, groups[i][k]) && Fits(groups[i][k]) {
        FlatMember(groups, i, k);
      }
      if groups[i] != [] { FlatMember(groups, i, 0); }
    }
  }

  /** What the receiver gets from the emitted buffers, and then what is still held, are exactly
      the packets that were kept, in order. */
  lemma DecodeKept(cfg: Config, v: Version, emitted: seq<seq<byte>>, groups: seq<seq<Packet>>,
                   held: seq<Packet>, kept: seq<Packet>, room: nat)
    requires cfg.Ok() && cfg.minPad == 0 && Matches(v, emitted, groups) && kept == Flat(groups) + held
    requires AllSendable(cfg, kept) && |kept| <= room
    ensures DecodeAll(cfg, emitted, room) + Contents(held) == Contents(kept)
  {
    forall k | 0 <= k < |Flat(groups)| ensures Sendable(cfg, Flat(groups)[k]) && Fits(Flat(groups)[k]) {
      assert Flat(groups)[k] == kept[k];
    }
    GroupsSendable(cfg, groups);
    DecodeEmitted(cfg, v, emitted, groups, room);
    ContentsSum(Flat(groups), held);
  }

  /** IP packets for registered devices, within the MTU, whose padded length fits 16 bits. */
  ghost predicate Good(cfg: Config, list: seq<(nat, seq<byte>)>) {
    forall k :: 0 <= k < |list| ==>
      && list[k].0 < cfg.mode <= |cfg.devs| && cfg.devs[list[k].0].Registered?
      && list[k].1 != [] && IsIp(list[k].1[0]) && |list[k].1| <= cfg.devs[list[k].0].mtu && |list[k].1| <= 0xFFFC
  }

  lemma GoodIsSendable(cfg: Config, ps: seq<Packet>)
    requires Good(cfg, Contents(ps))
    ensures AllSendable(cfg, ps)
  {
    forall k | 0 <= k < |ps| ensures Sendable(cfg, ps[k]) && Fits(ps[k]) {
      assert Contents(ps)[k] == (ps[k].dev, ps[k].data);
    }
  }

  const NEW: State := State([], [], false, false, 1, 1500, false)

  /** A new aggregator after any run without failed allocations. */
  method AfterRun(version: Version, dev: nat, ops: seq<Op>, ghost cfg: Config, ghost bound: nat) returns (a: Aggregator)
    requires MUX_BASE + dev < 256 && AllOk(ops) && Lucky(ops) && Good(cfg, Sent(dev, ops))
    ensures fresh(a) && a.version == version && a.Valid() && a.Armed() && Contents(a.kept) == Sent(dev, ops)
    ensures a.Abs() == NEW.DoneAll(version, dev, ops) && (AllWithin(version, ops, bound) ==> !a.overran)
    ensures AllSendable(cfg, a.kept) && |a.kept| <= |ops|
  {
    hide State.DoneAll, Frames, Flat, Matches, Good, AllSendable, AllOk, Lucky, AllWithin;
    a := new Aggregator(version, dev);
    assert Contents(a.kept) == [];
    a.Drive(ops, bound);
    assert Contents(a.kept) == Sent(dev, ops);
    GoodIsSendable(cfg, a.kept);
    SentLength(dev, ops);
  }

  /** Aggregating and decoding is the identity, for every run without failed allocations that
      overruns no buffer; none does when each frame alone fits some `bound` that no limit is set
      below ... */
  method AggregateThenDecode(version: Version, dev: nat, ops: seq<Op>, ghost cfg: Config, ghost room: nat,
                             ghost bound: nat)
    returns (a: Aggregator)
    requires MUX_BASE + dev < 256 && AllOk(ops) && Lucky(ops)
    requires cfg.Ok() && cfg.minPad == 0 && Good(cfg, Sent(dev, ops)) && room >= |ops|
    ensures a.Valid() && a.Armed() && a.Abs() == NEW.DoneAll(version, dev, ops)
    ensures AllWithin(version, ops, bound) ==> !a.overran
    ensures !a.overran ==> DecodeAll(cfg, a.emitted, room) + Contents(a.held) == Sent(dev, ops)
  {
    a := AfterRun(version, dev, ops, cfg, bound);
    DecodeKept(cfg, version, a.emitted, a.groups, a.held, a.kept, room);
  }

  /** ... and once the timer has expired and the worker has run, all of it has been sent. */
  method AggregateAndSettle(version: Version, dev: nat, ops: seq<Op>, ghost cfg: Config, ghost room: nat,
                            ghost bound: nat)
    returns (a: Aggregator)
    requires MUX_BASE + dev < 256 && AllOk(ops) && Lucky(ops)
    requires cfg.Ok() && cfg.minPad == 0 && Good(cfg, Sent(dev, ops)) && room >= |ops|
    ensures a.Valid() && a.held == []
    ensures a.Abs() == NEW.DoneAll(version, dev, ops).Ticked(TimerFires).Ticked(WorkRuns)
    ensures AllWithin(version, ops, bound) ==> !a.overran
    ensures !a.overran ==> DecodeAll(cfg, a.emitted, room) == Sent(dev, ops)
  {
    a := AfterRun(version, dev, ops, cfg, bound);
    a.Settle();
    DecodeKept(cfg, version, a.emitted, a.groups, a.held, a.kept, room);
    assert Contents(a.held) == [];
  }

  /** A limit below the size of a packet is accepted, and the next packet overruns its buffer. */
  lemma SmallLimitOverruns(v: Version, dev: nat, input: Input)
    requires MUX_BASE + dev < 256 && input.Ok() && |input.skb| - input.ipOffset >= 20 && input.first.Opens()
    ensures NEW.DoneAll(v, dev, [Store(2, 10), Send(input)]).overran
  {
    var ops := [Store(2, 10), Send(input)];
    assert ops[..1] == [Store(2, 10)] && ops[..1][..0] == [];
    var a := NEW.DoneAll(v, dev, ops[..1]);
    assert NEW.DoneAll(v, dev, []) == NEW;
    assert a == NEW.Done(v, dev, Store(2, 10));
    OverrunsIff(a, v, PacketOf(v, dev, input), SkbLen(v, input), input);
  }

  // ---------------------------------------------------------------------------
  // Several devices on one link

  /** What one device is given of a decoded list. */
  ghost function Only(list: seq<(nat, seq<byte>)>, dev: nat): seq<(nat, seq<byte>)> {
    if list == [] then []
    else Only(list[..|list| - 1], dev) + if list[|list| - 1].0 == dev then [list[|list| - 1]] else []
  }

  lemma {:induction false} OnlySum(a: seq<(nat, seq<byte>)>, b: seq<(nat, seq<byte>)>, dev: nat)
    ensures Only(a + b, dev) == Only(a, dev) + Only(b, dev)
    decreases |b|
  {
    if b == [] {
      assert a + b == a;
    } else {
      assert (a + b)[..|a + b| - 1] == a + b[..|b| - 1];
      OnlySum(a, b[..|b| - 1], dev);
    }
  }

  lemma {:induction false} OnlyOne(ps: seq<Packet>, owner: nat, dev: nat)
    requires AllFor(ps, owner)
    ensures Only(Contents(ps), dev) == if owner == dev then Contents(ps) else []
  {
    if ps != [] {
      var n := |ps| - 1;
      OnlyOne(ps[..n], owner, dev);
      assert Contents(ps)[..n] == Contents(ps[..n]) && Contents(ps)[n].0 == owner;
      assert Contents(ps) == Contents(ps[..n]) + [Contents(ps)[n]];
    }
  }

  /** The groups that device `dev` contributed to the link, in order. */
  ghost function Mine(owners: seq<nat>, groups: seq<seq<Packet>>, dev: nat): seq<seq<Packet>>
    requires |owners| == |groups|
  {
    if groups == [] then []
    else
      var n := |groups| - 1;
      Mine(owners[..n], groups[..n], dev) + if owners[n] == dev then [groups[n]] else []
  }

  lemma {:induction false} OnlyMine(owners: seq<nat>, groups: seq<seq<Packet>>, dev: nat)
    requires |owners| == |groups| && forall i :: 0 <= i < |groups| ==> AllFor(groups[i], owners[i])
    ensures Only(Contents(Flat(groups)), dev) == Contents(Flat(Mine(owners, groups, dev)))
    decreases |groups|
  {
    if groups == [] {
      assert Contents([]) == [];
    } else {
      var n := |groups| - 1;
      OnlyMine(owners[..n], groups[..n], dev);
      ContentsSum(Flat(groups[..n]), groups[n]);
      OnlySum(Contents(Flat(groups[..n])), Contents(groups[n]), dev);
      OnlyOne(groups[n], owners[n], dev);
      if owners[n] == dev {
        FlatSnoc(Mine(owners[..n], groups[..n], dev), groups[n]);
        ContentsSum(Flat(Mine(owners[..n], groups[..n], dev)), groups[n]);
      } else {
        assert Mine(owners, groups, dev) == Mine(owners[..n], groups[..n], dev);
      }
    }
  }

  /** Buffers of several devices reach the link in any interleaving. Each device still gets back
      exactly what it sent, in order, up to what its aggregator holds. */
  lemma SharedLink(cfg: Config, v: Version, owners: seq<nat>, emitted: seq<seq<byte>>, groups: seq<seq<Packet>>,
                   dev: nat, held: seq<Packet>, kept: seq<Packet>, room: nat)
    requires cfg.Ok() && cfg.minPad == 0 && Matches(v, emitted, groups) && |owners| == |groups|
    requires forall i :: 0 <= i < |groups| ==>
               AllFor(groups[i], owners[i]) && AllSendable(cfg, groups[i]) && |groups[i]| <= room
    requires kept == Flat(Mine(owners, groups, dev)) + held
    ensures Only(DecodeAll(cfg, emitted, room), dev) + Contents(held) == Contents(kept)
  {
    DecodeEmitted(cfg, v, emitted, groups, room);
    OnlyMine(owners, groups, dev);
    ContentsSum(Flat(Mine(owners, groups, dev)), held);
  }

  lemma {:induction false} SentLength(dev: nat, ops: seq<Op>)
    requires AllOk(ops)
    ensures |Sent(dev, ops)| <= |ops|
  {
    if ops != [] { SentLength(dev, ops[..|ops| - 1]); }
  }
}
