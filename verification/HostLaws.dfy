/** What every operation of the MHI host keeps (invariants of module HostSpec). */
module HostLaws {
  import opened Rings
  import opened PowerStates
  import opened HostSpec

  ghost function OutBufs(out: seq<Item>): (s: seq<nat>)
    ensures |s| == |out|
  {
    seq(|out|, k requires 0 <= k < |out| => out[k].info.cbBuf)
  }

  ghost function Returned(rs: seq<Result>): (s: seq<nat>)
    ensures |s| == |rs|
  {
    seq(|rs|, k requires 0 <= k < |rs| => rs[k].buf)
  }

  /** Exactly once and in queue order: the accepted buffers are the returned ones followed
      by the outstanding ones. */
  ghost predicate Fifo(c: Chan) { c.accepted == Returned(c.returned) + OutBufs(c.out) }

  /** While doorbells are legal and work is outstanding, the device knows about all of it. */
  ghost predicate DoorbellOk(pm: Pm, c: Chan)
    requires ChanOk(c)
  {
    pm == M0 && c.out != [] ==>
      var db := Phys(c.cfg, WpSlot(c));
      && c.ctxtWp == db
      && (if c.cfg.burst then !c.dbMode else c.doorbells != [] && c.dbVal == db)
  }

  /** db_val is the last value that was written, and from a start to the first queue call a doorbell
      is due. */
  ghost predicate DoorbellLog(c: Chan) {
    && (c.doorbells != [] ==> c.dbVal == c.doorbells[|c.doorbells| - 1])
    && (c.cmd.Starting? || (c.started && |c.accepted| <= c.origin) ==> c.dbMode)
  }

  /** The read pointer is the log position, counted from the last start, round the ring. */
  ghost predicate SlotOk(c: Chan) {
    c.started || c.cmd.Starting? ==>
      && c.origin <= |c.returned| && c.cfg.elements > 0
      && c.rp == Cyc(|c.returned| - c.origin, c.cfg.elements)
  }

  ghost predicate ChanInv(pm: Pm, c: Chan) {
    && ChanOk(c) && Fifo(c) && DoorbellOk(pm, c) && DoorbellLog(c) && SlotOk(c)
    && (c.enabled ==> c.started) && (!c.started ==> c.out == [])
    && (c.cmd.Stopping? <==> c.started && !c.enabled) && (c.cmd.Starting? ==> !c.started)
  }

  function Load(c: Chan): nat { if c.cfg.uplink then |c.out| else 0 }

  /** The vote held for the channel's command. */
  function Held(c: Chan): nat {
    if c.cmd.Starting? || (c.cmd.Stopping? && c.cmd.voted) then 1 else 0
  }

  function Sum(f: Chan -> nat, chans: seq<Chan>): nat {
    if chans == [] then 0 else f(chans[0]) + Sum(f, chans[1..])
  }

  function TotalLoad(chans: seq<Chan>): nat { Sum(Load, chans) }

  function Commands(chans: seq<Chan>): nat { Sum(Held, chans) }

  /** pending_pkts counts the outstanding uplink transfers, plus `extra` ones that were taken
      off a ring while their callback still runs. One vote is held while it is positive, and one
      for each command in flight. */
  ghost predicate VotesOk(h: Host, extra: nat) {
    && h.pending == TotalLoad(h.chans) + extra
    && h.votes == (if h.pending > 0 then 1 else 0) + Commands(h.chans)
  }

  ghost predicate Inv(h: Host, extra: nat) {
    && (forall i :: 0 <= i < |h.chans| ==> ChanInv(h.pm, h.chans[i]))
    && VotesOk(h, extra)
  }

  lemma {:induction false} SumOfUpdate(f: Chan -> nat, chans: seq<Chan>, i: nat, c: Chan)
    requires i < |chans|
    ensures Sum(f, chans[i := c]) == Sum(f, chans) - f(chans[i]) + f(c)
  {
    if i == 0 {
      assert chans[i := c][1..] == chans[1..];
    } else {
      assert chans[i := c][1..] == chans[1..][i - 1 := c];
      SumOfUpdate(f, chans[1..], i - 1, c);
    }
  }

  lemma {:induction false} SumOfSame(f: Chan -> nat, chans: seq<Chan>, chans': seq<Chan>)
    requires |chans| == |chans'|
    requires forall i :: 0 <= i < |chans| ==> f(chans[i]) == f(chans'[i])
    ensures Sum(f, chans) == Sum(f, chans')
  {
    if chans != [] { SumOfSame(f, chans[1..], chans'[1..]); }
  }

  /** What an update of one channel does to both sums. */
  lemma LoadOfUpdate(chans: seq<Chan>, i: nat, c: Chan)
    requires i < |chans|
    ensures TotalLoad(chans[i := c]) == TotalLoad(chans) - Load(chans[i]) + Load(c)
    ensures Commands(chans[i := c]) == Commands(chans) - Held(chans[i]) + Held(c)
  {
    SumOfUpdate(Load, chans, i, c);
    SumOfUpdate(Held, chans, i, c);
  }

  // ---------------------------------------------------------------------------
  // One channel

  lemma PushFifo(pm: Pm, c: Chan, r: Request)
    requires ChanOk(c) && Fifo(c) && |c.out| + 1 < c.cfg.elements
    ensures Fifo(Enqueued(pm, c, r))
  {
    assert OutBufs(Enqueued(pm, c, r).out) == OutBufs(c.out) + [r.buf];
  }

  lemma PopFifo(c: Chan, status: Status, bytes: nat)
    requires ChanOk(c) && Fifo(c) && c.out != []
    ensures Fifo(Pop(c, status, bytes))
  {
    var c1 := Pop(c, status, bytes);
    assert Returned(c1.returned) == Returned(c.returned) + [c.out[0].info.cbBuf];
    assert OutBufs(c.out) == [c.out[0].info.cbBuf] + OutBufs(c1.out);
  }

  /** What the FIFO law says about the buffers still outstanding. */
  ghost predicate OutstandingFifo(c: Chan) {
    && |c.accepted| == |c.returned| + |c.out|
    && forall k :: 0 <= k < |c.out| ==> c.out[k].info.cbBuf == c.accepted[|c.returned| + k]
  }

  lemma FifoOutstanding(c: Chan)
    requires Fifo(c)
    ensures OutstandingFifo(c)
  {
  }

  lemma PushKeeps(pm: Pm, c: Chan, r: Request)
    requires ChanInv(pm, c) && c.started && |c.out| + 1 < c.cfg.elements
    ensures ChanInv(pm, Enqueued(pm, c, r))
  {
    PushFifo(pm, c, r);
  }

  lemma PopKeeps(pm: Pm, c: Chan, status: Status, bytes: nat)
    requires ChanInv(pm, c) && c.out != []
    ensures ChanInv(pm, Pop(c, status, bytes))
  {
    PopFifo(c, status, bytes);
    CycNext(|c.returned| - c.origin, c.cfg.elements);
    var c1 := Pop(c, status, bytes);
    assert c1.out != [] ==> WpSlot(c1) == WpSlot(c);
  }

  // ---------------------------------------------------------------------------
  // Every operation

  lemma QueueKeeps(h: Host, i: nat, r: Request, extra: nat)
    requires Inv(h, extra) && i < |h.chans| && h.chans[i].started
    ensures Inv(Queue(h, i, r), extra)
  {
    if QueueReturn(h, i, r) == Queued {
      PushKeeps(h.pm, h.chans[i], r);
      LoadOfUpdate(h.chans, i, Enqueued(h.pm, h.chans[i], r));
    }
  }

  lemma {:induction false} QueueAllKeeps(h: Host, calls: seq<Call>, extra: nat)
    requires Inv(h, extra)
    requires forall k :: 0 <= k < |calls| ==> calls[k].chan < |h.chans| && h.chans[calls[k].chan].started
    ensures Inv(QueueAll(h, calls), extra)
    decreases |calls|
  {
    if calls != [] {
      QueueKeeps(h, calls[0].chan, calls[0].req, extra);
      QueueAllKeeps(Queue(h, calls[0].chan, calls[0].req), calls[1..], extra);
    }
  }

  lemma CompleteOneKeeps(h: Host, i: nat, status: Status, bytes: nat, client: Client)
    requires Inv(h, 0) && i < |h.chans| && h.chans[i].out != [] && ClientOk(h, client)
    ensures Inv(CompleteOne(h, i, status, bytes, client), 0)
  {
    var c := h.chans[i];
    var h1 := Set(h, i, Pop(c, status, bytes));
    PopKeeps(h.pm, c, status, bytes);
    LoadOfUpdate(h.chans, i, Pop(c, status, bytes));
    QueueAllKeeps(h1, client(i, |h1.chans[i].returned|), if c.cfg.uplink then 1 else 0);
  }

  lemma {:induction false} CompleteKeeps(h: Host, i: nat, count: nat, status: Status, bytes: nat, client: Client)
    requires Inv(h, 0) && i < |h.chans| && count <= |h.chans[i].out| && ClientOk(h, client)
    ensures Inv(Complete(h, i, count, status, bytes, client), 0)
    decreases count
  {
    hide CompleteOne, ClientOk, VotesOk, Fifo, DoorbellOk, DoorbellLog, SlotOk;
    if count > 0 {
      CompleteOneKeeps(h, i, status, bytes, client);
      CompleteKeeps(CompleteOne(h, i, status, bytes, client), i, count - 1, status, bytes, client);
    }
  }

  /** `count` results in queue order. */
  ghost function Results(out: seq<Item>, count: nat, status: Status, bytes: nat): (rs: seq<Result>)
    requires count <= |out|
    ensures |rs| == count
  {
    seq(count, k requires 0 <= k < count => Result(out[k].info.cbBuf, status, bytes))
  }

  /** What is left of a channel after `count` completions: the results were appended, the
      rest of the queue is still there in order, and more may have been queued behind it. */
  ghost predicate HandedBack(c: Chan, c': Chan, count: nat, status: Status, bytes: nat)
    requires count <= |c.out|
  {
    && c'.returned == c.returned + Results(c.out, count, status, bytes)
    && c.out[count..] <= c'.out
    && c.accepted <= c'.accepted
    && c'.origin == c.origin && c'.cfg == c.cfg
    && c'.enabled == c.enabled && c'.started == c.started && c'.cmd == c.cmd
  }

  lemma CompleteOneEffect(h: Host, i: nat, status: Status, bytes: nat, client: Client)
    requires HostOk(h) && i < |h.chans| && h.chans[i].out != [] && ClientOk(h, client)
    ensures var h' := CompleteOne(h, i, status, bytes, client);
            && HandedBack(h.chans[i], h'.chans[i], 1, status, bytes)
            && forall j :: 0 <= j < |h.chans| && j != i ==> ChanGrew(h.chans[j], h'.chans[j])
  {
    var h1 := Set(h, i, Pop(h.chans[i], status, bytes));
    assert Grew(h1, QueueAll(h1, client(i, |h1.chans[i].returned|)));
  }

  lemma HandedBackTrans(c: Chan, c1: Chan, c2: Chan, count: nat, status: Status, bytes: nat)
    requires 0 < count <= |c.out| && count - 1 <= |c1.out|
    requires HandedBack(c, c1, 1, status, bytes) && HandedBack(c1, c2, count - 1, status, bytes)
    ensures HandedBack(c, c2, count, status, bytes)
  {
    assert c1.out[..|c.out| - 1] == c.out[1..];
    assert Results(c.out, count, status, bytes) ==
           Results(c.out, 1, status, bytes) + Results(c1.out, count - 1, status, bytes);
    assert c.out[count..] == c.out[1..][count - 1..];
  }

  lemma GrewTrans(c: Chan, c1: Chan, c2: Chan)
    requires ChanGrew(c, c1) && ChanGrew(c1, c2)
    ensures ChanGrew(c, c2)
  {
  }

  /** Completions hand back exactly the oldest `count` transfers, in order, whatever the
      callbacks queue ... */
  lemma {:induction false} CompleteEffect(h: Host, i: nat, count: nat, status: Status, bytes: nat, client: Client)
    requires HostOk(h) && i < |h.chans| && count <= |h.chans[i].out| && ClientOk(h, client)
    ensures HandedBack(h.chans[i], Complete(h, i, count, status, bytes, client).chans[i], count, status, bytes)
    decreases count
  {
    if count > 0 {
      var h1 := CompleteOne(h, i, status, bytes, client);
      CompleteOneEffect(h, i, status, bytes, client);
      CompleteEffect(h1, i, count - 1, status, bytes, client);
      HandedBackTrans(h.chans[i], h1.chans[i], Complete(h1, i, count - 1, status, bytes, client).chans[i],
                      count, status, bytes);
    }
  }

  /** ... and other channels only see queue calls. */
  lemma {:induction false} CompleteElsewhere(h: Host, i: nat, count: nat, status: Status, bytes: nat, client: Client,
                                             j: nat)
    requires HostOk(h) && i < |h.chans| && count <= |h.chans[i].out| && ClientOk(h, client)
    requires j < |h.chans| && j != i
    ensures ChanGrew(h.chans[j], Complete(h, i, count, status, bytes, client).chans[j])
    decreases count
  {
    if count > 0 {
      var h1 := CompleteOne(h, i, status, bytes, client);
      CompleteOneEffect(h, i, status, bytes, client);
      CompleteElsewhere(h1, i, count - 1, status, bytes, client, j);
      GrewTrans(h.chans[j], h1.chans[j], Complete(h1, i, count - 1, status, bytes, client).chans[j]);
    }
  }

  /** A change to one channel that keeps its load, with the votes its command takes. */
  lemma SetKeeps(h: Host, i: nat, c: Chan)
    requires Inv(h, 0) && i < |h.chans| && ChanInv(h.pm, c) && Load(c) == Load(h.chans[i])
    ensures Inv(Vote(Set(h, i, c), Held(c) - Held(h.chans[i])), 0)
  {
    LoadOfUpdate(h.chans, i, c);
  }

  lemma DbChanKeeps(pm: Pm, c: Chan)
    requires ChanInv(pm, c)
    ensures var c1 := c.(dbMode := true);
            ChanOk(c1) && var c2 := if c1.out != [] && DbValid(pm) then RingDb(c1) else c1;
                          ChanInv(pm, c2) && Load(c2) == Load(c) && Held(c2) == Held(c)
  {
  }

  lemma XferKeeps(h: Host, i: nat, code: Code, ptr: nat, bytes: nat, client: Client)
    requires Inv(h, 0) && i < |h.chans| && ClientOk(h, client)
    requires h.chans[i].enabled && IsCompletion(code) ==> NamesOutstanding(h.chans[i], ptr)
    ensures Inv(Xfer(h, i, code, ptr, bytes, client), 0)
  {
    var c := h.chans[i];
    if c.enabled && IsCompletion(code) {
      CompleteKeeps(h, i, CompletionCount(c, ptr), StatusOf(code), bytes % 0x10000, client);
    } else if c.enabled && (code == OobCode || code == DbModeCode) {
      DbChanKeeps(h.pm, c);
      SetKeeps(h, i, Xfer(h, i, code, ptr, bytes, client).chans[i]);
    }
  }

  lemma DropKeeps(h: Host, i: nat)
    requires Inv(h, 0) && i < |h.chans| && h.chans[i].out != []
    ensures Inv(Set(PendDec(h, h.chans[i].cfg.uplink), i, Pop(h.chans[i], NotConn, 0)), 0)
  {
    PopKeeps(h.pm, h.chans[i], NotConn, 0);
    LoadOfUpdate(h.chans, i, Pop(h.chans[i], NotConn, 0));
  }

  lemma {:induction false} DrainKeeps(h: Host, i: nat)
    requires Inv(h, 0) && i < |h.chans|
    ensures Inv(Drain(h, i), 0)
    decreases |h.chans[i].out|
  {
    var c := h.chans[i];
    if c.out != [] {
      DropKeeps(h, i);
      DrainKeeps(Set(PendDec(h, c.cfg.uplink), i, Pop(c, NotConn, 0)), i);
    }
  }

  /** A reset hands back everything that is outstanding, in order, with -ENOTCONN, and touches
      no other channel. */
  lemma {:induction false} DrainEffect(h: Host, i: nat)
    requires HostOk(h) && i < |h.chans|
    ensures forall j :: 0 <= j < |h.chans| && j != i ==> Drain(h, i).chans[j] == h.chans[j]
    ensures HandedBack(h.chans[i], Drain(h, i).chans[i], |h.chans[i].out|, NotConn, 0)
    ensures Drain(h, i).chans[i].accepted == h.chans[i].accepted
    decreases |h.chans[i].out|
  {
    var c := h.chans[i];
    if c.out != [] {
      var c1 := Pop(c, NotConn, 0);
      var h1 := Set(PendDec(h, c.cfg.uplink), i, c1);
      DrainEffect(h1, i);
      HandedBackTrans(c, c1, Drain(h1, i).chans[i], |c.out|, NotConn, 0);
    }
  }

  lemma BeginStopKeeps(h: Host, i: nat)
    requires Inv(h, 0) && i < |h.chans|
    ensures Inv(BeginStop(h, i), 0)
  {
    if h.chans[i].enabled { SetKeeps(h, i, BeginStop(h, i).chans[i]); }
  }

  /** Draining changes nothing about the command. */
  lemma DrainVote(h: Host, i: nat, n: int)
    requires HostOk(h) && i < |h.chans|
    ensures Drain(Vote(h, n), i) == Vote(Drain(h, i), n)
    decreases |h.chans[i].out|
  {
    var c := h.chans[i];
    if c.out != [] {
      var h1 := Set(PendDec(h, c.cfg.uplink), i, Pop(c, NotConn, 0));
      assert Set(PendDec(Vote(h, n), c.cfg.uplink), i, Pop(c, NotConn, 0)) == Vote(h1, n);
      DrainVote(h1, i, n);
    }
  }

  lemma EndStopKeeps(h: Host, i: nat)
    requires Inv(h, 0) && i < |h.chans|
    ensures Inv(EndStop(h, i), 0)
  {
    var c := h.chans[i];
    if c.cmd.Stopping? {
      DrainKeeps(h, i);
      DrainEffect(h, i);
      var d := Drain(h, i);
      DrainVote(h, i, if c.cmd.voted then -1 else 0);
      SetKeeps(d, i, d.chans[i].(started := false, cmd := NoCommand));
    }
  }

  lemma BeginStartKeeps(h: Host, i: nat, ee: bool, room: bool)
    requires Inv(h, 0) && i < |h.chans| && h.chans[i].cmd == NoCommand
    ensures Inv(BeginStart(h, i, ee, room), 0)
  {
    if ee && room && !h.chans[i].enabled { SetKeeps(h, i, BeginStart(h, i, ee, room).chans[i]); }
  }

  lemma EndStartKeeps(h: Host, i: nat, answer: Answer)
    requires Inv(h, 0) && i < |h.chans|
    ensures Inv(EndStart(h, i, answer), 0)
  {
    if h.chans[i].cmd.Starting? { SetKeeps(h, i, EndStart(h, i, answer).chans[i]); }
  }

  lemma M0ChanKeeps(pm: Pm, c: Chan)
    requires ChanInv(pm, c)
    ensures ChanInv(M0, M0Chan(c)) && Load(M0Chan(c)) == Load(c) && Held(M0Chan(c)) == Held(c)
  {
    hide OutBufs, Returned, Phys, Cyc;
  }

  lemma M0Keeps(h: Host)
    requires Inv(h, 0)
    ensures Inv(ToM0(h), 0)
  {
    var h' := ToM0(h);
    if Try(h.pm, M0) == M0 {
      forall i | 0 <= i < |h.chans|
        ensures ChanInv(M0, h'.chans[i])
        ensures Load(h'.chans[i]) == Load(h.chans[i]) && Held(h'.chans[i]) == Held(h.chans[i])
      {
        M0ChanKeeps(h.pm, h.chans[i]);
      }
      SumOfSame(Load, h.chans, h'.chans);
      SumOfSame(Held, h.chans, h'.chans);
    }
  }

  /** A power state change other than to M0. */
  lemma PmKeeps(h: Host, pm: Pm)
    requires Inv(h, 0) && (pm == M0 ==> h.pm == M0)
    ensures Inv(h.(pm := pm), 0)
  {
  }
}
