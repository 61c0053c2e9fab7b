/** The UCI character device (mhi_uci.c): a client of the MHI host with a cyclic set of
    receive buffers of its own.

    Receive buffers are named by their slot in `uci_buf`; `addrs[k]` is the address the host
    sees for slot k. Channels that copy (DUN, QMI, MBIM) requeue from the completion callback;
    the others requeue from the reader. */
module Uci {
  import opened Rings
  import opened PowerStates
  import opened HostSpec
  import opened HostLaws
  import opened Octets

  /** An entry of the list user space reads from: a receive page or a private copy. */
  datatype UciBuf = Page(slot: nat, len: nat) | Copy(data: seq<byte>)

  datatype ReadResult = ReadOk(data: seq<byte>) | Invalid | NotEnabled | Again | RequeueFailed

  datatype Op =
    | Done(status: Status, payload: seq<byte>, keep: bool, mappings: nat -> Mapping)
    | ReadCall(count: nat, mapping: Mapping)
    | Power(pm: Pm)

  /** A transfer within the MTU that is not skipped, a read whose requeue is mapped, or a change of
      the power state that is not an error. */
  ghost predicate Fine(op: Op, mtu: nat) {
    match op
    case Done(status, payload, keep, _) => status != NotConn && 0 < |payload| <= mtu && keep
    case ReadCall(_, mapping) => mapping.Mapped?
    case Power(pm) => !InError(pm)
  }

  ghost predicate Distinct(s: seq<nat>) {
    forall i, j :: 0 <= i < j < |s| ==> s[i] != s[j]
  }

  ghost function Concat(parts: seq<seq<byte>>): seq<byte> {
    if parts == [] then [] else parts[0] + Concat(parts[1..])
  }

  lemma {:induction false} ConcatSnoc(parts: seq<seq<byte>>, p: seq<byte>)
    ensures Concat(parts + [p]) == Concat(parts) + p
  {
    if parts == [] {
      assert parts + [p] == [p];
    } else {
      assert (parts + [p])[1..] == parts[1..] + [p];
      ConcatSnoc(parts[1..], p);
    }
  }

  /** The bytes behind a list entry. */
  function DataOf(b: UciBuf, pages: seq<seq<byte>>): seq<byte> {
    match b
    case Copy(data) => data
    case Page(slot, len) => if slot < |pages| && len <= |pages[slot]| then pages[slot][..len] else []
  }

  function LenOf(b: UciBuf): nat {
    match b
    case Copy(data) => |data|
    case Page(_, len) => len
  }

  /** The `n` bytes that follow when `left` of an entry are still unread. */
  function Chunk(d: seq<byte>, left: nat, n: nat): seq<byte> {
    if n <= left <= |d| then d[|d| - left..|d| - left + n] else []
  }

  ghost function DataOfAll(bs: seq<UciBuf>, pages: seq<seq<byte>>): (r: seq<seq<byte>>)
    ensures |r| == |bs|
  {
    seq(|bs|, k requires 0 <= k < |bs| => DataOf(bs[k], pages))
  }

  /** What user space has not read yet: the rest of the current entry and the list. */
  ghost function Unread(cur: seq<UciBuf>, rxSize: nat, pending: seq<UciBuf>, pages: seq<seq<byte>>): seq<byte> {
    (if cur == [] then [] else Rest(DataOf(cur[0], pages), rxSize)) + Concat(DataOfAll(pending, pages))
  }

  /** The last `left` bytes of an entry. */
  ghost function Rest(d: seq<byte>, left: nat): seq<byte> {
    if left <= |d| then d[|d| - left..] else []
  }

  /** The entries user space can still read: the rest of the current one and then the list. */
  ghost function Entries(cur: seq<UciBuf>, rxSize: nat, pending: seq<UciBuf>, pages: seq<seq<byte>>): seq<seq<byte>> {
    (if cur == [] then [] else [Rest(DataOf(cur[0], pages), rxSize)]) + DataOfAll(pending, pages)
  }

  lemma UnreadIsConcat(cur: seq<UciBuf>, rxSize: nat, pending: seq<UciBuf>, pages: seq<seq<byte>>)
    ensures Unread(cur, rxSize, pending, pages) == Concat(Entries(cur, rxSize, pending, pages))
  {
    var list := DataOfAll(pending, pages);
    if cur == [] {
      assert Entries(cur, rxSize, pending, pages) == list;
    } else {
      assert Entries(cur, rxSize, pending, pages)[1..] == list;
    }
  }

  lemma EntriesAppend(cur: seq<UciBuf>, rxSize: nat, pending: seq<UciBuf>, pages: seq<seq<byte>>, b: UciBuf)
    ensures Entries(cur, rxSize, pending + [b], pages) == Entries(cur, rxSize, pending, pages) + [DataOf(b, pages)]
  {
    assert DataOfAll(pending + [b], pages) == DataOfAll(pending, pages) + [DataOf(b, pages)];
  }

  lemma EntriesSplit(cur: seq<UciBuf>, left: nat, n: nat, pending: seq<UciBuf>, pages: seq<seq<byte>>,
                     q: seq<seq<byte>>)
    requires cur != [] && n <= left <= |DataOf(cur[0], pages)| && q == Entries(cur, left, pending, pages)
    ensures q != [] && |q[0]| == left && Chunk(DataOf(cur[0], pages), left, n) == q[0][..n]
    ensures Entries(cur, left - n, pending, pages) == [q[0][n..]] + q[1..]
  {
    SplitRest(DataOf(cur[0], pages), left, n);
  }

  lemma EntriesDrop(cur: seq<UciBuf>, rxSize: nat, pending: seq<UciBuf>, pages: seq<seq<byte>>)
    requires cur != []
    ensures Entries(cur, rxSize, pending, pages) != []
    ensures Entries([], rxSize, pending, pages) == Entries(cur, rxSize, pending, pages)[1..]
  {
  }

  lemma EntriesFrame(cur: seq<UciBuf>, rxSize: nat, pending: seq<UciBuf>, pages: seq<seq<byte>>, pages': seq<seq<byte>>)
    requires forall k :: 0 <= k < |cur + pending| ==>
               DataOf((cur + pending)[k], pages) == DataOf((cur + pending)[k], pages')
    ensures Entries(cur, rxSize, pending, pages') == Entries(cur, rxSize, pending, pages)
  {
    if cur != [] { assert (cur + pending)[0] == cur[0]; }
    forall k | 0 <= k < |pending| ensures DataOf(pending[k], pages) == DataOf(pending[k], pages') {
      assert (cur + pending)[|cur| + k] == pending[k];
    }
    assert DataOfAll(pending, pages) == DataOfAll(pending, pages');
  }

  // ---------------------------------------------------------------------------
  // What the node is for: a bounded queue of packets that is read as a stream

  /** What a read of `count` bytes returns: it stops at the end of the first entry. */
  function TakeFrom(q: seq<seq<byte>>, count: nat): seq<byte> {
    if q == [] then [] else if count < |q[0]| then q[0][..count] else q[0]
  }

  /** ... and what it leaves. */
  function LeftOf(q: seq<seq<byte>>, count: nat): seq<seq<byte>> {
    if q == [] then [] else if count < |q[0]| then [q[0][count..]] + q[1..] else q[1..]
  }

  lemma ReadSplits(q: seq<seq<byte>>, count: nat, n: nat)
    requires q != [] && n == if count < |q[0]| then count else |q[0]|
    ensures q[0][..n] == TakeFrom(q, count)
    ensures LeftOf(q, count) == if count < |q[0]| then [q[0][n..]] + q[1..] else q[1..]
  {
  }

  /** Whether it finishes the first entry. */
  predicate Finishes(q: seq<seq<byte>>, count: nat) { q != [] && count >= |q[0]| }

  /** How many mappings succeed from the `i`-th on, before the first of the `n` that fails. */
  function Leading(m: nat -> Mapping, i: nat, n: nat): (r: nat)
    requires i <= n
    ensures r <= n - i
    decreases n - i
  {
    if i == n || m(i).MapFailed? then 0 else 1 + Leading(m, i + 1, n)
  }

  lemma {:induction false} AllLeading(m: nat -> Mapping, i: nat, n: nat)
    requires i <= n && forall k: nat :: m(k).Mapped?
    ensures Leading(m, i, n) == n - i
    decreases n - i
  {
    if i < n { AllLeading(m, i + 1, n); }
  }

  /** Outstanding buffers of a copying channel after the callback refilled its ring. */
  function Refilled(nr: nat, pm: Pm, out: nat, m: nat -> Mapping): (r: nat)
    requires out < nr
    ensures out <= r < nr
  {
    if InError(pm) then out else out + Leading(m, 0, nr - 1 - out)
  }

  predicate InMtu(status: Status, bytes: nat, mtu: nat) { status != NotConn && 0 < bytes <= mtu }

  /** The unread entries, the number of buffers the host holds and its power state. */
  datatype Sim = Sim(q: seq<seq<byte>>, out: nat, pm: Pm)

  /** The parameters of a node, and the node as a machine over its unread entries. */
  datatype Node = Node(nr: nat, mtu: nat, copies: bool)
  {
    predicate Ok(st: Sim) { st.out < nr }

    /** The packet a completion delivers to user space. */
    function Came(st: Sim, op: Op): seq<seq<byte>> {
      if op.Done? && st.out > 0 && InMtu(op.status, |op.payload|, mtu) && (copies ==> op.keep) then [op.payload] else []
    }

    function Got(st: Sim, op: Op): seq<byte> { if op.ReadCall? then TakeFrom(st.q, op.count) else [] }

    function Next(st: Sim, op: Op): (r: Sim)
      requires Ok(st)
    {
      match op
      case Done(status, payload, _, m) =>
        if st.out == 0 then st
        else st.(q := st.q + Came(st, op),
                 out := if copies && InMtu(status, |payload|, mtu) then Refilled(nr, st.pm, st.out - 1, m)
                        else st.out - 1)
      case ReadCall(count, _) =>
        st.(q := LeftOf(st.q, count), out := if !copies && Finishes(st.q, count) then st.out + 1 else st.out)
      case Power(pm) => st.(pm := pm)
    }

    /** A reader-driven channel loses a buffer when a completion is not passed on, and when the
        requeue after a finished entry fails. A copying channel loses none. */
    predicate Harmless(st: Sim, op: Op) {
      copies ||
      match op
      case Done(status, payload, _, _) => st.out > 0 ==> InMtu(status, |payload|, mtu)
      case ReadCall(count, m) => Finishes(st.q, count) ==> !InError(st.pm) && m.Mapped?
      case Power(_) => true
    }

    /** No operation of the sequence loses a buffer, the state moving on as it does. */
    ghost predicate Safe(st: Sim, ops: seq<Op>)
      decreases |ops|
    {
      ops == [] || (Ok(st) && Harmless(st, ops[0]) && Safe(Next(st, ops[0]), ops[1..]))
    }

    ghost function Final(st: Sim, ops: seq<Op>): Sim
      decreases |ops|
    {
      if ops == [] || !Ok(st) then st else Final(Next(st, ops[0]), ops[1..])
    }

    /** The packets that came and the bytes that were read, in order. */
    ghost function CameAll(st: Sim, ops: seq<Op>): seq<seq<byte>>
      decreases |ops|
    {
      if ops == [] || !Ok(st) then [] else Came(st, ops[0]) + CameAll(Next(st, ops[0]), ops[1..])
    }

    ghost function GotAll(st: Sim, ops: seq<Op>): seq<byte>
      decreases |ops|
    {
      if ops == [] || !Ok(st) then [] else Got(st, ops[0]) + GotAll(Next(st, ops[0]), ops[1..])
    }
  }

  /** The bytes delivered so far followed by the unread ones are the bytes received. */
  ghost predicate StreamOk(cur: seq<UciBuf>, rxSize: nat, pending: seq<UciBuf>, pages: seq<seq<byte>>,
                           received: seq<byte>, delivered: seq<byte>)
  {
    && delivered + Unread(cur, rxSize, pending, pages) == received
    && (cur != [] ==> 0 < rxSize <= |DataOf(cur[0], pages)|)
    && forall k :: 0 <= k < |pending| ==> |DataOf(pending[k], pages)| > 0
  }

  ghost predicate KindOk(held: seq<UciBuf>, copies: bool, nr: nat) {
    forall k :: 0 <= k < |held| ==> if copies then held[k].Copy? else held[k].Page? && held[k].slot < nr
  }

  /** Pages waiting to be read are consecutive slots from `finished` on. */
  ghost predicate PagesOk(held: seq<UciBuf>, finished: nat, pages: seq<seq<byte>>) {
    |pages| > 0 &&
    forall k :: 0 <= k < |held| ==>
      held[k].Page? && held[k].slot == Cyc(finished + k, |pages|) && held[k].len <= |pages[held[k].slot]|
  }

  lemma StreamFrame(cur: seq<UciBuf>, rxSize: nat, pending: seq<UciBuf>, pages: seq<seq<byte>>, pages': seq<seq<byte>>,
                    received: seq<byte>, delivered: seq<byte>)
    requires StreamOk(cur, rxSize, pending, pages, received, delivered)
    requires forall k :: 0 <= k < |cur + pending| ==>
               DataOf((cur + pending)[k], pages) == DataOf((cur + pending)[k], pages')
    ensures StreamOk(cur, rxSize, pending, pages', received, delivered)
  {
    if cur != [] { assert (cur + pending)[0] == cur[0]; }
    forall k | 0 <= k < |pending| ensures DataOf(pending[k], pages) == DataOf(pending[k], pages') {
      assert (cur + pending)[|cur| + k] == pending[k];
    }
    assert DataOfAll(pending, pages) == DataOfAll(pending, pages');
  }

  lemma UnreadAppend(cur: seq<UciBuf>, rxSize: nat, pending: seq<UciBuf>, pages: seq<seq<byte>>, b: UciBuf)
    ensures Unread(cur, rxSize, pending + [b], pages) == Unread(cur, rxSize, pending, pages) + DataOf(b, pages)
  {
    assert DataOfAll(pending + [b], pages) == DataOfAll(pending, pages) + [DataOf(b, pages)];
    ConcatSnoc(DataOfAll(pending, pages), DataOf(b, pages));
  }

  lemma StreamAppend(cur: seq<UciBuf>, rxSize: nat, pending: seq<UciBuf>, pages: seq<seq<byte>>,
                     received: seq<byte>, delivered: seq<byte>, b: UciBuf)
    requires StreamOk(cur, rxSize, pending, pages, received, delivered) && DataOf(b, pages) != []
    ensures StreamOk(cur, rxSize, pending + [b], pages, received + DataOf(b, pages), delivered)
  {
    UnreadAppend(cur, rxSize, pending, pages, b);
    var u := Unread(cur, rxSize, pending, pages);
    assert delivered + (u + DataOf(b, pages)) == (delivered + u) + DataOf(b, pages);
  }

  // ---------------------------------------------------------------------------
  // The rotation

  /** The buffers of `given` were taken strictly round the cycle of `addrs`. */
  ghost predicate RoundTheCycle(given: seq<nat>, addrs: seq<nat>)
    requires addrs != []
  {
    forall k {:trigger given[k]} :: 0 <= k < |given| ==> given[k] == addrs[Cyc(k, |addrs|)]
  }

  /** What the rotation depends on: the ring engine's channel, the two slot counters, the
      number of pages the reader has finished with, the list and the page memory. */
  datatype Rot = Rot(nr: nat, addrs: seq<nat>, copies: bool, ch: Chan, rp: nat, wp: nat,
                     finished: nat, held: seq<UciBuf>, pages: seq<seq<byte>>)
  {
    /** Completions and queue calls since the channel was started. */
    ghost function Done(): int { |ch.returned| - ch.origin }
    ghost function Given(): int { |ch.accepted| - ch.origin }

    ghost predicate Base() {
      && ChanOk(ch) && OutstandingFifo(ch) && ch.origin <= |ch.returned| && nr > 0 && ch.cfg.elements == nr
      && |addrs| == |pages| == nr && Distinct(addrs) && rp < nr && wp < nr && KindOk(held, copies, nr)
    }

    /** The host was given the buffers strictly round the cycle. */
    ghost predicate Periodic()
      requires Base()
    {
      RoundTheCycle(ch.accepted[ch.origin..], addrs)
    }

    /** The agreement with the hardware ring, when the callback still has to count the last
        `ahead` completions and the list still lacks the last `lag`. The pages on the list
        are the slots just before the ring's, and together they fill all slots but one. */
    ghost predicate Agrees(ahead: nat, lag: nat)
      requires Base()
    {
      && Periodic() && Done() >= ahead && rp == Cyc(Done() - ahead, nr)
      && (copies ==> wp == Cyc(Given(), nr))
      && (!copies ==> && Given() == finished + nr - 1 && Done() - lag == finished + |held|
                      && PagesOk(held, finished, pages))
    }
  }

  /** The ring engine returns buffers in queue order, so the head of the ring is the buffer the
      rotation expects next. */
  lemma HeadIsExpected(r: Rot)
    requires r.Base() && r.Agrees(0, 0) && r.ch.out != []
    ensures r.ch.out[0].info.cbBuf == r.addrs[r.rp]
  {
    assert r.ch.accepted[r.ch.origin..][r.Done()] == r.ch.accepted[|r.ch.returned| + 0];
  }

  /** The device writes into one buffer. */
  function Dma(addrs: seq<nat>, pages: seq<seq<byte>>, buf: nat, payload: seq<byte>): (p: seq<seq<byte>>)
    requires |addrs| == |pages|
    ensures |p| == |pages|
    ensures forall j :: 0 <= j < |p| ==> p[j] == if addrs[j] == buf then payload else pages[j]
  {
    seq(|pages|, j requires 0 <= j < |pages| => if addrs[j] == buf then payload else pages[j])
  }

  /** The device's write touches no page that is waiting to be read. */
  lemma DmaApart(r: Rot, payload: seq<byte>, k: nat)
    requires r.Base() && r.Agrees(0, 0) && r.ch.out != [] && k < |r.held|
    ensures var pages' := Dma(r.addrs, r.pages, r.addrs[r.rp], payload);
            && DataOf(r.held[k], pages') == DataOf(r.held[k], r.pages)
            && (!r.copies ==> r.held[k].len <= |pages'[r.held[k].slot]|)
  {
    if !r.copies { CycDistinct(r.finished + k, r.Done(), r.nr); }
  }

  lemma PopBase(r: Rot, status: Status, payload: seq<byte>, buf: nat)
    requires r.Base() && r.ch.out != []
    ensures r.(ch := Pop(r.ch, status, |payload|), pages := Dma(r.addrs, r.pages, buf, payload)).Base()
  {
  }

  /** A completion fills the expected page and leaves the list as it was. */
  lemma PopAgrees(r: Rot, status: Status, payload: seq<byte>)
    requires r.Base() && r.Agrees(0, 0) && r.ch.out != []
    ensures var r' := r.(ch := Pop(r.ch, status, |payload|), pages := Dma(r.addrs, r.pages, r.addrs[r.rp], payload));
            && r'.Base() && r'.Agrees(1, 1) && r'.pages[r.rp] == payload
            && forall k :: 0 <= k < |r.held| ==> DataOf(r.held[k], r'.pages) == DataOf(r.held[k], r.pages)
  {
    PopBase(r, status, payload, r.addrs[r.rp]);
    forall k | 0 <= k < |r.held|
      ensures var pages' := Dma(r.addrs, r.pages, r.addrs[r.rp], payload);
              && DataOf(r.held[k], pages') == DataOf(r.held[k], r.pages)
              && (!r.copies ==> r.held[k].len <= |pages'[r.held[k].slot]|)
    {
      DmaApart(r, payload, k);
    }
  }

  lemma AdvanceAgrees(r: Rot)
    requires r.Base() && r.Agrees(1, 1)
    ensures r.(rp := if r.rp + 1 == r.nr then 0 else r.rp + 1).Base()
    ensures r.(rp := if r.rp + 1 == r.nr then 0 else r.rp + 1).Agrees(0, 1)
  {
    CycNext(r.Done() - 1, r.nr);
  }

  lemma PagesAppend(held: seq<UciBuf>, finished: nat, pages: seq<seq<byte>>, b: UciBuf)
    requires PagesOk(held, finished, pages)
    requires b.Page? && b.slot == Cyc(finished + |held|, |pages|) && b.len <= |pages[b.slot]|
    ensures PagesOk(held + [b], finished, pages)
  {
  }

  lemma AppendAgrees(r: Rot, b: UciBuf)
    requires r.Base() && r.Agrees(0, 1) && r.Done() > 0
    requires if r.copies then b.Copy? else b.Page? && b.slot == Cyc(r.Done() - 1, r.nr) && b.len <= |r.pages[b.slot]|
    ensures r.(held := r.held + [b]).Base() && r.(held := r.held + [b]).Agrees(0, 0)
  {
    if !r.copies { PagesAppend(r.held, r.finished, r.pages, b); }
    var r' := r.(held := r.held + [b]);
    assert r'.Base() && r'.Periodic();
  }

  /** `c'` is `c` after one accepted queue call for the buffer at `addr`. */
  ghost predicate QueuedOne(c: Chan, c': Chan, addr: nat) {
    && ChanOk(c') && OutstandingFifo(c') && c'.accepted == c.accepted + [addr]
    && c'.returned == c.returned && c'.origin == c.origin && c'.cfg == c.cfg
  }

  lemma QueuedPeriodic(r: Rot, c': Chan, slot: nat)
    requires r.Base() && r.Periodic() && 0 <= r.Given() && slot == Cyc(r.Given(), r.nr)
    requires QueuedOne(r.ch, c', r.addrs[slot])
    ensures r.(ch := c').Periodic()
  {
    assert c'.accepted[c'.origin..] == r.ch.accepted[r.ch.origin..] + [r.addrs[slot]];
  }

  /** Queueing the slot at `wp` keeps a copying channel in step. */
  lemma RefillAgrees(r: Rot, c': Chan)
    requires r.Base() && r.copies && r.Agrees(0, 0) && QueuedOne(r.ch, c', r.addrs[r.wp])
    ensures r.(ch := c', wp := if r.wp + 1 == r.nr then 0 else r.wp + 1).Base()
    ensures r.(ch := c', wp := if r.wp + 1 == r.nr then 0 else r.wp + 1).Agrees(0, 0)
  {
    QueuedPeriodic(r, c', r.wp);
    CycNext(r.Given(), r.nr);
  }

  function Previous(slot: nat, nr: nat): nat
    requires nr > 0
  {
    if slot == 0 then nr - 1 else slot - 1
  }

  lemma PagesTail(held: seq<UciBuf>, finished: nat, pages: seq<seq<byte>>)
    requires PagesOk(held, finished, pages) && held != []
    ensures PagesOk(held[1..], finished + 1, pages)
  {
    forall k | 0 <= k < |held[1..]|
      ensures held[1..][k].Page? && held[1..][k].slot == Cyc(finished + 1 + k, |pages|)
      ensures held[1..][k].len <= |pages[held[1..][k].slot]|
    {
      assert held[1..][k] == held[k + 1] && finished + 1 + k == finished + (k + 1);
    }
  }

  /** Queueing the slot before the finished one keeps a reader-driven channel in step. */
  lemma GiveBackAgrees(r: Rot, c': Chan)
    requires r.Base() && !r.copies && r.Agrees(0, 0) && r.held != [] && Previous(r.held[0].slot, r.nr) < r.nr
    requires QueuedOne(r.ch, c', r.addrs[Previous(r.held[0].slot, r.nr)])
    ensures r.(ch := c', finished := r.finished + 1, held := r.held[1..]).Base()
    ensures r.(ch := c', finished := r.finished + 1, held := r.held[1..]).Agrees(0, 0)
  {
    CycPrev(r.finished, r.nr);
    assert r.held[0].slot == Cyc(r.finished + 0, r.nr);
    var r1 := r.(ch := c');
    assert r1.Periodic() && r1.Given() == r.Given() + 1 && r1.Done() == r.Done() by {
      QueuedPeriodic(r, c', Previous(r.held[0].slot, r.nr));
    }
    PagesTail(r.held, r.finished, r.pages);
    var r2 := r1.(finished := r.finished + 1, held := r.held[1..]);
    assert r2.Periodic();
  }

  // ---------------------------------------------------------------------------
  // The device node

  class UciDev {
    const nr: nat
    const mtu: nat
    const copies: bool
    const addrs: seq<nat>
    /** The downlink channel as the host's ring engine keeps it, and its power state. */
    var ch: Chan
    var pm: Pm
    var rpTrb: nat
    var wpTrb: nat
    var rxError: nat
    var enabled: bool
    var pages: seq<seq<byte>>
    var cur: seq<UciBuf>
    var pending: seq<UciBuf>
    var rxSize: nat
    ghost var finished: nat
    /** Buffers that left the cycle of a reader-driven channel. */
    ghost var lost: nat
    ghost var received: seq<byte>
    ghost var delivered: seq<byte>

    /** mhi_uci_open on a freshly started channel: `nr` pages, one more than the ring takes. */
    constructor (channel: Chan, power: Pm, size: nat, copying: bool, pageAddrs: seq<nat>)
      requires ChanInv(power, channel) && channel.out == [] && channel.origin == |channel.returned|
      requires channel.cfg.elements == |pageAddrs| && Distinct(pageAddrs)
      ensures Opening() && nr == |pageAddrs| && mtu == size && copies == copying && addrs == pageAddrs
      ensures ch == channel && pm == power && enabled && received == delivered == [] && lost == 0
    {
      nr, mtu, copies, addrs := |pageAddrs|, size, copying, pageAddrs;
      ch, pm, rpTrb, wpTrb, rxError, enabled := channel, power, 0, 0, 0, true;
      pages := seq(|pageAddrs|, _ => []);
      cur, pending, rxSize := [], [], 0;
      finished, lost, received, delivered := 0, 0, [], [];
      FifoOutstanding(channel);
    }

    /** The node is being opened and `wp_trb` buffers were queued so far. */
    ghost predicate Opening()
      reads this
    {
      && R().Base() && R().Periodic() && wpTrb == R().Given() && R().Done() == 0 && rpTrb == 0
      && cur == pending == [] && received == delivered == [] && rxError == 0 && lost == 0 && finished == 0
    }

    /** mhi_queue_inbound: give the host slots 0, 1, ... until its ring is full. */
    method QueueInbound(mapping: nat -> Mapping) returns (ok: bool)
      requires Opening() && wpTrb == 0
      modifies this`ch, this`wpTrb
      ensures ok ==> Valid() && |ch.out| == nr - 1
      ensures ok ==> forall k :: 0 <= k < nr - 1 ==> ch.out[k].info.cbBuf == addrs[k]
      ensures ok <== !InError(pm) && forall k :: mapping(k).Mapped?
      ensures ch.returned == old(ch.returned) && ch.origin == old(ch.origin)
    {
      var n := nr - 1 - |ch.out|;
      for i := 0 to n
        invariant Opening() && wpTrb == i && n == nr - 1
        invariant ch.returned == old(ch.returned) && ch.origin == old(ch.origin)
      {
        ghost var before := R();
        ok := QueueSlot(wpTrb, mapping(i));
        if !ok { return; }
        QueuedPeriodic(before, ch, i);
        wpTrb := wpTrb + 1;
      }
      forall k | 0 <= k < nr - 1 ensures ch.out[k].info.cbBuf == addrs[k] {
        assert ch.accepted[ch.origin..][k] == ch.accepted[|ch.returned| + k];
      }
      return true;
    }

    ghost function R(): Rot
      reads this
    {
      Rot(nr, addrs, copies, ch, rpTrb, wpTrb, finished, cur + pending, pages)
    }

    ghost predicate Stream()
      reads this
    {
      StreamOk(cur, rxSize, pending, pages, received, delivered)
    }

    ghost predicate InStep(ahead: nat, lag: nat)
      reads this
    {
      && R().Base() && |cur| <= 1 && (copies ==> lost == 0)
      && (lost == 0 ==> R().Agrees(ahead, lag) && rxError == 0)
      && (!copies ==> |cur| + |pending| + |ch.out| + lost + lag == nr - 1)
    }

    /** While no buffer was lost, rotation and stream hold and no error was raised. On a channel
        whose reader requeues, the buffers in the ring and on the list number nr - 1 minus the
        lost ones, so the cycle is complete exactly when none was lost. */
    ghost predicate Valid()
      reads this
    {
      InStep(0, 0) && (lost == 0 ==> Stream())
    }

    /** mhi_queue_transfer of one receive buffer. */
    method QueueSlot(slot: nat, mapping: Mapping) returns (ok: bool)
      requires R().Base() && slot < nr
      modifies this`ch
      ensures if ok then QueuedOne(old(ch), ch, addrs[slot]) && |ch.out| == |old(ch.out)| + 1 else ch == old(ch)
      ensures ok == (old(|ch.out|) + 1 < nr && !InError(pm) && mapping.Mapped?)
    {
      var r := Request(BufQueue, addrs[slot], mtu, Eot, mapping);
      ok := Admission(pm, ch, r) == Queued;
      if ok {
        ch := Enqueued(pm, ch, r);
      }
    }

    method RefillOne(mapping: Mapping) returns (ok: bool)
      requires copies && InStep(0, 0) && |ch.out| < nr && wpTrb < nr
      modifies this`ch, this`wpTrb
      ensures InStep(0, 0) && |ch.out| < nr && wpTrb < nr
      ensures ok == (old(|ch.out|) + 1 < nr && !InError(pm) && mapping.Mapped?)
      ensures |ch.out| == old(|ch.out|) + if ok then 1 else 0
      ensures wpTrb == if ok then Wrap(old(wpTrb) + 1, nr) else old(wpTrb)
    {
      ghost var before := R();
      ok := QueueSlot(wpTrb, mapping);
      if ok {
        RefillAgrees(before, ch);
        wpTrb := if wpTrb + 1 == nr then 0 else wpTrb + 1;
      }
    }

    /** mhi_dl_xfer_cb on a copying channel fills every free descriptor from `wp_trb` on, up to the
        first that cannot be queued. */
    method Refill(mapping: nat -> Mapping)
      requires copies && InStep(0, 0) && |ch.out| < nr && wpTrb < nr
      modifies this`ch, this`wpTrb
      ensures InStep(0, 0) && |ch.out| < nr && wpTrb < nr && |ch.out| == Refilled(nr, pm, old(|ch.out|), mapping)
      ensures wpTrb == Wrap(old(wpTrb) + |ch.out| - old(|ch.out|), nr)
    {
      hide InStep;
      var o, w := |ch.out|, wpTrb;
      var free := nr - 1 - o;
      for i := 0 to free
        invariant InStep(0, 0) && |ch.out| == o + i < nr && wpTrb == Wrap(w + i, nr)
        invariant i + Leading(mapping, i, free) == Leading(mapping, 0, free) && (i > 0 ==> !InError(pm))
      {
        var ok := RefillOne(mapping(i));
        if !ok { return; }
      }
    }

    /** The device fills the oldest buffer of the ring and the engine takes it off. */
    method Arrive(status: Status, payload: seq<byte>) returns (buf: nat)
      requires Valid() && ch.out != []
      modifies this`ch, this`pages
      ensures InStep(1, 1) && buf == old(ch.out[0].info.cbBuf) && ch == Pop(old(ch), status, |payload|)
      ensures lost == 0 ==> Stream() && buf == addrs[rpTrb] && pages[rpTrb] == payload && Q() == old(Q())
    {
      hide StreamOk, Entries;
      buf := ch.out[0].info.cbBuf;
      ghost var before := R();
      PopBase(before, status, payload, buf);
      if lost == 0 {
        HeadIsExpected(before);
        PopAgrees(before, status, payload);
        StreamFrame(cur, rxSize, pending, pages, Dma(addrs, pages, buf, payload), received, delivered);
        EntriesFrame(cur, rxSize, pending, pages, Dma(addrs, pages, buf, payload));
      }
      ghost var after := before.(ch := Pop(ch, status, |payload|), pages := Dma(addrs, pages, buf, payload));
      ch, pages := Pop(ch, status, |payload|), Dma(addrs, pages, buf, payload);
      assert R() == after && R().Base() && (lost == 0 ==> R().Agrees(1, 1));
    }

    ghost predicate Acceptable(status: Status, bytes: nat) { InMtu(status, bytes, mtu) }

    /** The unread entries. */
    ghost function Q(): seq<seq<byte>>
      reads this
    {
      Entries(cur, rxSize, pending, pages)
    }

    /** The branch that raises `rx_error`: it needs a buffer to have been lost before. */
    method Mismatch()
      requires InStep(1, 1) && lost > 0
      modifies this`rxError, this`lost
      ensures Valid() && rxError == old(rxError) + 1 && lost == old(lost) + 1
    {
      rxError := rxError + 1;
      lost := lost + 1;
    }

    method Advance() returns (slot: nat)
      requires InStep(1, 1)
      modifies this`rpTrb
      ensures InStep(0, 1) && slot == old(rpTrb) && rpTrb == if slot + 1 == nr then 0 else slot + 1
      ensures lost == 0 ==> R().Done() > 0 && slot == Cyc(R().Done() - 1, nr)
    {
      if lost == 0 { AdvanceAgrees(R()); }
      slot := rpTrb;
      rpTrb := if rpTrb + 1 == nr then 0 else rpTrb + 1;
    }

    /** Outstanding buffers of a copying channel after its callback. */
    ghost function OutAfter(out: nat, seen: bool, mapping: nat -> Mapping): nat
      requires out < nr
      reads this
    {
      if seen then Refilled(nr, pm, out, mapping) else out
    }

    /** A completion that user space will not see: a page is not given back, while a copying
        channel makes up for it at the next callback. */
    method Discard()
      requires InStep(0, 1) && (lost == 0 ==> Stream())
      modifies this`lost
      ensures Valid() && lost == if copies then old(lost) else old(lost) + 1
    {
      if !copies { lost := lost + 1; }
    }

    /** The list entry for a completed page. */
    function Entry(slot: nat, payload: seq<byte>): UciBuf {
      if copies then Copy(payload) else Page(slot, |payload|)
    }

    /** list_add_tail on the pending list. */
    method Append(b: UciBuf, payload: seq<byte>)
      requires InStep(0, 1) && (lost == 0 ==> Stream() && DataOf(b, pages) == payload) && payload != []
      requires if copies then b.Copy? else b.Page? && b.slot < nr
      requires lost == 0 ==> R().Done() > 0
      requires lost == 0 && b.Page? ==> b.slot == Cyc(R().Done() - 1, nr) && b.len <= |pages[b.slot]|
      modifies this`pending, this`received
      ensures Valid()
      ensures pending == old(pending) + [b] && received == old(received) + payload
      ensures lost == 0 ==> Q() == old(Q()) + [payload]
    {
      ghost var after := R().(held := R().held + [b]);
      if lost == 0 {
        StreamAppend(cur, rxSize, pending, pages, received, delivered, b);
        EntriesAppend(cur, rxSize, pending, pages, b);
        AppendAgrees(R(), b);
      }
      assert cur + (pending + [b]) == after.held;
      pending, received := pending + [b], received + payload;
      assert R() == after && R().Base() && (lost == 0 ==> R().Agrees(0, 0));
    }

    method DeliverCopy(payload: seq<byte>, keep: bool, mapping: nat -> Mapping)
      requires copies && InStep(0, 1) && Stream() && payload != [] && R().Done() > 0
      modifies this`ch, this`wpTrb, this`pending, this`received
      ensures Valid()
      ensures pending == old(pending) + if keep then [Copy(payload)] else []
      ensures received == old(received) + if keep then payload else []
      ensures |ch.out| == Refilled(nr, pm, old(|ch.out|), mapping)
      ensures Q() == old(Q()) + if keep then [payload] else []
    {
      if keep { Append(Copy(payload), payload); }
      Refill(mapping);
    }

    /** The rest of the callback for the expected buffer. */
    method Deliver(slot: nat, status: Status, payload: seq<byte>, keep: bool, mapping: nat -> Mapping)
      requires InStep(0, 1) && slot < nr
      requires lost == 0 ==> Stream() && pages[slot] == payload && R().Done() > 0 && slot == Cyc(R().Done() - 1, nr)
      modifies this`ch, this`wpTrb, this`pending, this`lost, this`received
      ensures Valid()
      ensures lost == old(lost) + if copies || Acceptable(status, |payload|) then 0 else 1
      ensures !copies ==> ch == old(ch)
      ensures copies ==> |ch.out| == OutAfter(old(|ch.out|), Acceptable(status, |payload|), mapping)
      ensures var seen := Acceptable(status, |payload|) && (copies ==> keep);
              && received == old(received) + (if seen then payload else [])
              && pending == old(pending) + if seen then [Entry(slot, payload)] else []
      ensures lost == 0 ==>
                Q() == old(Q()) + if Acceptable(status, |payload|) && (copies ==> keep) then [payload] else []
    {
      hide StreamOk, Rot.Agrees, Entries;
      if status == NotConn || |payload| > mtu || |payload| == 0 {
        Discard();
      } else if copies {
        DeliverCopy(payload, keep, mapping);
      } else {
        assert payload[..|payload|] == payload;
        Append(Page(slot, |payload|), payload);
      }
    }

    /** mhi_dl_xfer_cb. `keep` is whether a private copy was allocated and not skipped. */
    method DlXferCb(buf: nat, status: Status, payload: seq<byte>, keep: bool, mapping: nat -> Mapping)
      requires InStep(1, 1)
      requires lost == 0 ==> Stream() && buf == addrs[rpTrb] && pages[rpTrb] == payload
      modifies this`ch, this`rpTrb, this`wpTrb, this`rxError, this`pending, this`lost, this`received
      ensures Valid()
      ensures rxError == old(rxError) + if buf == addrs[old(rpTrb)] then 0 else 1
      ensures rpTrb == if buf != addrs[old(rpTrb)] then old(rpTrb)
                       else if old(rpTrb) + 1 == nr then 0 else old(rpTrb) + 1
      ensures lost == old(lost) + if copies || (buf == addrs[old(rpTrb)] && Acceptable(status, |payload|)) then 0 else 1
      ensures !copies ==> ch == old(ch)
      ensures copies ==> |ch.out| == OutAfter(old(|ch.out|), Acceptable(status, |payload|), mapping)
      ensures var seen := buf == addrs[old(rpTrb)] && Acceptable(status, |payload|) && (copies ==> keep);
              && received == old(received) + (if seen then payload else [])
              && pending == old(pending) + if seen then [Entry(old(rpTrb), payload)] else []
      ensures lost == 0 ==>
                Q() == old(Q()) + if Acceptable(status, |payload|) && (copies ==> keep) then [payload] else []
    {
      if addrs[rpTrb] != buf {
        Mismatch();
        return;
      }
      var slot := Advance();
      Deliver(slot, status, payload, keep, mapping);
    }

    /** A whole downlink completion: engine, then callback. As long as no buffer was lost the
        completed buffer is the expected one and no error is raised; on a reader-driven channel
        a buffer is lost exactly when the completion is a reset or has an unacceptable length,
        and a copying channel never loses one and refills its ring. */
    method Complete(status: Status, payload: seq<byte>, keep: bool, mapping: nat -> Mapping)
      requires Valid() && ch.out != []
      modifies this`ch, this`pages, this`rpTrb, this`wpTrb, this`rxError, this`pending, this`lost, this`received
      ensures Valid()
      ensures old(lost) == 0 ==> rxError == 0 && rpTrb == if old(rpTrb) + 1 == nr then 0 else old(rpTrb) + 1
      ensures old(lost) == 0 ==> (lost == 0 <==> copies || Acceptable(status, |payload|))
      ensures lost >= old(lost)
      ensures old(lost) == 0 && lost == 0 ==>
        var seen := Acceptable(status, |payload|) && (copies ==> keep);
        && Q() == old(Q()) + (if seen then [payload] else [])
        && received == old(received) + if seen then payload else []
      ensures copies ==> |ch.out| == OutAfter(old(|ch.out|) - 1, Acceptable(status, |payload|), mapping)
      ensures rxError == old(rxError) + if old(ch.out[0].info.cbBuf) == addrs[old(rpTrb)] then 0 else 1
      ensures rpTrb == if old(ch.out[0].info.cbBuf) != addrs[old(rpTrb)] then old(rpTrb)
                       else if old(rpTrb) + 1 == nr then 0 else old(rpTrb) + 1
      ensures !copies ==> ch == Pop(old(ch), status, |payload|)
      ensures !copies ==> pending == if old(ch.out[0].info.cbBuf) == addrs[old(rpTrb)] && Acceptable(status, |payload|)
                                     then old(pending) + [Page(old(rpTrb), |payload|)] else old(pending)
    {
      var buf := Arrive(status, payload);
      DlXferCb(buf, status, payload, keep, mapping);
    }

    /** Take the next entry off the list unless one is being read. */
    method NextEntry()
      requires Valid() && (cur != [] || pending != [])
      modifies this`cur, this`pending, this`rxSize
      ensures Valid() && cur != []
      ensures old(cur) != [] ==> cur == old(cur) && pending == old(pending) && rxSize == old(rxSize)
      ensures old(cur) == [] ==> cur == [old(pending)[0]] && pending == old(pending)[1..] && rxSize == LenOf(cur[0])
      ensures lost == 0 ==> Q() == old(Q())
    {
      if cur != [] { return; }
      NextUnread(pending, rxSize, pages);
      ghost var before := R();
      assert [pending[0]] + pending[1..] == cur + pending;
      cur, pending, rxSize := [pending[0]], pending[1..], LenOf(pending[0]);
      assert R() == before;
    }

    /** Hand the next `n` bytes of the current entry to user space. */
    method CopyOut(n: nat) returns (data: seq<byte>)
      requires Valid() && cur != [] && n <= rxSize
      modifies this`rxSize, this`delivered
      ensures InStep(0, 0) && rxSize == old(rxSize) - n
      ensures lost == 0 ==>
        && old(Q()) != [] && n <= |old(Q()[0])| == old(rxSize) && data == old(Q()[0])[..n]
        && Q() == [old(Q()[0])[n..]] + old(Q()[1..])
        && delivered == old(delivered) + data && StreamAt()
    {
      hide StreamAt, StreamOk;
      if lost == 0 { SplitEntries(n); }
      data := CopyBytes(n);
    }

    /** The stream law, with an entry that is used up left out. */
    ghost predicate StreamAt()
      reads this
    {
      StreamOk(if rxSize == 0 then [] else cur, rxSize, pending, pages, received, delivered)
    }

    lemma SplitEntries(n: nat)
      requires Valid() && lost == 0 && cur != [] && n <= rxSize
      ensures Q() != [] && |Q()[0]| == rxSize && Chunk(DataOf(cur[0], pages), rxSize, n) == Q()[0][..n]
      ensures Entries(cur, rxSize - n, pending, pages) == [Q()[0][n..]] + Q()[1..]
    {
      EntriesSplit(cur, rxSize, n, pending, pages, Q());
    }

    method CopyBytes(n: nat) returns (data: seq<byte>)
      requires Valid() && cur != [] && n <= rxSize
      modifies this`rxSize, this`delivered
      ensures InStep(0, 0) && rxSize == old(rxSize) - n && delivered == old(delivered) + data
      ensures data == Chunk(DataOf(cur[0], pages), old(rxSize), n) && (lost == 0 ==> StreamAt())
    {
      hide StreamOk, Rot.Base, Rot.Agrees;
      if lost == 0 { StreamSplit(cur, rxSize, n, pending, pages, received, delivered); }
      data := Chunk(DataOf(cur[0], pages), rxSize, n);
      ghost var before := R();
      rxSize := rxSize - n;
      delivered := delivered + data;
      assert R() == before;
    }

    /** Everything of the current entry was handed out. */
    ghost predicate UsedUp()
      reads this
    {
      && InStep(0, 0) && cur != [] && rxSize == 0
      && (lost == 0 ==> StreamOk([], 0, pending, pages, received, delivered))
    }

    method FreeCopy()
      requires UsedUp() && copies
      modifies this`cur
      ensures Valid() && cur == []
    {
      ghost var before := R();
      assert [] + pending == (cur + pending)[1..];
      cur := [];
      assert R() == before.(held := before.held[1..]);
    }

    ghost function Retired(): Rot
      requires cur + pending != []
      reads this
    {
      R().(finished := finished + 1, held := (cur + pending)[1..])
    }

    /** The current page leaves the list; `ok` is whether a buffer went back for it. */
    method Retire(ok: bool)
      requires !copies && |cur| == 1 && Retired().Base()
      requires lost == 0 ==> rxError == 0 && StreamOk([], 0, pending, pages, received, delivered)
      requires lost == 0 && ok ==> Retired().Agrees(0, 0)
      requires |pending| + |ch.out| + lost + (if ok then 0 else 1) == nr - 1 && rxSize == 0
      modifies this`cur, this`finished, this`lost
      ensures Valid() && cur == [] && lost == if ok then old(lost) else old(lost) + 1
    {
      hide Rot.Base, Rot.Agrees, StreamOk;
      ghost var r := Retired();
      assert [] + pending == r.held;
      cur, finished, lost := [], finished + 1, if ok then lost else lost + 1;
      assert R() == r;
    }

    /** mhi_uci_read requeues the slot before the one it finished with. */
    method GiveBack(mapping: Mapping) returns (ok: bool)
      requires UsedUp() && !copies
      modifies this`cur, this`ch, this`finished, this`lost
      ensures Valid() && cur == []
      ensures ok == (!InError(pm) && mapping.Mapped?)
      ensures lost == if ok then old(lost) else old(lost) + 1
      ensures old(cur)[0].Page? && old(cur)[0].slot < nr
      ensures if ok then QueuedOne(old(ch), ch, addrs[Previous(old(cur)[0].slot, nr)]) else ch == old(ch)
    {
      ghost var before := R();
      assert before.held[0] == cur[0];
      ok := QueueSlot(Previous(cur[0].slot, nr), mapping);
      assert Retired().held == before.held[1..];
      if ok && lost == 0 {
        GiveBackAgrees(before, ch);
        assert Retired() == before.(ch := ch, finished := before.finished + 1, held := before.held[1..]);
      }
      Retire(ok);
    }

    /** The entry a read works on, how much of it is unread, and the list behind it. */
    function First(): UciBuf
      requires cur != [] || pending != []
      reads this
    {
      if cur != [] then cur[0] else pending[0]
    }

    function FirstLeft(): nat
      requires cur != [] || pending != []
      reads this
    {
      if cur != [] then rxSize else LenOf(pending[0])
    }

    function Behind(): seq<UciBuf>
      requires cur != [] || pending != []
      reads this
    {
      if cur != [] then pending else pending[1..]
    }

    /** What a read of `count` bytes did to the list and the ring: it stays at an entry that is
        not finished; it leaves a finished one, and a reader-driven channel gives the buffer
        before it back to the host or, when that fails, loses one. */
    ghost predicate Recycled(first: UciBuf, left: nat, behind: seq<UciBuf>, ch0: Chan, lost0: nat,
                             count: nat, mapping: Mapping, ok: bool)
      reads this
    {
      && pending == behind
      && if count < left then ok && cur == [first] && rxSize == left - count && ch == ch0 && lost == lost0
         else && cur == []
              && if copies then ok && ch == ch0 && lost == lost0
                 else && first.Page? && first.slot < nr && nr > 0 && Previous(first.slot, nr) < |addrs|
                      && (ok <==> !InError(pm) && mapping.Mapped?) && lost == lost0 + (if ok then 0 else 1)
                      && if ok then QueuedOne(ch0, ch, addrs[Previous(first.slot, nr)]) else ch == ch0
    }

    /** mhi_uci_read: the bytes returned are the next unread ones, as many as asked for unless the
        entry ends first; a finished entry is recycled. */
    method Read(count: nat, mapping: Mapping) returns (r: ReadResult)
      requires Valid()
      modifies this`cur, this`pending, this`rxSize, this`delivered, this`ch, this`finished, this`lost
      ensures Valid()
      ensures r == Invalid <==> rxError > 0
      ensures r == NotEnabled <==> rxError == 0 && !enabled
      ensures r == Again <==> rxError == 0 && enabled && old(cur) == [] && old(pending) == []
      ensures r in {Invalid, NotEnabled, Again} ==>
        && delivered == old(delivered) && ch == old(ch) && lost == old(lost)
        && cur == old(cur) && rxSize == old(rxSize) && pending == old(pending)
      ensures r.ReadOk? || r == RequeueFailed ==>
        old(cur != [] || pending != []) &&
        Recycled(old(First()), old(FirstLeft()), old(Behind()), old(ch), old(lost), count, mapping, r.ReadOk?)
      ensures r.ReadOk? && old(lost) == 0 ==>
        && r.data == TakeFrom(old(Q()), count) && Q() == LeftOf(old(Q()), count)
        && delivered == old(delivered) + r.data
      ensures old(lost) == 0 && old(cur != [] || pending != []) ==> old(Q()) != [] && |old(Q()[0])| == old(FirstLeft())
      ensures old(lost) == 0 && old(cur == [] && pending == []) ==> old(Q()) == []
    {
      if rxError > 0 { return Invalid; }
      if !enabled { return NotEnabled; }
      if cur == [] && pending == [] { return Again; }
      r := ReadNext(count, mapping);
    }

    method ReadNext(count: nat, mapping: Mapping) returns (r: ReadResult)
      requires Valid() && (cur != [] || pending != [])
      modifies this`cur, this`pending, this`rxSize, this`delivered, this`ch, this`finished, this`lost
      ensures Valid() && (r.ReadOk? || r == RequeueFailed)
      ensures Recycled(old(First()), old(FirstLeft()), old(Behind()), old(ch), old(lost), count, mapping, r.ReadOk?)
      ensures old(lost) == 0 ==> old(Q()) != [] && |old(Q()[0])| == old(FirstLeft())
      ensures r.ReadOk? && old(lost) == 0 ==>
        && r.data == TakeFrom(old(Q()), count) && Q() == LeftOf(old(Q()), count)
        && delivered == old(delivered) + r.data
    {
      NextEntry();
      r := ReadCurrent(count, mapping);
    }

    /** The part of mhi_uci_read that works on the current entry. */
    method ReadCurrent(count: nat, mapping: Mapping) returns (r: ReadResult)
      requires Valid() && cur != []
      modifies this`cur, this`rxSize, this`delivered, this`ch, this`finished, this`lost
      ensures Valid() && (r.ReadOk? || r == RequeueFailed)
      ensures Recycled(old(cur[0]), old(rxSize), pending, old(ch), old(lost), count, mapping, r.ReadOk?)
      ensures old(lost) == 0 ==> old(Q()) != [] && |old(Q()[0])| == old(rxSize)
      ensures r.ReadOk? && old(lost) == 0 ==>
        && r.data == TakeFrom(old(Q()), count) && Q() == LeftOf(old(Q()), count)
        && delivered == old(delivered) + r.data
    {
      var n := if count < rxSize then count else rxSize;
      ghost var q := Q();
      var data := CopyOut(n);
      if lost == 0 { ReadSplits(q, count, n); }
      if rxSize > 0 { return ReadOk(data); }
      var ok := Finish(mapping);
      r := if ok then ReadOk(data) else RequeueFailed;
    }

    /** The current entry was read to its end. */
    method Finish(mapping: Mapping) returns (ok: bool)
      requires UsedUp()
      modifies this`cur, this`ch, this`finished, this`lost
      ensures Valid() && Recycled(old(cur[0]), 0, pending, old(ch), old(lost), 0, mapping, ok)
      ensures old(Q()) != [] && Q() == old(Q()[1..])
    {
      EntriesDrop(cur, rxSize, pending, pages);
      ok := true;
      if copies { FreeCopy(); } else { ok := GiveBack(mapping); }
    }

    /** Whether rotation, stream and error counter are as they should be, or a buffer was lost. */
    ghost function Health(): Health
      reads this
    {
      if !Valid() then Broken else if lost > 0 then Damaged else if enabled then Sound else Broken
    }

    /** The node as a machine over its unread entries. */
    ghost function N(): Node
      reads this
    {
      Node(nr, mtu, copies)
    }

    ghost function St(): Sim
      reads this
    {
      Sim(Q(), |ch.out|, pm)
    }

    lemma ValidFacts()
      requires Valid()
      ensures |ch.out| < nr && OutstandingFifo(ch) && (lost == 0 ==> rxError == 0)
    {
    }

    /** A completion, if a buffer is outstanding. */
    method DoDone(op: Op) returns (came: seq<seq<byte>>)
      requires Health() != Broken && op.Done?
      modifies this`ch, this`pages, this`rpTrb, this`wpTrb, this`rxError, this`pending, this`lost, this`received
      ensures Health() != Broken && (old(Health()) == Damaged ==> Health() == Damaged)
      ensures old(Health()) == Sound ==> (Health() == Sound <==> N().Harmless(old(St()), op))
      ensures old(Health()) == Sound == Health() ==>
        && N().Ok(old(St())) && St() == N().Next(old(St()), op) && came == N().Came(old(St()), op)
        && received == old(received) + Concat(came)
    {
      if ch.out == [] {
        assert Concat([]) == [];
        return [];
      }
      came := DoComplete(op);
    }

    method DoComplete(op: Op) returns (came: seq<seq<byte>>)
      requires Valid() && op.Done? && ch.out != []
      modifies this`ch, this`pages, this`rpTrb, this`wpTrb, this`rxError, this`pending, this`lost, this`received
      ensures Valid() && lost >= old(lost)
      ensures old(lost) == 0 ==> (lost == 0 <==> N().Harmless(old(St()), op))
      ensures lost == 0 ==>
        && N().Ok(old(St())) && St() == N().Next(old(St()), op) && came == N().Came(old(St()), op)
        && received == old(received) + Concat(came)
    {
      hide Valid, InStep;
      ValidFacts();
      ConcatOne(op.payload);
      came := if InMtu(op.status, |op.payload|, mtu) && (copies ==> op.keep) then [op.payload] else [];
      ghost var st := St();
      Complete(op.status, op.payload, op.keep, op.mappings);
      if lost == 0 {
        assert Q() == st.q + came;
        assert |ch.out| == N().Next(st, op).out;
      }
    }

    method DoRead(op: Op) returns (got: seq<byte>)
      requires Health() != Broken && op.ReadCall?
      modifies this`cur, this`pending, this`rxSize, this`delivered, this`ch, this`finished, this`lost
      ensures Health() != Broken && (old(Health()) == Damaged ==> Health() == Damaged)
      ensures old(Health()) == Sound ==> (Health() == Sound <==> N().Harmless(old(St()), op))
      ensures old(Health()) == Sound == Health() ==>
        && N().Ok(old(St())) && St() == N().Next(old(St()), op) && got == N().Got(old(St()), op)
        && delivered == old(delivered) + got
    {
      hide Valid;
      ValidFacts();
      var r := Read(op.count, op.mapping);
      got := if r.ReadOk? then r.data else [];
    }

    method DoPower(op: Op)
      requires Health() != Broken && op.Power?
      modifies this`pm
      ensures Health() == old(Health()) && N() == old(N()) && N().Harmless(old(St()), op) && Concat([]) == []
      ensures Health() == Sound ==> N().Ok(old(St())) && St() == N().Next(old(St()), op)
    {
      pm := op.pm;
    }

    /** One completion, one read or one change of the power state. `came` is the packet it delivered
        and `got` what it read. */
    method Do(op: Op) returns (got: seq<byte>, came: seq<seq<byte>>)
      requires Health() != Broken
      modifies this`ch, this`pages, this`rpTrb, this`wpTrb, this`rxError, this`cur, this`pending, this`rxSize
      modifies this`finished, this`lost, this`received, this`delivered, this`pm
      ensures Health() != Broken && (old(Health()) == Damaged ==> Health() == Damaged)
      ensures old(Health()) == Sound ==> (Health() == Sound <==> N().Harmless(old(St()), op))
      ensures old(Health()) == Sound == Health() ==>
        && N().Ok(old(St())) && St() == N().Next(old(St()), op)
        && got == N().Got(old(St()), op) && came == N().Came(old(St()), op)
        && received == old(received) + Concat(came) && delivered == old(delivered) + got
    {
      hide Valid;
      got, came := [], [];
      match op
      case Done(_, _, _, _) => came := DoDone(op);
      case ReadCall(_, _) => got := DoRead(op);
      case Power(_) => DoPower(op);
    }

    /** Any sequence of completions, reads and power state changes. The node stays sound if and only if the sequence is
        safe, and then it has done exactly what the machine over the unread entries does. */
    method Serve(ops: seq<Op>) returns (got: seq<byte>, came: seq<seq<byte>>)
      requires Health() != Broken
      modifies this`ch, this`pages, this`rpTrb, this`wpTrb, this`rxError, this`cur, this`pending, this`rxSize
      modifies this`finished, this`lost, this`received, this`delivered, this`pm
      ensures Health() != Broken && (old(Health()) == Damaged ==> Health() == Damaged)
      ensures old(Health()) == Sound ==> (Health() == Sound <==> N().Safe(old(St()), ops))
      ensures old(Health()) == Sound == Health() ==>
        && St() == N().Final(old(St()), ops)
        && got == N().GotAll(old(St()), ops) && came == N().CameAll(old(St()), ops)
        && received == old(received) + Concat(came) && delivered == old(delivered) + got
      decreases |ops|
    {
      if ops == [] { return [], []; }
      var g, c := Do(ops[0]);
      var gs, cs := Serve(ops[1..]);
      Assoc(old(received), Concat(c), Concat(cs));
      Assoc(old(delivered), g, gs);
      ConcatSum(c, cs);
      got, came := g + gs, c + cs;
    }

    /** What was delivered and what is unread make up what was received. */
    lemma SoundStream()
      requires Health() == Sound
      ensures rxError == 0 && received == delivered + Concat(Q())
    {
      assert Stream();
      UnreadIsConcat(cur, rxSize, pending, pages);
    }
  }

  datatype Health = Sound | Damaged | Broken

  lemma Assoc(a: seq<byte>, b: seq<byte>, c: seq<byte>)
    ensures a + b + c == a + (b + c)
  {
  }

  lemma ConcatOne(p: seq<byte>)
    ensures Concat([p]) == p && Concat([]) == []
  {
    assert [p][1..] == [];
  }

  lemma {:induction false} ConcatSum(a: seq<seq<byte>>, b: seq<seq<byte>>)
    ensures Concat(a + b) == Concat(a) + Concat(b)
  {
    if a == [] {
      assert a + b == b;
    } else {
      assert (a + b)[1..] == a[1..] + b;
      ConcatSum(a[1..], b);
    }
  }

  // ---------------------------------------------------------------------------
  // The node's life

  /** mhi_uci_open on a freshly started channel: all buffers but one are with the host, in order. */
  method OpenNode(channel: Chan, pm: Pm, mtu: nat, copies: bool, addrs: seq<nat>) returns (d: UciDev)
    requires ChanInv(pm, channel) && channel.out == [] && channel.origin == |channel.returned|
    requires channel.cfg.elements == |addrs| && Distinct(addrs) && !InError(pm)
    ensures fresh(d) && d.N() == Node(|addrs|, mtu, copies) && d.addrs == addrs && d.pm == pm
    ensures d.Health() == Sound && d.St() == Sim([], |addrs| - 1, pm) && d.received == d.delivered == []
    ensures d.cur == d.pending == [] && d.rpTrb == 0 && d.rxError == 0 && d.enabled
    ensures forall k :: 0 <= k < |addrs| - 1 ==> d.ch.out[k].info.cbBuf == addrs[k]
  {
    d := new UciDev(channel, pm, mtu, copies, addrs);
    var mapping := (k: nat) => Mapped(k);
    var ok := d.QueueInbound(mapping);
  }

  /** Opened on a freshly started channel, then any completions and reads: the node stays sound
      exactly when the sequence is safe. Then no error was raised, the packets that came and the
      bytes that were read are those of the machine, and what came is what was read followed by
      what is still unread. */
  method OpenAndServe(channel: Chan, pm: Pm, mtu: nat, copies: bool, addrs: seq<nat>, ops: seq<Op>)
    returns (d: UciDev, got: seq<byte>, came: seq<seq<byte>>)
    requires ChanInv(pm, channel) && channel.out == [] && channel.origin == |channel.returned|
    requires channel.cfg.elements == |addrs| && Distinct(addrs) && !InError(pm)
    ensures d.Health() == Sound <==> Node(|addrs|, mtu, copies).Safe(Sim([], |addrs| - 1, pm), ops)
    ensures d.Health() == Sound ==>
      var node, st := Node(|addrs|, mtu, copies), Sim([], |addrs| - 1, pm);
      && d.rxError == 0 && d.St() == node.Final(st, ops)
      && got == node.GotAll(st, ops) && came == node.CameAll(st, ops)
      && Concat(came) == got + Concat(d.Q())
  {
    d := OpenNode(channel, pm, mtu, copies, addrs);
    got, came := d.Serve(ops);
    if d.Health() == Sound {
      d.SoundStream();
      assert d.received == Concat(came) && d.delivered == got;
    }
  }

  /** Transfers within the MTU and mapped requeues are always safe. */
  lemma {:induction false} FineIsSafe(node: Node, st: Sim, ops: seq<Op>)
    requires !InError(st.pm) && (forall op :: op in ops ==> Fine(op, node.mtu))
    requires node.Ok(st) && (node.copies || |st.q| + st.out == node.nr - 1)
    ensures node.Safe(st, ops)
    decreases |ops|
  {
    if ops != [] {
      assert ops[0] in ops && Fine(ops[0], node.mtu);
      FineKeeps(node, st, ops[0]);
      FineIsSafe(node, node.Next(st, ops[0]), ops[1..]);
    }
  }

  lemma FineKeeps(node: Node, st: Sim, op: Op)
    requires !InError(st.pm) && Fine(op, node.mtu) && node.Ok(st)
    requires node.copies || |st.q| + st.out == node.nr - 1
    ensures node.Harmless(st, op) && node.Ok(node.Next(st, op)) && !InError(node.Next(st, op).pm)
    ensures node.copies || |node.Next(st, op).q| + node.Next(st, op).out == node.nr - 1
  {
  }

  lemma StepConserves(node: Node, st: Sim, op: Op)
    requires node.Ok(st)
    ensures Concat(st.q) + Concat(node.Came(st, op)) == node.Got(st, op) + Concat(node.Next(st, op).q)
  {
    ConcatSum(st.q, node.Came(st, op));
    assert Concat([]) == [];
    if op.ReadCall? && st.q != [] && op.count < |st.q[0]| {
      var rest := [st.q[0][op.count..]] + st.q[1..];
      assert rest[1..] == st.q[1..];
      assert st.q[0] == st.q[0][..op.count] + st.q[0][op.count..];
      Assoc(st.q[0][..op.count], st.q[0][op.count..], Concat(st.q[1..]));
    } else if op.Done? {
      assert st.q + [] == st.q;
    }
  }

  /** No byte is lost, repeated or reordered by the machine, on any sequence of operations. */
  lemma {:induction false} NothingLost(node: Node, st: Sim, ops: seq<Op>)
    ensures Concat(st.q) + Concat(node.CameAll(st, ops)) == node.GotAll(st, ops) + Concat(node.Final(st, ops).q)
    decreases |ops|
  {
    if ops == [] || !node.Ok(st) {
      assert Concat([]) == [];
    } else {
      var st' := node.Next(st, ops[0]);
      StepConserves(node, st, ops[0]);
      NothingLost(node, st', ops[1..]);
      ConcatSum(node.Came(st, ops[0]), node.CameAll(st', ops[1..]));
      Regroup4(Concat(st.q), Concat(node.Came(st, ops[0])), Concat(node.CameAll(st', ops[1..])),
               node.Got(st, ops[0]), Concat(st'.q), node.GotAll(st', ops[1..]), Concat(node.Final(st', ops[1..]).q));
    }
  }

  lemma Regroup4(q: seq<byte>, c: seq<byte>, cs: seq<byte>, g: seq<byte>, q': seq<byte>, gs: seq<byte>, f: seq<byte>)
    requires q + c == g + q' && q' + cs == gs + f
    ensures q + (c + cs) == (g + gs) + f
  {
    Assoc(q, c, cs);
    Assoc(g, q', cs);
    Assoc(g, gs, f);
  }

  /** A reader-driven channel that is read to the end of an entry after a change of the power state keeps
      its buffer exactly if the new state is no error state and the requeue is mapped. */
  lemma PowerDecides(node: Node, st: Sim, pm: Pm, count: nat, mapping: Mapping)
    requires node.Ok(st) && !node.copies && Finishes(st.q, count) && |st.q| + st.out < node.nr
    ensures node.Safe(st, [Power(pm), ReadCall(count, mapping)]) <==> !InError(pm) && mapping.Mapped?
  {
    var ops := [Power(pm), ReadCall(count, mapping)];
    assert ops[1..] == [ReadCall(count, mapping)] && ops[1..][1..] == [];
    var st' := node.Next(st, ops[0]);
    assert node.Safe(st, ops) == node.Safe(st', ops[1..]);
    assert node.Safe(node.Next(st', ops[1]), []);
  }

  function Reads(count: nat, n: nat): (ops: seq<Op>)
    ensures |ops| == n && forall k :: 0 <= k < n ==> ops[k] == ReadCall(count, Mapped(0))
  {
    seq(n, _ => ReadCall(count, Mapped(0)))
  }

  /** Reads with a large enough buffer return one unread entry each, until all have been read. */
  lemma {:induction false} ReadsDrain(node: Node, st: Sim, count: nat)
    requires node.Ok(st) && (node.copies || |st.q| + st.out < node.nr) && !InError(st.pm)
    requires forall k :: 0 <= k < |st.q| ==> |st.q[k]| <= count
    ensures node.GotAll(st, Reads(count, |st.q|)) == Concat(st.q) && node.Safe(st, Reads(count, |st.q|))
    ensures node.Final(st, Reads(count, |st.q|)) ==
              Sim([], if node.copies then st.out else st.out + |st.q|, st.pm)
    decreases |st.q|
  {
    var ops := Reads(count, |st.q|);
    if st.q != [] {
      var st' := node.Next(st, ops[0]);
      assert st'.q == st.q[1..] && ops[1..] == Reads(count, |st'.q|);
      ReadsDrain(node, st', count);
    }
  }

  /** A completion that brings `payload`, with every requeue mapped. */
  function Packet(payload: seq<byte>): Op { Done(Success, payload, true, (j: nat) => Mapped(j)) }

  /** Completions with these payloads. */
  function Bursts(payloads: seq<seq<byte>>): (ops: seq<Op>)
    ensures |ops| == |payloads|
    ensures forall k :: 0 <= k < |ops| ==> ops[k] == Packet(payloads[k])
  {
    seq(|payloads|, k requires 0 <= k < |payloads| => Packet(payloads[k]))
  }

  /** How many more buffers the host holds after a completion: a copying channel requeues at once. */
  lemma BurstNext(node: Node, st: Sim, payload: seq<byte>)
    requires node.Ok(st) && st.out > 0 && !InError(st.pm) && 0 < |payload| <= node.mtu
    ensures var op := Packet(payload);
            && node.Harmless(st, op) && node.Came(st, op) == [payload] && node.Got(st, op) == []
            && node.Next(st, op) == Sim(st.q + [payload], if node.copies then node.nr - 1 else st.out - 1, st.pm)
  {
    AllLeading(Packet(payload).mappings, 0, node.nr - 1 - (st.out - 1));
  }

  /** The first operation of a sequence, and the rest of it. */
  lemma FirstOp(node: Node, st: Sim, ops: seq<Op>)
    requires ops != [] && node.Ok(st) && node.Harmless(st, ops[0])
    ensures var st', rest := node.Next(st, ops[0]), ops[1..];
            && node.CameAll(st, ops) == node.Came(st, ops[0]) + node.CameAll(st', rest)
            && node.GotAll(st, ops) == node.Got(st, ops[0]) + node.GotAll(st', rest)
            && node.Final(st, ops) == node.Final(st', rest) && node.Safe(st, ops) == node.Safe(st', rest)
  {
  }

  lemma StillOk(node: Node, st: Sim, st0: Sim)
    requires node.Ok(st0) && (st.out <= st0.out || st.out == node.nr - 1) && node.nr > 0
    ensures node.Ok(st)
  {
  }

  lemma NoOps(node: Node, st: Sim)
    ensures node.CameAll(st, []) == [] && node.GotAll(st, []) == [] && node.Final(st, []) == st && node.Safe(st, [])
  {
  }

  lemma {:induction false} BurstArrives(node: Node, st: Sim, payloads: seq<seq<byte>>)
    requires node.Ok(st) && !InError(st.pm) && (if node.copies then st.out == node.nr - 1 else |payloads| <= st.out)
    requires node.nr > 1 && forall k :: 0 <= k < |payloads| ==> 0 < |payloads[k]| <= node.mtu
    ensures node.CameAll(st, Bursts(payloads)) == payloads && node.GotAll(st, Bursts(payloads)) == []
    ensures node.Safe(st, Bursts(payloads))
    ensures node.Final(st, Bursts(payloads)) ==
              Sim(st.q + payloads, if node.copies then st.out else st.out - |payloads|, st.pm)
    decreases |payloads|
  {
    hide *;
    var ops := Bursts(payloads);
    if payloads == [] {
      NoOps(node, st);
      assert st.q + payloads == st.q;
    } else {
      BurstNext(node, st, payloads[0]);
      StillOk(node, node.Next(st, ops[0]), st);
      FirstOp(node, st, ops);
      assert ops[1..] == Bursts(payloads[1..]);
      BurstArrives(node, node.Next(st, ops[0]), payloads[1..]);
      assert st.q + [payloads[0]] + payloads[1..] == st.q + payloads;
    }
  }

  /** What the node is for: a burst of packets within the MTU, no more than the host has buffers for
      unless the channel copies, arrives whole; reads then return it packet by packet and byte for
      byte, and the node is as it was when it was opened. */
  lemma BurstComesThrough(node: Node, payloads: seq<seq<byte>>, pm: Pm)
    requires node.nr > 1 && !InError(pm) && (node.copies || |payloads| < node.nr)
    requires forall k :: 0 <= k < |payloads| ==> 0 < |payloads[k]| <= node.mtu
    ensures var start := Sim([], node.nr - 1, pm);
            var full := node.Final(start, Bursts(payloads));
            && node.CameAll(start, Bursts(payloads)) == payloads && full.q == payloads
            && node.GotAll(full, Reads(node.mtu, |payloads|)) == Concat(payloads)
            && node.Final(full, Reads(node.mtu, |payloads|)) == start
  {
    var start := Sim([], node.nr - 1, pm);
    BurstArrives(node, start, payloads);
    assert start.q + payloads == payloads;
    ReadsDrain(node, node.Final(start, Bursts(payloads)), node.mtu);
  }

  /** A copying channel makes up for all discarded completions at the next acceptable one ... */
  lemma CopyingRecovers(node: Node, st: Sim, op: Op)
    requires node.copies && node.Ok(st) && st.out > 0 && !InError(st.pm)
    requires op.Done? && InMtu(op.status, |op.payload|, node.mtu) && forall k: nat :: op.mappings(k).Mapped?
    ensures node.Next(st, op).out == node.nr - 1
  {
    AllLeading(op.mappings, 0, node.nr - 1 - (st.out - 1));
  }

  /** ... but if completions are discarded until the ring is empty, nothing comes any more. */
  lemma {:induction false} CopyingStarves(node: Node, st: Sim, ops: seq<Op>)
    requires node.copies && st.out == 0
    ensures node.Final(st, ops).out == 0 && node.CameAll(st, ops) == []
    decreases |ops|
  {
    if ops != [] && node.Ok(st) { CopyingStarves(node, node.Next(st, ops[0]), ops[1..]); }
  }

  lemma NextUnread(pending: seq<UciBuf>, rxSize: nat, pages: seq<seq<byte>>)
    requires pending != []
    ensures DataOfAll(pending, pages)[1..] == DataOfAll(pending[1..], pages)
    ensures LenOf(pending[0]) == |DataOf(pending[0], pages)| ==>
      && Unread([pending[0]], LenOf(pending[0]), pending[1..], pages) == Unread([], rxSize, pending, pages)
      && Entries([pending[0]], LenOf(pending[0]), pending[1..], pages) == Entries([], rxSize, pending, pages)
  {
    assert DataOfAll(pending, pages)[1..] == DataOfAll(pending[1..], pages);
    var d := DataOf(pending[0], pages);
    assert d[0..] == d;
  }

  lemma NothingLeft(cur: seq<UciBuf>, pending: seq<UciBuf>, pages: seq<seq<byte>>)
    ensures Unread(cur, 0, pending, pages) == Unread([], 0, pending, pages)
  {
    if cur != [] { assert Rest(DataOf(cur[0], pages), 0) == []; }
  }

  lemma SplitRest(d: seq<byte>, left: nat, n: nat)
    requires n <= left <= |d|
    ensures Rest(d, left) == Chunk(d, left, n) + Rest(d, left - n) && |Chunk(d, left, n)| == n
    ensures Chunk(d, left, n) == Rest(d, left)[..n] && Rest(d, left - n) == Rest(d, left)[n..]
  {
  }

  lemma Regroup(a: seq<byte>, x: seq<byte>, y: seq<byte>, z: seq<byte>)
    ensures (a + x) + (y + z) == a + ((x + y) + z)
    ensures x <= (x + y) + z
  {
  }

  lemma SplitUnread(cur: seq<UciBuf>, rxSize: nat, n: nat, pending: seq<UciBuf>, pages: seq<seq<byte>>,
                    delivered: seq<byte>)
    requires cur != [] && n <= rxSize <= |DataOf(cur[0], pages)|
    ensures |Chunk(DataOf(cur[0], pages), rxSize, n)| == n
    ensures Chunk(DataOf(cur[0], pages), rxSize, n) <= Unread(cur, rxSize, pending, pages)
    ensures (delivered + Chunk(DataOf(cur[0], pages), rxSize, n)) + Unread(cur, rxSize - n, pending, pages)
         == delivered + Unread(cur, rxSize, pending, pages)
  {
    var d := DataOf(cur[0], pages);
    SplitRest(d, rxSize, n);
    Regroup(delivered, Chunk(d, rxSize, n), Rest(d, rxSize - n), Concat(DataOfAll(pending, pages)));
  }

  lemma StreamSplit(cur: seq<UciBuf>, rxSize: nat, n: nat, pending: seq<UciBuf>, pages: seq<seq<byte>>,
                    received: seq<byte>, delivered: seq<byte>)
    requires StreamOk(cur, rxSize, pending, pages, received, delivered) && cur != [] && n <= rxSize
    ensures |Chunk(DataOf(cur[0], pages), rxSize, n)| == n
    ensures Chunk(DataOf(cur[0], pages), rxSize, n) <= Unread(cur, rxSize, pending, pages)
    ensures StreamOk(if n == rxSize then [] else cur, rxSize - n, pending, pages, received,
                     delivered + Chunk(DataOf(cur[0], pages), rxSize, n))
  {
    SplitUnread(cur, rxSize, n, pending, pages, delivered);
    NothingLeft(cur, pending, pages);
  }

  lemma QueuedLast(c: Chan, c': Chan, addr: nat)
    requires OutstandingFifo(c) && QueuedOne(c, c', addr)
    ensures |c'.out| == |c.out| + 1 && c'.out[|c.out|].info.cbBuf == addr
    ensures forall j :: 0 <= j < |c.out| ==> c'.out[j].info.cbBuf == c.out[j].info.cbBuf
  {
    forall j | 0 <= j < |c.out| ensures c'.out[j].info.cbBuf == c.out[j].info.cbBuf {
      assert c'.accepted[|c.returned| + j] == c.accepted[|c.returned| + j];
    }
  }
}
