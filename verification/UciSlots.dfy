/** Which buffers a reader-driven UCI node holds, expects and requeues, for every sequence of
    operations: also after a buffer was lost, when user space no longer gets what was sent. */
module UciSlots {
  import opened PowerStates
  import opened HostSpec
  import opened HostLaws
  import opened Octets
  import opened Uci

  /** How a read ends: with bytes, with nothing to read, with a failed requeue or as invalid. */
  datatype Ending = Data | Empty | NoRequeue | Dead

  /** The slots that the host holds, oldest first; the slot expected next; the list of user space
      with the bytes left of each entry; the errors raised and the power state. */
  datatype Slots = Slots(nr: nat, mtu: nat, ring: seq<nat>, rp: nat, list: seq<(nat, nat)>, errors: nat, pm: Pm)
  {
    function Next(op: Op): (m: Slots)
      requires nr > 0
      ensures m.nr == nr && m.mtu == mtu && m.errors >= errors
    {
      match op
      case Done(status, payload, _, _) =>
        if ring == [] then this
        else if ring[0] != rp then this.(ring := ring[1..], errors := errors + 1)
        else this.(ring := ring[1..], rp := if rp + 1 == nr then 0 else rp + 1,
                   list := list + if InMtu(status, |payload|, mtu) then [(rp, |payload|)] else [])
      case ReadCall(count, m) =>
        if errors > 0 || list == [] then this
        else if count < list[0].1 then this.(list := [(list[0].0, list[0].1 - count)] + list[1..])
        else this.(list := list[1..], ring := ring + Requeue(m))
      case Power(state) => this.(pm := state)
    }

    /** The slot that goes back when the first entry is finished. */
    function Requeue(m: Mapping): seq<nat>
      requires nr > 0 && list != []
    {
      if !InError(pm) && m.Mapped? then [Previous(list[0].0, nr)] else []
    }

    /** How a read ends; other operations have no answer. */
    function Answer(op: Op): seq<Ending>
      requires nr > 0
    {
      if !op.ReadCall? then []
      else if errors > 0 then [Dead]
      else if list == [] then [Empty]
      else if op.count >= list[0].1 && Requeue(op.mapping) == [] then [NoRequeue]
      else [Data]
    }

    ghost function Final(ops: seq<Op>): (m: Slots)
      requires nr > 0
      ensures m.nr == nr && m.mtu == mtu && m.errors >= errors
      decreases |ops|
    {
      if ops == [] then this else Next(ops[0]).Final(ops[1..])
    }

    ghost function Answers(ops: seq<Op>): seq<Ending>
      requires nr > 0
      decreases |ops|
    {
      if ops == [] then [] else Answer(ops[0]) + Next(ops[0]).Answers(ops[1..])
    }
  }

  // ---------------------------------------------------------------------------
  // The node does what the machine does

  function ListOf(cur: seq<UciBuf>, rxSize: nat, pending: seq<UciBuf>): (l: seq<(nat, nat)>) {
    (if cur == [] then [] else [(SlotOf(cur[0]), rxSize)]) + ListEntries(pending)
  }

  function SlotOf(b: UciBuf): nat { if b.Page? then b.slot else 0 }

  function ListEntries(bs: seq<UciBuf>): (l: seq<(nat, nat)>)
    ensures |l| == |bs|
  {
    seq(|bs|, k requires 0 <= k < |bs| => (SlotOf(bs[k]), LenOf(bs[k])))
  }

  ghost predicate RingIs(out: seq<Item>, ring: seq<nat>, addrs: seq<nat>) {
    |ring| == |out| && forall j :: 0 <= j < |ring| ==> ring[j] < |addrs| && out[j].info.cbBuf == addrs[ring[j]]
  }

  /** The node is in the state of the machine. */
  ghost predicate Shows(d: UciDev, m: Slots)
    reads d
  {
    && d.Valid() && !d.copies && d.enabled
    && m.nr == d.nr == |d.addrs| && m.nr > 0 && m.mtu == d.mtu && m.rp == d.rpTrb
    && m.errors == d.rxError && m.pm == d.pm
    && RingIs(d.ch.out, m.ring, d.addrs) && m.list == ListOf(d.cur, d.rxSize, d.pending)
  }

  lemma ListEntriesSnoc(bs: seq<UciBuf>, b: UciBuf)
    ensures ListEntries(bs + [b]) == ListEntries(bs) + [(SlotOf(b), LenOf(b))]
  {
  }

  lemma ListParts(d: UciDev)
    requires d.cur != [] || d.pending != []
    ensures ListOf(d.cur, d.rxSize, d.pending) == [(SlotOf(d.First()), d.FirstLeft())] + ListEntries(d.Behind())
  {
  }

  /** A completion. */
  method PlayDone(d: UciDev, op: Op, ghost m: Slots)
    requires Shows(d, m) && op.Done?
    modifies d`ch, d`pages, d`rpTrb, d`wpTrb, d`rxError, d`pending, d`lost, d`received
    ensures Shows(d, m.Next(op)) && m.Answer(op) == []
  {
    hide ListEntries;
    if d.ch.out == [] { return; }
    assert Distinct(d.addrs) && d.rpTrb < d.nr;
    ghost var list := d.pending;
    d.Complete(op.status, op.payload, op.keep, op.mappings);
    if d.pending != list { ListEntriesSnoc(list, Page(m.rp, |op.payload|)); }
  }

  lemma RingGrows(c: Chan, c': Chan, ring: seq<nat>, addrs: seq<nat>, slot: nat)
    requires OutstandingFifo(c) && RingIs(c.out, ring, addrs) && slot < |addrs| && QueuedOne(c, c', addrs[slot])
    ensures RingIs(c'.out, ring + [slot], addrs)
  {
    QueuedLast(c, c', addrs[slot]);
  }

  /** The list after a read of `count` bytes from its first entry. */
  lemma ListAfter(b: UciBuf, left: nat, behind: seq<UciBuf>, rxSize: nat)
    ensures ListOf([b], left, behind) == [(SlotOf(b), left)] + ListEntries(behind)
    ensures ListOf([], rxSize, behind) == ListEntries(behind)
  {
  }

  /** What a recycled entry leaves is the next state of the machine. */
  lemma RecycledShows(d: UciDev, m: Slots, op: Op, first: UciBuf, left: nat, behind: seq<UciBuf>, c: Chan, lost: nat,
                      ok: bool)
    requires d.Valid() && !d.copies && d.enabled && op.ReadCall? && m.errors == 0 && d.rxError == 0
    requires m.nr == d.nr == |d.addrs| && m.nr > 0 && m.mtu == d.mtu && m.rp == d.rpTrb && m.pm == d.pm
    requires OutstandingFifo(c) && RingIs(c.out, m.ring, d.addrs)
    requires m.list == [(SlotOf(first), left)] + ListEntries(behind)
    requires d.Recycled(first, left, behind, c, lost, op.count, op.mapping, ok)
    ensures Shows(d, m.Next(op)) && m.Answer(op) == [if ok then Data else NoRequeue]
  {
    hide UciDev.Valid, OutstandingFifo, RingIs, ListEntries, ListOf, QueuedOne, Previous;
    ListAfter(first, if op.count < left then left - op.count else 0, behind, d.rxSize);
    assert m.list[1..] == ListEntries(behind);
    if op.count >= left && ok { RingGrows(c, d.ch, m.ring, d.addrs, Previous(first.slot, d.nr)); }
    assert m.ring + [] == m.ring;
  }

  /** A read. */
  method PlayRead(d: UciDev, op: Op, ghost m: Slots) returns (e: Ending)
    requires Shows(d, m) && op.ReadCall?
    modifies d`cur, d`pending, d`rxSize, d`delivered, d`ch, d`finished, d`lost
    ensures Shows(d, m.Next(op)) && m.Answer(op) == [e]
  {
    hide UciDev.Valid, UciDev.Recycled, RingIs;
    d.ValidFacts();
    ghost var c, lost, some := d.ch, d.lost, d.cur != [] || d.pending != [];
    ghost var first, left, behind;
    if some {
      first, left, behind := d.First(), d.FirstLeft(), d.Behind();
      ListParts(d);
    }
    var r := d.Read(op.count, op.mapping);
    e := match r case ReadOk(_) => Data case Invalid => Dead case Again => Empty case _ => NoRequeue;
    if r.ReadOk? || r == RequeueFailed {
      RecycledShows(d, m, op, first, left, behind, c, lost, r.ReadOk?);
    }
  }

  /** One operation. */
  method PlayOne(d: UciDev, op: Op, ghost m: Slots) returns (es: seq<Ending>)
    requires Shows(d, m)
    modifies d
    ensures Shows(d, m.Next(op)) && es == m.Answer(op)
  {
    hide *;
    es := [];
    match op
    case Done(_, _, _, _) => PlayDone(d, op, m);
    case ReadCall(_, _) =>
      var e := PlayRead(d, op, m);
      es := [e];
    case Power(state) => PlayPower(d, op, m);
  }

  method PlayPower(d: UciDev, op: Op, ghost m: Slots)
    requires Shows(d, m) && op.Power?
    modifies d`pm
    ensures Shows(d, m.Next(op)) && m.Answer(op) == []
  {
    d.pm := op.pm;
  }

  /** Any sequence of operations: the node, sound or damaged, holds, expects and requeues exactly
      the slots that the machine says, raises exactly its errors, and answers every read so. */
  method Play(d: UciDev, ops: seq<Op>, ghost m: Slots) returns (es: seq<Ending>)
    requires Shows(d, m)
    modifies d
    ensures Shows(d, m.Final(ops)) && es == m.Answers(ops)
    decreases |ops|
  {
    hide Shows, Slots.Next, Slots.Answer;
    ShowsSome(d, m);
    if ops == [] { return []; }
    var first := PlayOne(d, ops[0], m);
    ShowsSome(d, m.Next(ops[0]));
    var rest := Play(d, ops[1..], m.Next(ops[0]));
    es := first + rest;
  }

  lemma ShowsSome(d: UciDev, m: Slots)
    requires Shows(d, m)
    ensures m.nr > 0
  {
  }

  // ---------------------------------------------------------------------------
  // After an error

  function Reads(ops: seq<Op>): nat {
    if ops == [] then 0 else (if ops[0].ReadCall? then 1 else 0) + Reads(ops[1..])
  }

  /** Once an error was raised it stays, and every read is refused, whatever else happens. */
  lemma {:induction false} ErrorsStay(m: Slots, ops: seq<Op>)
    requires m.nr > 0 && m.errors > 0
    ensures m.Answers(ops) == seq(Reads(ops), _ => Dead) && m.Final(ops).errors >= m.errors
    decreases |ops|
  {
    if ops != [] { ErrorsStay(m.Next(ops[0]), ops[1..]); }
  }

  // ---------------------------------------------------------------------------
  // One discarded completion

  function Range(a: nat, b: nat): (r: seq<nat>)
    requires a <= b
    ensures |r| == b - a && forall k :: 0 <= k < |r| ==> r[k] == a + k
  {
    seq(b - a, k requires 0 <= k => a + k)
  }

  /** The node as it is opened: all slots but the last are with the host. */
  function Fresh(nr: nat, mtu: nat, pm: Pm): Slots
    requires nr > 0
  {
    Slots(nr, mtu, Range(0, nr - 1), 0, [], 0, pm)
  }

  function Arrives(payload: seq<byte>): Op { Done(Success, payload, true, (k: nat) => Mapped(k)) }

  /** Slot 0 completes without data; slot 1 completes with a packet that is read to its end; then
      the rest of the ring completes, whatever it carries, and one buffer more. */
  function Script(nr: nat, packet: seq<byte>, count: nat, payloads: nat -> seq<byte>): seq<Op>
    requires nr >= 3
  {
    [Arrives([]), Arrives(packet), ReadCall(count, Mapped(0))] + RestOps(nr, 2, payloads)
  }

  function RestOps(nr: nat, k: nat, payloads: nat -> seq<byte>): (ops: seq<Op>)
    requires k <= nr
    ensures |ops| == nr - k
  {
    seq(nr - k, j requires 0 <= j => Arrives(payloads(k + j)))
  }

  /** From slot `k` on the ring is in order, with slot 0 behind it. */
  lemma {:induction false} RestFails(m: Slots, k: nat, payloads: nat -> seq<byte>)
    requires 2 <= k < m.nr && m.errors == 0 && m.rp == k && m.ring == Range(k, m.nr - 1) + [0]
    ensures m.Final(RestOps(m.nr, k, payloads)).errors == 1 && m.Answers(RestOps(m.nr, k, payloads)) == []
    decreases m.nr - k
  {
    var ops := RestOps(m.nr, k, payloads);
    assert ops[0] == Arrives(payloads(k));
    var m' := m.Next(ops[0]);
    if k == m.nr - 1 {
      assert m.ring == [0] && ops[1..] == [];
    } else {
      assert m.ring[0] == k && m'.ring == Range(k + 1, m.nr - 1) + [0];
      assert ops[1..] == RestOps(m.nr, k + 1, payloads);
      RestFails(m', k + 1, payloads);
    }
  }

  /** One discarded completion is enough, for any number of buffers from three on and whatever the
      later transfers carry: the reader gives slot 0 back out of turn, and when it completes again
      where the last slot is expected, an error is raised. */
  lemma OneDiscardRaisesAnError(nr: nat, mtu: nat, pm: Pm, packet: seq<byte>, count: nat, payloads: nat -> seq<byte>)
    requires nr >= 3 && !InError(pm) && 0 < |packet| <= mtu && |packet| <= count
    ensures Fresh(nr, mtu, pm).Final(Script(nr, packet, count, payloads)).errors == 1
    ensures Fresh(nr, mtu, pm).Answers(Script(nr, packet, count, payloads)) == [Data]
  {
    var ops := Script(nr, packet, count, payloads);
    var m0 := Fresh(nr, mtu, pm);
    var m1 := m0.Next(ops[0]);
    var m2 := m1.Next(ops[1]);
    var m3 := m2.Next(ops[2]);
    assert m1.ring == Range(1, nr - 1) && m2.ring == Range(2, nr - 1) && m2.list == [(1, |packet|)];
    assert m3 == Slots(nr, mtu, Range(2, nr - 1) + [0], 2, [], 0, pm);
    RestFails(m3, 2, payloads);
    var ops1, ops2, ops3 := ops[1..], ops[2..], RestOps(nr, 2, payloads);
    assert ops1[0] == ops[1] && ops1[1..] == ops2 && ops2[0] == ops[2] && ops2[1..] == ops3;
    OneStep(m0, ops, m1);
    OneStep(m1, ops1, m2);
    OneStep(m2, ops2, m3);
  }

  lemma OneStep(m: Slots, ops: seq<Op>, m': Slots)
    requires m.nr > 0 && ops != [] && m' == m.Next(ops[0])
    ensures m.Final(ops) == m'.Final(ops[1..]) && m.Answers(ops) == m.Answer(ops[0]) + m'.Answers(ops[1..])
  {
    hide Slots.Next, Slots.Answer;
  }

  /** On the device: a freshly opened node that plays the script has raised exactly one error, and
      whatever comes later, every read is refused. */
  method OneDiscardStopsTheNode(d: UciDev, packet: seq<byte>, count: nat, payloads: nat -> seq<byte>, later: seq<Op>)
    returns (errors: nat, es: seq<Ending>)
    requires d.nr >= 3 && Shows(d, Fresh(d.nr, d.mtu, d.pm)) && !InError(d.pm)
    requires 0 < |packet| <= d.mtu && |packet| <= count
    modifies d
    ensures errors == 1
    ensures Shows(d, Fresh(d.nr, d.mtu, old(d.pm)).Final(Script(d.nr, packet, count, payloads)).Final(later))
    ensures d.rxError >= 1 && es == seq(Reads(later), _ => Dead)
  {
    ghost var m := Fresh(d.nr, d.mtu, d.pm);
    OneDiscardRaisesAnError(d.nr, d.mtu, d.pm, packet, count, payloads);
    var script := Script(d.nr, packet, count, payloads);
    var before := Play(d, script, m);
    errors := d.rxError;
    m := m.Final(script);
    ErrorsStay(m, later);
    es := Play(d, later, m);
  }

  /** Such a node exists: mhi_uci_open leaves it so. */
  method OpenShows(channel: Chan, pm: Pm, mtu: nat, addrs: seq<nat>) returns (d: UciDev)
    requires ChanInv(pm, channel) && channel.out == [] && channel.origin == |channel.returned|
    requires channel.cfg.elements == |addrs| && Distinct(addrs) && !InError(pm)
    ensures fresh(d) && d.nr == |addrs| && d.mtu == mtu && d.pm == pm && Shows(d, Fresh(d.nr, mtu, pm))
  {
    d := OpenNode(channel, pm, mtu, false, addrs);
    assert ListOf(d.cur, d.rxSize, d.pending) == [];
  }
}
