/** Blocks with any number of datagrams (mhi_netdev_quectel.c): what is delivered from them, in which
    order, and the round trip of a block that carries several. */
module MbimBlocks {
  import opened Octets
  import Qmap
  import opened Mbim

  // ---------------------------------------------------------------------------
  // The order of delivery

  /** An entry whose datagram is delivered: it lies in the block, names a non-empty IP packet in it
      that is within rx_max, and there is a device and a buffer for it. */
  predicate Good(cfg: Config, s: seq<byte>, off: nat, dev: nat, x: nat, room: nat)
    requires dev < |cfg.devs|
  {
    && off + 12 + 4 * x <= |s| && room > 0 && cfg.devs[dev].Registered?
    && var from, len := U16(s, off + 8 + 4 * x), U16(s, off + 10 + 4 * x);
       from != 0 && 0 < len <= cfg.rxMax && from + len <= |s| && Qmap.IsIp(s[from])
  }

  /** The last entry of a table: one of its fields is zero. */
  predicate Closes(s: seq<byte>, off: nat, x: nat) {
    off + 12 + 4 * x <= |s| && (U16(s, off + 8 + 4 * x) == 0 || U16(s, off + 10 + 4 * x) == 0)
  }

  /** Which entries are delivered and which end a table without an error. */
  lemma EntryIff(cfg: Config, s: seq<byte>, off: nat, dev: nat, x: nat, room: nat)
    requires cfg.Ok() && dev < |cfg.devs|
    ensures EntryAt(cfg, s, off, dev, x, room).Take? <==> Good(cfg, s, off, dev, x, room)
    ensures EntryAt(cfg, s, off, dev, x, room) == Stop(Go) <==> Closes(s, off, x)
  {
  }

  /** Entry `y` is good, and `slice` is what it names. */
  ghost predicate Names(cfg: Config, s: seq<byte>, off: nat, dev: nat, y: nat, room: int, slice: Qmap.Slice)
    requires dev < |cfg.devs|
  {
    && room >= 0 && Good(cfg, s, off, dev, y, room)
    && slice == Qmap.Slice(dev, U16(s, off + 8 + 4 * y), U16(s, off + 10 + 4 * y))
  }

  /** A table is delivered entry by entry: the k-th datagram is the one that entry `x + k` names, all
      entries before the first that is not good are delivered, and the walk along the chain goes
      on exactly if the table was used up or that entry closes it. */
  lemma {:induction false} TableInOrder(cfg: Config, s: seq<byte>, off: nat, dev: nat, x: nat, n: nat, room: nat)
    requires cfg.Ok() && dev < |cfg.devs| && x <= n
    ensures var p := Entries(cfg, s, off, dev, x, n, room);
            && x + |p.out| <= n
            && (forall k :: 0 <= k < |p.out| ==> Names(cfg, s, off, dev, x + k, room - k, p.out[k]))
            && (x + |p.out| < n ==> !Good(cfg, s, off, dev, x + |p.out|, room - |p.out|))
            && (p.verdict == Go <==> x + |p.out| == n || Closes(s, off, x + |p.out|))
    decreases n - x
  {
    hide Good, Closes;
    if x < n {
      EntryIff(cfg, s, off, dev, x, room);
      var e := EntryAt(cfg, s, off, dev, x, room);
      if e.Take? {
        TableInOrder(cfg, s, off, dev, x + 1, n, room - 1);
        var p, q := Entries(cfg, s, off, dev, x, n, room), Entries(cfg, s, off, dev, x + 1, n, room - 1);
        assert p == Part([e.slice] + q.out, q.verdict);
        assert Names(cfg, s, off, dev, x, room, e.slice);
        forall k | 0 <= k < |p.out| ensures Names(cfg, s, off, dev, x + k, room - k, p.out[k]) {
          if k > 0 { assert Names(cfg, s, off, dev, x + 1 + (k - 1), room - 1 - (k - 1), q.out[k - 1]); }
        }
      }
    }
  }

  /** What the turn that starts at a place delivers. */
  ghost function FromPlace(cfg: Config, s: seq<byte>, p: Place): seq<Qmap.Slice>
    requires cfg.Ok()
  {
    if p.Left? || p.off == 0 then [] else Ndp(cfg, s, p.off, p.room).out
  }

  /** What the first `k` turns deliver, NDP by NDP. */
  ghost function FromTurns(cfg: Config, s: seq<byte>, off: nat, room: nat, k: nat): seq<Qmap.Slice>
    requires cfg.Ok()
  {
    if k == 0 then [] else FromTurns(cfg, s, off, room, k - 1) + FromPlace(cfg, s, After(cfg, s, off, room, k - 1))
  }

  lemma {:induction false} TurnsFromNext(cfg: Config, s: seq<byte>, off: nat, room: nat, k: nat)
    requires cfg.Ok() && off != 0 && Ndp(cfg, s, off, room).verdict.Go?
    ensures var p := Ndp(cfg, s, off, room);
            FromTurns(cfg, s, off, room, k + 1) == p.out + FromTurns(cfg, s, U16(s, off + 6), room - |p.out|, k)
    decreases k
  {
    hide Ndp;
    var p := Ndp(cfg, s, off, room);
    var next, left := U16(s, off + 6), room - |p.out|;
    if k == 0 {
      assert FromTurns(cfg, s, off, room, 0) == [] && After(cfg, s, off, room, 0) == At(off, room);
      assert FromTurns(cfg, s, off, room, 1) == [] + p.out == p.out;
    } else {
      TurnsFromNext(cfg, s, off, room, k - 1);
      assert After(cfg, s, off, room, k) == After(cfg, s, next, left, k - 1);
      var done, more := FromTurns(cfg, s, next, left, k - 1), FromPlace(cfg, s, After(cfg, s, next, left, k - 1));
      assert p.out + done + more == p.out + (done + more);
    }
  }

  /** The turn at which the walk is left delivers what its NDP still has. */
  lemma LastTurn(cfg: Config, s: seq<byte>, off: nat, room: nat)
    requires cfg.Ok()
    ensures FromTurns(cfg, s, off, room, 1) == if off == 0 then [] else Ndp(cfg, s, off, room).out
    ensures FromTurns(cfg, s, off, room, 0) == []
  {
    hide Ndp;
    assert FromTurns(cfg, s, off, room, 0) == [] && After(cfg, s, off, room, 0) == At(off, room);
  }

  /** A whole block is delivered NDP by NDP along the chain, up to and including the one at which the
      walk is left; when it hangs, up to the place where it goes round without delivering anything. */
  lemma {:induction false} WalkInOrder(cfg: Config, s: seq<byte>, off: nat, room: nat, seen: set<int>) returns (k: nat)
    requires cfg.Ok() && off < 0x10000
    ensures var r := Walk(cfg, s, off, room, seen);
            && r.out == FromTurns(cfg, s, off, room, k)
            && (r.end.Done? ==> k > 0 && EndsAt(cfg, s, off, room, k - 1, r.end.verdict))
            && (r.end == Hangs ==> After(cfg, s, off, room, k).At?)
    decreases room, OFFSETS - seen
  {
    hide Ndp, FromTurns, FromPlace;
    LastTurn(cfg, s, off, room);
    if off != 0 && off in seen {
      k := 0;
    } else if off == 0 || !Ndp(cfg, s, off, room).verdict.Go? {
      k := 1;
    } else {
      var p := Ndp(cfg, s, off, room);
      assert off in OFFSETS - seen;
      k := WalkInOrder(cfg, s, U16(s, off + 6), room - |p.out|, if p.out == [] then seen + {off} else {});
      TurnsFromNext(cfg, s, off, room, k);
      k := k + 1;
    }
  }

  /** The places of the walk are the NDPs of the chain. */
  lemma {:induction false} PlacesAreChain(cfg: Config, s: seq<byte>, off: nat, room: nat, k: nat)
    requires cfg.Ok() && After(cfg, s, off, room, k).At?
    ensures After(cfg, s, off, room, k).off == Hop(s, off, k)
    decreases k
  {
    hide Ndp;
    if k > 0 { PlacesAreChain(cfg, s, U16(s, off + 6), room - |Ndp(cfg, s, off, room).out|, k - 1); }
  }

  /** Nothing is delivered from a block unless it starts with an NTH16 header that says NCMH and a
      length within rx_max. */
  lemma OnlyBlocks(cfg: Config, s: seq<byte>, room: nat)
    requires cfg.Ok() && Receive(cfg, s, room).out != []
    ensures |s| >= 20 && s[..4] == [0x4E, 0x43, 0x4D, 0x48] && U16(s, 8) <= cfg.rxMax
  {
  }

  /** IP streams and device service streams never share a session number. */
  lemma StreamsApart(a: seq<byte>, b: seq<byte>)
    requires |a| >= 8 && |b| >= 8 && a[..3] == [0x49, 0x50, 0x53] && b[..3] == [0x44, 0x53, 0x53]
    ensures SessionOf(a, 0) == Session(a[3]) && SessionOf(b, 0).Session? && SessionOf(a, 0) != SessionOf(b, 0)
  {
    assert a[0] == a[..3][0] && a[1] == a[..3][1] && a[2] == a[..3][2];
    assert b[0] == b[..3][0] && b[1] == b[..3][1] && b[2] == b[..3][2];
  }

  // ---------------------------------------------------------------------------
  // A block with several datagrams

  function Pair(from: nat, len: nat): (b: seq<byte>)
    ensures |b| == 4
  {
    [Lo(from), Hi(from), Lo(len), Hi(len)]
  }

  /** The table for datagrams that lie one after the other from `from` on, and the entry that ends it. */
  function Table(datas: seq<seq<byte>>, from: nat): (b: seq<byte>)
    ensures |b| == 4 * |datas| + 4
  {
    if datas == [] then Pair(0, 0) else Pair(from, |datas[0]|) + Table(datas[1..], from + |datas[0]|)
  }

  function Payload(datas: seq<seq<byte>>): seq<byte> {
    if datas == [] then [] else datas[0] + Payload(datas[1..])
  }

  /** The fields of an NDP16 before its table. */
  function NdpHead(tci: byte, length: nat): (b: seq<byte>)
    ensures |b| == 8
  {
    [0x49, 0x50, 0x53, tci, Lo(length), Hi(length), 0, 0]
  }

  /** NTH16, one NDP16 with its table, and the datagrams. */
  function ManyBlock(seqNo: nat, tci: byte, datas: seq<seq<byte>>): (b: seq<byte>)
    ensures |b| == 24 + 4 * |datas| + |Payload(datas)|
  {
    var first := 24 + 4 * |datas|;
    Nth16(seqNo, first + |Payload(datas)|, 12).Bytes() + NdpHead(tci, 12 + 4 * |datas|)
    + Table(datas, first) + Payload(datas)
  }

  /** From entry `x` on the table names the datagrams, which lie in the block from `from` on. */
  ghost predicate Lists(b: seq<byte>, off: nat, x: nat, datas: seq<seq<byte>>, from: nat)
    decreases |datas|
  {
    && off + 12 + 4 * x <= |b|
    && if datas == [] then Closes(b, off, x)
       else && U16(b, off + 8 + 4 * x) == from && U16(b, off + 10 + 4 * x) == |datas[0]|
            && from + |datas[0]| <= |b| && b[from..from + |datas[0]|] == datas[0]
            && Lists(b, off, x + 1, datas[1..], from + |datas[0]|)
  }

  lemma PairAt(b: seq<byte>, at: nat, from: nat, len: nat)
    requires at + 4 <= |b| && b[at..at + 4] == Pair(from, len) && from < 0x10000 && len < 0x10000
    ensures U16(b, at) == from && U16(b, at + 2) == len
  {
    FieldAt(b, at, Pair(from, len), 0, from);
    FieldAt(b, at, Pair(from, len), 2, len);
  }

  /** Where a prefix and the rest of a part lie. */
  lemma PartSplits(b: seq<byte>, at: nat, x: seq<byte>, y: seq<byte>)
    requires at + |x| + |y| <= |b| && b[at..at + |x| + |y|] == x + y
    ensures b[at..at + |x|] == x && b[at + |x|..at + |x| + |y|] == y
  {
    assert b[at..at + |x|] == b[at..at + |x| + |y|][..|x|];
    assert b[at + |x|..at + |x| + |y|] == b[at..at + |x| + |y|][|x|..];
  }

  lemma {:induction false} TableLists(b: seq<byte>, off: nat, x: nat, datas: seq<seq<byte>>, from: nat)
    requires |b| < 0x10000 && off + 8 + 4 * x + |Table(datas, from)| <= |b| && from + |Payload(datas)| <= |b|
    requires b[off + 8 + 4 * x..off + 8 + 4 * x + |Table(datas, from)|] == Table(datas, from)
    requires b[from..from + |Payload(datas)|] == Payload(datas)
    ensures Lists(b, off, x, datas, from)
    decreases |datas|
  {
    hide U16, Pair;
    var at := off + 8 + 4 * x;
    if datas == [] {
      PairAt(b, at, 0, 0);
    } else {
      var d, rest := datas[0], datas[1..];
      PartSplits(b, at, Pair(from, |d|), Table(rest, from + |d|));
      PartSplits(b, from, d, Payload(rest));
      PairAt(b, at, from, |d|);
      TableLists(b, off, x + 1, rest, from + |d|);
    }
  }

  /** Every datagram is a non-empty IP packet within rx_max. */
  predicate AllGood(cfg: Config, datas: seq<seq<byte>>) {
    forall k :: 0 <= k < |datas| ==> datas[k] != [] && |datas[k]| <= cfg.rxMax && Qmap.IsIp(datas[k][0])
  }

  function For(dev: nat, datas: seq<seq<byte>>): (r: seq<(nat, seq<byte>)>)
    ensures |r| == |datas|
  {
    seq(|datas|, k requires 0 <= k < |datas| => (dev, datas[k]))
  }

  lemma ForCons(dev: nat, datas: seq<seq<byte>>)
    requires datas != []
    ensures For(dev, datas) == [(dev, datas[0])] + For(dev, datas[1..])
  {
  }

  lemma {:induction false} ListsDelivers(cfg: Config, b: seq<byte>, off: nat, dev: nat, x: nat, datas: seq<seq<byte>>,
                                         from: nat, room: nat)
    requires cfg.Ok() && dev < |cfg.devs| && cfg.devs[dev].Registered? && room >= |datas| && from > 0
    requires Lists(b, off, x, datas, from) && AllGood(cfg, datas)
    ensures var p := Entries(cfg, b, off, dev, x, x + |datas| + 1, room);
            p.verdict == Go && Qmap.Datagrams(b, p.out) == For(dev, datas)
    decreases |datas|
  {
    EntryIff(cfg, b, off, dev, x, room);
    var p := Entries(cfg, b, off, dev, x, x + |datas| + 1, room);
    if datas == [] {
      assert p == Part([], Go);
    } else {
      var d := datas[0];
      assert b[from] == b[from..from + |d|][0];
      var q := Entries(cfg, b, off, dev, x + 1, x + |datas| + 1, room - 1);
      assert p == Part([Qmap.Slice(dev, from, |d|)] + q.out, q.verdict);
      ListsDelivers(cfg, b, off, dev, x + 1, datas[1..], from + |d|, room - 1);
      ForCons(dev, datas);
      Qmap.DatagramsOfSum(b, [Qmap.Slice(dev, from, |d|)], q.out);
      assert Qmap.Datagrams(b, [Qmap.Slice(dev, from, |d|)]) == [(dev, d)];
    }
  }

  lemma ManyFields(seqNo: nat, tci: byte, datas: seq<seq<byte>>, b: seq<byte>)
    requires b == ManyBlock(seqNo, tci, datas) && |b| < 0x10000
    ensures b[0] == 0x4E && b[1] == 0x43 && b[2] == 0x4D && b[3] == 0x48
    ensures U16(b, 8) == |b| && U16(b, 10) == 12 && SessionOf(b, 12) == Session(tci)
    ensures U16(b, 16) == 12 + 4 * |datas| && U16(b, 18) == 0
    ensures Lists(b, 12, 0, datas, 24 + 4 * |datas|)
  {
    hide *;
    ManyLayout(seqNo, tci, datas, b);
    NthStart(b, seqNo);
    NdpStart(b, tci, 12 + 4 * |datas|);
    TableLists(b, 12, 0, datas, 24 + 4 * |datas|);
  }

  lemma ManyLayout(seqNo: nat, tci: byte, datas: seq<seq<byte>>, b: seq<byte>)
    requires b == ManyBlock(seqNo, tci, datas)
    ensures var first, t, p := 24 + 4 * |datas|, Table(datas, 24 + 4 * |datas|), Payload(datas);
            && |b| == first + |p| && first == 20 + |t|
            && b[0..12] == Nth16(seqNo, |b|, 12).Bytes() && b[12..20] == NdpHead(tci, 12 + 4 * |datas|)
            && b[20..20 + |t|] == t && b[first..first + |p|] == p
  {
    hide Table, Payload, Nth16.Bytes, NdpHead;
    var first := 24 + 4 * |datas|;
    var nth := Nth16(seqNo, first + |Payload(datas)|, 12);
    FourParts(nth.Bytes(), NdpHead(tci, 12 + 4 * |datas|), Table(datas, first), Payload(datas), b);
  }

  lemma FourParts(w: seq<byte>, x: seq<byte>, y: seq<byte>, z: seq<byte>, b: seq<byte>)
    requires b == w + x + y + z
    ensures b[0..|w|] == w && b[|w|..|w| + |x|] == x && b[|w| + |x|..|w| + |x| + |y|] == y
    ensures b[|w| + |x| + |y|..|w| + |x| + |y| + |z|] == z
  {
  }

  lemma NthStart(b: seq<byte>, seqNo: nat)
    requires 20 <= |b| < 0x10000 && b[0..12] == Nth16(seqNo, |b|, 12).Bytes()
    ensures b[0] == 0x4E && b[1] == 0x43 && b[2] == 0x4D && b[3] == 0x48 && U16(b, 8) == |b| && U16(b, 10) == 12
  {
    hide Nth16.Bytes;
    NthFields(Nth16(seqNo, |b|, 12), b);
    Residue(|b|, 0, |b|);
    Residue(12, 0, 12);
  }

  lemma NdpStart(b: seq<byte>, tci: byte, length: nat)
    requires |b| >= 20 && b[12..20] == NdpHead(tci, length) && length < 0x10000
    ensures SessionOf(b, 12) == Session(tci) && U16(b, 16) == length && U16(b, 18) == 0
  {
    var ndp := NdpHead(tci, length);
    FieldAt(b, 12, ndp, 4, length);
    FieldAt(b, 12, ndp, 6, 0);
    assert b[12] == ndp[0] && b[13] == ndp[1] && b[14] == ndp[2] && b[15] == ndp[3];
  }

  /** What a block with several datagrams delivers when its session is accepted. */
  lemma ManyReceived(cfg: Config, i: nat, datas: seq<seq<byte>>, seqNo: nat, room: nat, b: seq<byte>)
    requires cfg.Ok() && i < cfg.mode && cfg.devs[i].Registered? && datas != [] && room >= |datas|
    requires b == ManyBlock(seqNo, Tci(cfg, i), datas) && |b| < 0x10000
    ensures HeaderOk(cfg, b) && MuxFits(cfg, i) && AllGood(cfg, datas) ==>
              Receive(cfg, b, room).end == Done(Go) && Delivered(cfg, b, room) == For(i, datas)
    ensures HeaderOk(cfg, b) <==> |b| <= cfg.rxMax
    ensures !(HeaderOk(cfg, b) && MuxFits(cfg, i)) ==> Receive(cfg, b, room).out == []
  {
    hide Entries, Block, ManyBlock, Lists;
    ManyFields(seqNo, Tci(cfg, i), datas, b);
    MuxIff(cfg, i);
    if HeaderOk(cfg, b) && MuxFits(cfg, i) && AllGood(cfg, datas) {
      ListsDelivers(cfg, b, 12, i, 0, datas, 24 + 4 * |datas|, room);
      var p := Ndp(cfg, b, 12, room);
      assert p == Entries(cfg, b, 12, i, 0, |datas| + 1, room);
      assert Walk(cfg, b, 0, room - |p.out|, if p.out == [] then {12} else {}) == Outcome([], Done(Go));
      assert Walk(cfg, b, 12, room, {}) == Outcome(p.out + [], Done(Go));
      assert p.out + [] == p.out;
    }
  }

  // ---------------------------------------------------------------------------
  // Several NDPs

  /** The datagrams of one NDP: the child they are for, and where in the block the first one lies. */
  datatype Group = Group(child: nat, datas: seq<seq<byte>>, from: nat)

  /** The NDP at `off` carries the datagrams of `g`. */
  ghost predicate CarriesGroup(cfg: Config, b: seq<byte>, off: nat, g: Group) {
    && cfg.Ok() && off != 0 && g.child < cfg.mode && cfg.devs[g.child].Registered? && MuxFits(cfg, g.child)
    && off + 8 <= |b| && SessionOf(b, off) == Session(Tci(cfg, g.child))
    && U16(b, off + 4) == 12 + 4 * |g.datas| && g.datas != [] && g.from > 0
    && Lists(b, off, 0, g.datas, g.from) && AllGood(cfg, g.datas)
  }

  /** From `off` on the chain of NDPs carries the groups, and then it ends. */
  ghost predicate Chained(cfg: Config, b: seq<byte>, off: nat, gs: seq<Group>)
    decreases |gs|
  {
    if gs == [] then off == 0
    else CarriesGroup(cfg, b, off, gs[0]) && Chained(cfg, b, U16(b, off + 6), gs[1..])
  }

  ghost function AllOf(gs: seq<Group>): seq<(nat, seq<byte>)> {
    if gs == [] then [] else For(gs[0].child, gs[0].datas) + AllOf(gs[1..])
  }

  lemma GroupDelivers(cfg: Config, b: seq<byte>, off: nat, g: Group, room: nat)
    requires CarriesGroup(cfg, b, off, g) && room >= |g.datas|
    ensures var p := Ndp(cfg, b, off, room);
            p.verdict == Go && |p.out| == |g.datas| && Qmap.Datagrams(b, p.out) == For(g.child, g.datas)
  {
    hide Entries;
    MuxIff(cfg, g.child);
    LastListed(b, off, 0, g.datas, g.from);
    ListsDelivers(cfg, b, off, g.child, 0, g.datas, g.from, room);
    assert Ndp(cfg, b, off, room) == Entries(cfg, b, off, g.child, 0, |g.datas| + 1, room);
  }

  /** A table that closes lies in the block. */
  lemma {:induction false} LastListed(b: seq<byte>, off: nat, x: nat, datas: seq<seq<byte>>, from: nat)
    requires Lists(b, off, x, datas, from)
    ensures off + 12 + 4 * (x + |datas|) <= |b|
    decreases |datas|
  {
    if datas != [] { LastListed(b, off, x + 1, datas[1..], from + |datas[0]|); }
  }

  /** A block whose NDPs carry datagrams for any children delivers all of them: the NDPs in chain order,
      within each the datagrams in table order, every one unchanged on its own child. */
  lemma {:induction false} ChainDelivers(cfg: Config, b: seq<byte>, off: nat, gs: seq<Group>, room: nat)
    requires cfg.Ok() && off < 0x10000 && Chained(cfg, b, off, gs) && room >= |AllOf(gs)|
    ensures var r := Walk(cfg, b, off, room, {}); r.end == Done(Go) && Qmap.Datagrams(b, r.out) == AllOf(gs)
    decreases |gs|
  {
    hide Ndp, CarriesGroup;
    if gs == [] {
      assert Qmap.Datagrams(b, []) == [];
    } else {
      OffsetOf(cfg, b, off, gs[0]);
      GroupDelivers(cfg, b, off, gs[0], room);
      var p := Ndp(cfg, b, off, room);
      ChainDelivers(cfg, b, U16(b, off + 6), gs[1..], room - |p.out|);
      Qmap.DatagramsOfSum(b, p.out, Walk(cfg, b, U16(b, off + 6), room - |p.out|, {}).out);
    }
  }

  lemma OffsetOf(cfg: Config, b: seq<byte>, off: nat, g: Group)
    requires CarriesGroup(cfg, b, off, g)
    ensures off != 0 && off + 8 <= |b| && g.datas != []
  {
  }

  lemma DeliveredGood(cfg: Config, i: nat, datas: seq<seq<byte>>, room: nat, b: seq<byte>)
    requires cfg.Ok() && HeaderOk(cfg, b) && Delivered(cfg, b, room) == For(i, datas)
    ensures AllGood(cfg, datas)
  {
    hide Walk;
    var out := Receive(cfg, b, room).out;
    WalkSound(cfg, b, U16(b, 10), room, {});
    forall k | 0 <= k < |datas| ensures datas[k] != [] && |datas[k]| <= cfg.rxMax && Qmap.IsIp(datas[k][0]) {
      assert Qmap.Datagrams(b, out)[k] == For(i, datas)[k];
      assert datas[k] == Qmap.Bytes(b, out[k]);
    }
  }

  /** The round trip of a block with any number of datagrams, exactly: they all come out, unchanged and
      in order, on child `i`, if and only if each is an IP packet, the block is within rx_max and the
      session number fits its byte. */
  lemma ManyRoundTripIff(cfg: Config, i: nat, datas: seq<seq<byte>>, seqNo: nat, room: nat)
    requires cfg.Ok() && i < cfg.mode && cfg.devs[i].Registered? && datas != [] && room >= |datas|
    requires |ManyBlock(seqNo, Tci(cfg, i), datas)| < 0x10000
    ensures Delivered(cfg, ManyBlock(seqNo, Tci(cfg, i), datas), room) == For(i, datas) <==>
              && |ManyBlock(seqNo, Tci(cfg, i), datas)| <= cfg.rxMax && MuxFits(cfg, i)
              && forall k :: 0 <= k < |datas| ==> datas[k] != [] && Qmap.IsIp(datas[k][0])
  {
    hide ManyBlock, Receive;
    var b := ManyBlock(seqNo, Tci(cfg, i), datas);
    ManyReceived(cfg, i, datas, seqNo, room, b);
    if Delivered(cfg, b, room) == For(i, datas) {
      assert |Receive(cfg, b, room).out| == |datas|;
      DeliveredGood(cfg, i, datas, room, b);
    }
    forall k | 0 <= k < |datas| ensures |datas[k]| <= |b| { PartOfPayload(datas, k); }
  }

  lemma {:induction false} PartOfPayload(datas: seq<seq<byte>>, k: nat)
    requires k < |datas|
    ensures |datas[k]| <= |Payload(datas)|
  {
    if k > 0 { PartOfPayload(datas[1..], k - 1); }
  }

  /** A block with one datagram is one of these, so `Mbim.Exchange` sends such blocks. */
  lemma OneIsMany(seqNo: nat, tci: byte, data: seq<byte>)
    ensures ManyBlock(seqNo, tci, [data]) == Block(seqNo, tci, data)
  {
    assert [data][1..] == [];
    assert Payload([data]) == data + [] == data;
    assert Table([data], HEADER) == Pair(HEADER, |data|) + Pair(0, 0);
    assert NdpHead(tci, 16) + Table([data], HEADER) == Ndp16(tci, 16, 0, HEADER, |data|).Bytes();
    assert ManyBlock(seqNo, tci, [data]) ==
           Nth16(seqNo, HEADER + |data|, 12).Bytes() + (NdpHead(tci, 16) + Table([data], HEADER)) + data;
  }
}
