/** The write side of the UCI device (mhi_uci.c): user data goes out in chunks of at most the
    MTU. Only the end of a transfer raises an interrupt, so a writer that finds the ring full
    depends on the newest element carrying the end-of-transfer flag. */
module UciUplink {
  import opened PowerStates
  import opened HostSpec
  import opened Octets

  datatype WriteResult =
    | Written(count: nat) | InvalidWrite | Disabled | WouldBlock
    | QueueFailed(error: QueueResult) | NoBuffer | CopyFailed(left: nat)

  /** What may end a write between two chunks: the node is disabled while the writer waits, the
      kernel buffer is not allocated, the user's bytes cannot all be read, or the node is disabled
      just before the chunk would be queued. */
  datatype Hazard = NoHazard | GoneWaiting | Unallocated | Unreadable(left: nat) | GoneLater

  function ResultOf(h: Hazard): WriteResult
    requires h != NoHazard
  {
    match h
    case Unallocated => NoBuffer
    case Unreadable(left) => CopyFailed(left)
    case _ => Disabled
  }

  /** What ends a write early: a full ring, the queue call in an error state or without a mapping,
      or the hazard that was met. */
  predicate Cause(r: WriteResult, pm: Pm, mapping: Mapping, hazard: Hazard) {
    || r == WouldBlock
    || (InError(pm) && r == QueueFailed(Io))
    || (!InError(pm) && mapping.MapFailed? && r == QueueFailed(MapError(mapping.error)))
    || (hazard != NoHazard && r == ResultOf(hazard))
  }

  /** No chunk meets a hazard, and each can be mapped. */
  ghost predicate Smooth(mapping: nat -> Mapping, hazard: nat -> Hazard) {
    forall k :: mapping(k).Mapped? && hazard(k) == NoHazard
  }

  /** The first `n` chunks met nothing that ends a write. */
  ghost predicate Passable(pm: Pm, mapping: nat -> Mapping, hazard: nat -> Hazard, n: nat) {
    forall k :: 0 <= k < n ==> !InError(pm) && mapping(k).Mapped? && hazard(k) == NoHazard
  }

  /** How one turn of the write loop ends. */
  datatype Turn = GoOn | Leave(r: WriteResult)

  /** One queued chunk and whether it ends the transfer. */
  datatype Piece = Piece(data: seq<byte>, eot: bool)

  ghost function Bytes(ps: seq<Piece>): seq<byte> {
    if ps == [] then [] else ps[0].data + Bytes(ps[1..])
  }

  lemma {:induction false} BytesSnoc(ps: seq<Piece>, p: Piece)
    ensures Bytes(ps + [p]) == Bytes(ps) + p.data
  {
    if ps == [] {
      assert ps + [p] == [p] && [p][1..] == [];
    } else {
      assert (ps + [p])[1..] == ps[1..] + [p];
      BytesSnoc(ps[1..], p);
    }
  }

  /** A full ring ends in an element that will raise a completion. */
  ghost predicate FullMeansEot(c: Chan) {
    |c.out| + 1 == c.cfg.elements && c.out != [] ==> HasEot(c.out[|c.out| - 1].tre)
  }

  /** A writer that finds the ring full will be woken: its newest element raises an interrupt. */
  ghost predicate WillWake(c: Chan) {
    |c.out| + 1 == c.cfg.elements && FullMeansEot(c)
  }

  /** Chunks are non-empty and within the MTU. */
  ghost predicate Sized(ps: seq<Piece>, mtu: nat) {
    forall k :: 0 <= k < |ps| ==> 0 < |ps[k].data| <= mtu
  }

  /** An element of the ring and what its buffer held when it was queued. */
  datatype Pushed = Pushed(item: Item, data: seq<byte>)

  /** The element carries piece `p` in the buffer at `buf`. */
  ghost predicate Carries(e: Pushed, p: Piece, buf: nat) {
    && e.data == p.data && e.item.info.cbBuf == buf
    && e.item.info.len == |p.data| && e.item.tre.dword0 == |p.data| % 0x10000
    && (HasEot(e.item.tre) <==> p.eot)
  }

  ghost predicate AllCarried(es: seq<Pushed>, ps: seq<Piece>, bufs: nat -> nat) {
    |es| == |ps| && forall k :: 0 <= k < |ps| ==> Carries(es[k], ps[k], bufs(k))
  }

  ghost function BufsUpTo(bufs: nat -> nat, n: nat): (s: seq<nat>)
    ensures |s| == n && forall k :: 0 <= k < n ==> s[k] == bufs(k)
  {
    seq(n, k requires 0 <= k => bufs(k))
  }

  /** The ring is the end of the log, and the log says which buffers were accepted. */
  ghost predicate LogOk(c: Chan, log: seq<Pushed>) {
    && |c.out| <= |log| <= |c.accepted|
    && (forall j :: 0 <= j < |c.out| ==> c.out[j] == log[|log| - |c.out| + j].item)
    && forall k :: 0 <= k < |log| ==> log[k].item.info.cbBuf == c.accepted[|c.accepted| - |log| + k]
  }

  lemma LogPush(c: Chan, c': Chan, log: seq<Pushed>, e: Pushed)
    requires LogOk(c, log) && c'.out == c.out + [e.item] && c'.accepted == c.accepted + [e.item.info.cbBuf]
    ensures LogOk(c', log + [e])
  {
  }

  /** The pieces of a call up to `off`. */
  ghost predicate Cut(ps: seq<Piece>, data: seq<byte>, off: nat, mtu: nat)
    requires off <= |data|
  {
    && Sized(ps, mtu) && Bytes(ps) == data[..off]
    && (off == |data| && data != [] ==> ps != [] && ps[|ps| - 1].eot)
  }

  lemma CutNone(data: seq<byte>, mtu: nat)
    ensures Cut([], data, 0, mtu)
  {
  }

  lemma CutNext(ps: seq<Piece>, data: seq<byte>, off: nat, size: nat, mtu: nat, p: Piece)
    requires off + size <= |data| && Cut(ps, data, off, mtu) && 0 < size <= mtu
    requires p.data == data[off..off + size] && (off + size == |data| ==> p.eot)
    ensures Cut(ps + [p], data, off + size, mtu)
  {
    BytesSnoc(ps, p);
    assert data[..off + size] == data[..off] + p.data;
  }

  ghost predicate SentIs(accepted: seq<nat>, pushed: seq<Pushed>, acc: seq<nat>, log: seq<Pushed>,
                         ps: seq<Piece>, bufs: nat -> nat)
  {
    && accepted == acc + BufsUpTo(bufs, |ps|) && |pushed| == |log| + |ps| && log == pushed[..|log|]
    && AllCarried(pushed[|log|..], ps, bufs)
  }

  lemma SentNext(accepted: seq<nat>, pushed: seq<Pushed>, accepted': seq<nat>, pushed': seq<Pushed>,
                 acc: seq<nat>, log: seq<Pushed>, ps: seq<Piece>, bufs: nat -> nat, p: Piece)
    requires SentIs(accepted, pushed, acc, log, ps, bufs) && accepted' == accepted + [bufs(|ps|)]
    requires |pushed'| == |pushed| + 1 && pushed == pushed'[..|pushed|] && Carries(pushed'[|pushed|], p, bufs(|ps|))
    ensures SentIs(accepted', pushed', acc, log, ps + [p], bufs)
  {
    assert BufsUpTo(bufs, |ps| + 1) == BufsUpTo(bufs, |ps|) + [bufs(|ps|)];
    assert acc + BufsUpTo(bufs, |ps|) + [bufs(|ps|)] == acc + (BufsUpTo(bufs, |ps|) + [bufs(|ps|)]);
    assert pushed' == pushed + [pushed'[|pushed|]];
    assert pushed'[|log|..] == pushed[|log|..] + [pushed'[|pushed|]];
    assert pushed[..|log|] == pushed'[..|log|];
  }

  class Writer {
    const mtu: nat
    var ch: Chan
    var pm: Pm
    var enabled: bool
    var rxError: nat
    /** What was copied into each kernel buffer. */
    var mem: map<nat, seq<byte>>
    /** Everything that was ever queued, oldest first; the ring holds the end of it. */
    ghost var pushed: seq<Pushed>

    constructor (channel: Chan, power: Pm, size: nat)
      requires ChanOk(channel) && channel.out == []
      ensures Valid() && mtu == size && ch == channel && pm == power && enabled && rxError == 0 && pushed == []
    {
      mtu, ch, pm, enabled, rxError, mem, pushed := size, channel, power, true, 0, map[], [];
    }

    ghost predicate Valid()
      reads this
    {
      ChanOk(ch) && FullMeansEot(ch) && LogOk(ch, pushed)
    }

    /** The device completes some of the outstanding chunks; the newest one stays the newest. */
    method Completions(n: nat)
      requires Valid()
      modifies this`ch
      ensures Valid() && ch.cfg == old(ch.cfg) && |ch.out| <= old(|ch.out|) && ch.accepted == old(ch.accepted)
    {
      for i := 0 to n
        invariant Valid() && ch.cfg == old(ch.cfg) && |ch.out| <= old(|ch.out|) && ch.accepted == old(ch.accepted)
      {
        if ch.out != [] { ch := Pop(ch, Success, 0); }
      }
    }

    /** Queue the chunk that lies in the buffer at `buf`. The flag was chosen from `avail`, the
        number of free descriptors seen a moment ago; completions in between can only have freed
        more. */
    method QueueChunk(len: nat, buf: nat, avail: nat, more: bool, mapping: Mapping) returns (r: QueueResult)
      requires Valid() && 0 < avail <= ch.cfg.elements - 1 - |ch.out| && buf in mem
      modifies this`ch, this`pushed
      ensures Valid() && ch.cfg == old(ch.cfg)
      ensures r == if InError(pm) then Io else if mapping.MapFailed? then MapError(mapping.error) else Queued
      ensures r != Queued ==> ch == old(ch) && pushed == old(pushed)
      ensures r == Queued ==>
        && |pushed| == |old(pushed)| + 1 && old(pushed) == pushed[..|old(pushed)|]
        && ch.accepted == old(ch.accepted) + [buf] && |ch.out| == old(|ch.out|) + 1
        && (len == |mem[buf]| ==> Carries(pushed[|old(pushed)|], Piece(mem[buf], !(avail > 1 && more)), buf))
    {
      var flags := if avail > 1 && more then Chain else Eot;
      var req := Request(BufQueue, buf, len, flags, mapping);
      EotBit(ch.cfg, req);
      r := Admission(pm, ch, req);
      if r == Queued {
        ghost var e := Pushed(MakeItem(ch.cfg, req), mem[buf]);
        LogPush(ch, Enqueued(pm, ch, req), pushed, e);
        pushed := pushed + [e];
        ch := Enqueued(pm, ch, req);
      }
    }

    /** One turn of the write loop for the data from `off` on: the chunk is copied into its buffer
        and queued, unless a full ring, a hazard or the queue call ends the write. */
    method WriteChunk(data: seq<byte>, off: nat, done: nat, doneLater: nat, buf: nat, mapping: Mapping, hazard: Hazard)
      returns (t: Turn, size: nat, ghost p: Piece)
      requires Valid() && mtu > 0 && off < |data|
      modifies this`ch, this`mem, this`pushed
      ensures Valid() && size == (if |data| - off < mtu then |data| - off else mtu)
      ensures p.data == data[off..off + size] && (off + size == |data| ==> p.eot)
      ensures t.Leave? ==> pushed == old(pushed) && ch.accepted == old(ch.accepted)
      ensures t.GoOn? ==>
        && |pushed| == |old(pushed)| + 1 && old(pushed) == pushed[..|old(pushed)|]
        && ch.accepted == old(ch.accepted) + [buf] && Carries(pushed[|old(pushed)|], p, buf)
      ensures t.GoOn? ==> !InError(pm) && mapping.Mapped? && hazard == NoHazard
      ensures t == Leave(WouldBlock) ==> WillWake(ch)
      ensures t.Leave? ==> Cause(t.r, pm, mapping, hazard)
    {
      size := if |data| - off < mtu then |data| - off else mtu;
      Completions(done);
      var avail := ch.cfg.elements - 1 - |ch.out|;
      p := Piece(data[off..off + size], !(avail > 1 && off + size < |data|));
      if avail == 0 { return Leave(WouldBlock), size, p; }
      if hazard == GoneWaiting || hazard == Unallocated { return Leave(ResultOf(hazard)), size, p; }
      mem := mem[buf := data[off..off + size]];
      if hazard != NoHazard { return Leave(ResultOf(hazard)), size, p; }
      Completions(doneLater);
      var q := QueueChunk(size, buf, avail, off + size < |data|, mapping);
      t := if q == Queued then GoOn else Leave(QueueFailed(q));
    }

    /** Since the logs were `acc` and `log`, exactly the pieces `ps` were queued, in order, each in
        its own buffer. */
    ghost predicate Sent(acc: seq<nat>, log: seq<Pushed>, ps: seq<Piece>, bufs: nat -> nat)
      reads this
    {
      SentIs(ch.accepted, pushed, acc, log, ps, bufs)
    }

    lemma SentMeans(acc: seq<nat>, log: seq<Pushed>, ps: seq<Piece>, bufs: nat -> nat)
      requires Sent(acc, log, ps, bufs)
      ensures ch.accepted == acc + BufsUpTo(bufs, |ps|) && |pushed| == |log| + |ps| && log == pushed[..|log|]
      ensures AllCarried(pushed[|log|..], ps, bufs)
    {
    }

    /** One more piece, if there is room for it. */
    method SendNext(data: seq<byte>, off: nat, i: nat, done: nat -> nat, bufs: nat -> nat, mapping: Mapping,
                    hazard: Hazard, ghost acc: seq<nat>, ghost log: seq<Pushed>, ghost ps: seq<Piece>)
      returns (t: Turn, off': nat, ghost ps': seq<Piece>)
      requires Valid() && mtu > 0 && off < |data| && i == |ps|
      requires Sent(acc, log, ps, bufs) && Cut(ps, data, off, mtu)
      modifies this`ch, this`mem, this`pushed
      ensures Valid() && off' <= |data| && Cut(ps', data, off', mtu)
      ensures Sent(acc, log, ps', bufs)
      ensures t.GoOn? ==> off' > off && |ps'| == i + 1
      ensures t.GoOn? ==> !InError(pm) && mapping.Mapped? && hazard == NoHazard
      ensures t == Leave(WouldBlock) ==> WillWake(ch)
      ensures t.Leave? ==> |ps'| == i && Cause(t.r, pm, mapping, hazard)
    {
      hide Valid, Cut, SentIs, WillWake, Carries;
      ghost var accepted, before := ch.accepted, pushed;
      var size;
      ghost var p;
      t, size, p := WriteChunk(data, off, done(2 * i), done(2 * i + 1), bufs(i), mapping, hazard);
      off', ps' := off, ps;
      if t.GoOn? {
        SentNext(accepted, before, ch.accepted, pushed, acc, log, ps, bufs, p);
        CutNext(ps, data, off, size, mtu, p);
        off', ps' := off + size, ps + [p];
      }
    }

    /** mhi_uci_write. `done` says how many completions are handled before the free descriptors
        are counted and again before the chunk is queued, and `hazard` what may end the write at
        each chunk; `ps` are the chunks that were queued. Whatever ends the write, they concatenate
        to a prefix of the user's bytes, to all of them on success. Exactly the buffers they were
        copied into were queued, in order, each with its length and with the EOT bit the piece
        says. A write that ends early says why, by what met the chunk after the last one queued. */
    method Write(data: seq<byte>, done: nat -> nat, bufs: nat -> nat, mapping: nat -> Mapping, hazard: nat -> Hazard)
      returns (r: WriteResult, ghost ps: seq<Piece>)
      requires Valid() && mtu > 0
      modifies this`ch, this`mem, this`pushed
      ensures Valid() && Sized(ps, mtu) && Bytes(ps) <= data
      ensures ch.accepted == old(ch.accepted) + BufsUpTo(bufs, |ps|)
      ensures |pushed| == |old(pushed)| + |ps| && old(pushed) == pushed[..|old(pushed)|]
      ensures AllCarried(pushed[|old(pushed)|..], ps, bufs)
      ensures r == InvalidWrite <==> data == [] || rxError > 0
      ensures r.Written? ==> r.count == |data| && Bytes(ps) == data && ps != [] && ps[|ps| - 1].eot
      ensures r == WouldBlock ==> WillWake(ch)
      ensures Passable(pm, mapping, hazard, |ps|)
      ensures data != [] && rxError == 0 ==>
        if !enabled then r == Disabled && ps == []
        else r.Written? || Cause(r, pm, mapping(|ps|), hazard(|ps|))
      ensures data != [] && rxError == 0 && enabled && !InError(pm) && Smooth(mapping, hazard) ==>
        r.Written? || r == WouldBlock
    {
      hide Valid, Sent, Sized, AllCarried, WillWake, Bytes, InError;
      ps := [];
      SentNone(old(ch.accepted), old(pushed), bufs);
      CutNone(data, mtu);
      if data == [] || rxError > 0 { r := InvalidWrite; }
      else if !enabled { r := Disabled; }
      else {
        var off;
        r, ps, off := WriteLoop(data, done, bufs, mapping, hazard);
        assert off == |data| ==> data[..off] == data;
      }
      SentMeans(old(ch.accepted), old(pushed), ps, bufs);
    }

    lemma SentNone(acc: seq<nat>, log: seq<Pushed>, bufs: nat -> nat)
      requires acc == ch.accepted && log == pushed
      ensures Sent(acc, log, [], bufs)
    {
      assert acc + BufsUpTo(bufs, 0) == acc && log == pushed[..|log|] && pushed[|log|..] == [];
    }

    method WriteLoop(data: seq<byte>, done: nat -> nat, bufs: nat -> nat, mapping: nat -> Mapping,
                     hazard: nat -> Hazard)
      returns (r: WriteResult, ghost ps: seq<Piece>, off: nat)
      requires Valid() && mtu > 0 && data != []
      modifies this`ch, this`mem, this`pushed
      ensures Valid() && off <= |data| && Cut(ps, data, off, mtu)
      ensures Sent(old(ch.accepted), old(pushed), ps, bufs)
      ensures Passable(pm, mapping, hazard, |ps|) && (r.Written? ==> off == |data| == r.count)
      ensures !r.Written? ==> Cause(r, pm, mapping(|ps|), hazard(|ps|))
      ensures r == WouldBlock ==> WillWake(ch)
    {
      hide Valid, Sent, Cut, WillWake;
      ps := [];
      SentNone(ch.accepted, pushed, bufs);
      CutNone(data, mtu);
      off := 0;
      var i: nat := 0;
      while off < |data|
        invariant Valid() && off <= |data| && i == |ps| && Cut(ps, data, off, mtu)
        invariant Sent(old(ch.accepted), old(pushed), ps, bufs) && Passable(pm, mapping, hazard, i)
        decreases |data| - off
      {
        var t;
        t, off, ps := SendNext(data, off, i, done, bufs, mapping(i), hazard(i), old(ch.accepted), old(pushed), ps);
        if t.Leave? { r := t.r; return; }
        i := i + 1;
      }
      r := Written(|data|);
    }
  }
}
