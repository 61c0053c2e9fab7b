/** Firmware download over BHIe (mhi_boot.c): the image is scattered over equal segments that a
    vector table describes to the device; the table's own buffer is the last segment. */
module Firmware {
  import opened Octets

  datatype VecEntry = VecEntry(dma: nat, size: nat)

  const VEC_ENTRY: nat := 16

  // ---------------------------------------------------------------------------
  // Sizes

  /** DIV_ROUND_UP */
  function Ceil(n: nat, d: nat): (c: nat)
    requires d > 0
  {
    (n + d - 1) / d
  }

  /** `c` segments hold `n` bytes and one fewer do not. */
  lemma CeilExact(n: nat, d: nat, c: nat)
    requires d > 0
    ensures c == Ceil(n, d) <==> n <= c * d && (n > 0 ==> (c as int - 1) * d < n) && (n == 0 ==> c == 0)
  {
    var q, r := (n + d - 1) / d, (n + d - 1) % d;
    assert n + d - 1 == q * d + r;
    assert (q - 1) * d == q * d - d;
    if n == 0 { assert q == 0 by { if q >= 1 { Times(1, q, d); } } }
    if n <= c * d && (n > 0 ==> (c as int - 1) * d < n) && (n == 0 ==> c == 0) && n > 0 {
      assert (c as int - 1) * d == c * d - d;
      if c < q { Times(c, q - 1, d); }
      if q < c { Times(q, c - 1, d); }
    }
  }

  lemma Times(a: int, b: int, d: nat)
    requires a <= b
    ensures a * d <= b * d
  {
    assert b * d - a * d == (b - a) * d;
  }

  /** The length of segment `i` of a table for `size` bytes. */
  function SegLen(size: nat, seg: nat, i: nat): nat
    requires seg > 0
  {
    if i == Ceil(size, seg) then VEC_ENTRY * i else seg
  }

  /** The bytes of the first `n` segments together. */
  function Total(size: nat, seg: nat, n: nat): nat
    requires seg > 0
  {
    if n == 0 then 0 else Total(size, seg, n - 1) + SegLen(size, seg, n - 1)
  }

  /** What a whole table costs: the segments, and sixteen bytes for each. */
  lemma TotalOfTable(size: nat, seg: nat)
    requires seg > 0
    ensures Total(size, seg, Ceil(size, seg) + 1) == Ceil(size, seg) * (seg + VEC_ENTRY)
  {
    var c := Ceil(size, seg);
    TotalOfSegments(size, seg, c);
    assert c * (seg + VEC_ENTRY) == c * seg + c * VEC_ENTRY;
  }

  lemma {:induction false} TotalOfSegments(size: nat, seg: nat, n: nat)
    requires seg > 0 && n <= Ceil(size, seg)
    ensures Total(size, seg, n) == n * seg
  {
    if n > 0 {
      TotalOfSegments(size, seg, n - 1);
      assert (n - 1) * seg + seg == n * seg;
    }
  }

  // ---------------------------------------------------------------------------
  // The image table

  class ImageInfo {
    const size: nat
    const seg: nat
    const entries: nat
    /** The bus address of each segment. */
    const dma: seq<nat>
    /** The contents of each segment; of the last one the vector table is the only view. */
    const bufs: array<seq<byte>>
    const vec: array<VecEntry>

    ghost predicate Layout()
      reads bufs
    {
      && seg > 0 && entries == Ceil(size, seg) + 1 && |dma| == entries && bufs.Length == entries
      && vec.Length * VEC_ENTRY == SegLen(size, seg, entries - 1)
      && forall i :: 0 <= i < entries - 1 ==> |bufs[i]| == seg
    }

    constructor (size: nat, seg: nat, dma: seq<nat>)
      requires seg > 0 && |dma| == Ceil(size, seg) + 1
      ensures Layout() && fresh(bufs) && fresh(vec)
      ensures this.size == size && this.seg == seg && this.dma == dma
    {
      this.size, this.seg, this.entries, this.dma := size, seg, |dma|, dma;
      bufs := new seq<byte>[|dma|](_ => seq(seg, _ => 0));
      vec := new VecEntry[|dma| - 1](_ => VecEntry(0, 0));
    }
  }

  class Controller {
    const segLen: nat
    /** Bytes of coherent memory held. */
    var allocSize: int
    /** Other kernel allocations held: table descriptors and their arrays. */
    var kmallocs: int

    constructor (segLen: nat)
      ensures this.segLen == segLen && allocSize == 0 && kmallocs == 0
    {
      this.segLen, allocSize, kmallocs := segLen, 0, 0;
    }

    method Rollback(size: nat, failed: nat)
      requires segLen > 0
      modifies this`allocSize
      ensures allocSize == old(allocSize) - Total(size, segLen, failed)
    {
      var i: nat := failed;
      while i > 0
        invariant i <= failed
        invariant allocSize == old(allocSize) - Total(size, segLen, failed) + Total(size, segLen, i)
      {
        i := i - 1;
        allocSize := allocSize - SegLen(size, segLen, i);
      }
    }

    /** mhi_alloc_bhie_table. `infoOk`, `arrayOk` and `ok(i)` say which allocations succeed and
        `addr` where they land. On failure the coherent memory is given back; the array of
        segment descriptors is not. */
    method AllocTable(size: nat, infoOk: bool, arrayOk: bool, ok: nat -> bool, addr: nat -> nat)
      returns (img: ImageInfo?)
      requires segLen > 0
      modifies this
      ensures img != null <==> infoOk && arrayOk && forall i :: 0 <= i <= Ceil(size, segLen) ==> ok(i)
      ensures img == null ==> allocSize == old(allocSize)
      ensures img == null ==> kmallocs == old(kmallocs) + if infoOk && arrayOk then 1 else 0
      ensures img != null ==> fresh(img) && fresh(img.bufs) && fresh(img.vec) && img.Layout()
      ensures img != null ==> img.size == size && img.seg == segLen && kmallocs == old(kmallocs) + 2
      ensures img != null ==> forall k :: 0 <= k < img.entries ==> img.dma[k] == addr(k)
      ensures img != null ==> allocSize == old(allocSize) + Ceil(size, segLen) * (segLen + VEC_ENTRY)
    {
      if !infoOk { return null; }
      if !arrayOk { return null; }
      kmallocs := kmallocs + 2;
      var segments := Ceil(size, segLen) + 1;
      var i := 0;
      while i < segments
        invariant i <= segments && kmallocs == old(kmallocs) + 2
        invariant allocSize == old(allocSize) + Total(size, segLen, i)
        invariant forall k :: 0 <= k < i ==> ok(k)
      {
        if !ok(i) {
          Rollback(size, i);
          kmallocs := kmallocs - 1;
          return null;
        }
        allocSize := allocSize + if i == segments - 1 then VEC_ENTRY * i else segLen;
        i := i + 1;
      }
      TotalOfTable(size, segLen);
      img := new ImageInfo(size, segLen, seq(segments, k requires 0 <= k => addr(k)));
    }

    /** mhi_free_bhie_table. */
    method FreeTable(img: ImageInfo)
      requires img.Layout() && img.seg == segLen
      modifies this
      ensures allocSize == old(allocSize) - Ceil(img.size, segLen) * (segLen + VEC_ENTRY)
      ensures kmallocs == old(kmallocs) - 2
    {
      for i := 0 to img.entries
        invariant allocSize == old(allocSize) - Total(img.size, segLen, i) && kmallocs == old(kmallocs)
      {
        allocSize := allocSize - SegLen(img.size, segLen, i);
      }
      TotalOfTable(img.size, segLen);
      kmallocs := kmallocs - 2;
    }
  }

  // ---------------------------------------------------------------------------
  // The copy

  /** What the device reads through the first `n` table entries: each names a buffer and how
      much of it to take. */
  ghost function Gathered(bufs: seq<seq<byte>>, vec: seq<VecEntry>, n: nat): seq<byte>
    requires n <= |vec| && n <= |bufs| && forall k :: 0 <= k < n ==> vec[k].size <= |bufs[k]|
  {
    if n == 0 then [] else Gathered(bufs, vec, n - 1) + bufs[n - 1][..vec[n - 1].size]
  }

  lemma {:induction false} GatheredSame(a: seq<seq<byte>>, va: seq<VecEntry>, b: seq<seq<byte>>, vb: seq<VecEntry>,
                                        n: nat)
    requires n <= |va| && n <= |vb| && n <= |a| && n <= |b|
    requires forall k :: 0 <= k < n ==> a[k] == b[k] && va[k] == vb[k] && va[k].size <= |a[k]|
    ensures Gathered(a, va, n) == Gathered(b, vb, n)
  {
    if n > 0 { GatheredSame(a, va, b, vb, n - 1); }
  }

  /** Where the copy stands after `i` segments, with `pos` bytes done. */
  ghost predicate Progress(img: ImageInfo, fw: seq<byte>, i: nat, pos: nat)
    reads img.bufs, img.vec
  {
    && img.Layout() && i <= img.vec.Length && pos <= |fw| == img.size
    && (pos < |fw| ==> pos == i * img.seg) && (pos == |fw| ==> i == Ceil(|fw|, img.seg))
    && (forall k :: 0 <= k < i ==> img.vec[k].dma == img.dma[k] && 0 < img.vec[k].size <= img.seg)
    && Gathered(img.bufs[..], img.vec[..], i) == fw[..pos]
  }

  lemma SegmentLeft(n: nat, seg: nat, i: nat)
    requires seg > 0 && i * seg < n
    ensures i < Ceil(n, seg) && (n - i * seg <= seg ==> Ceil(n, seg) == i + 1)
  {
    var c := Ceil(n, seg);
    CeilExact(n, seg, c);
    if c <= i { Times(c, i, seg); }
    assert (i + 1) * seg == i * seg + seg;
    if n - i * seg <= seg { CeilExact(n, seg, i + 1); }
  }

  lemma NextPrefix(fw: seq<byte>, pos: nat, n: nat)
    requires pos + n <= |fw|
    ensures fw[..pos] + fw[pos..pos + n] == fw[..pos + n]
  {
  }

  /** One turn of mhi_firmware_copy's loop: one buffer and its table entry are filled. */
  method CopySegment(img: ImageInfo, fw: seq<byte>, i: nat, pos: nat) returns (n: nat)
    requires Progress(img, fw, i, pos) && pos < |fw|
    modifies img.bufs, img.vec
    ensures 0 < n <= |fw| - pos && Progress(img, fw, i + 1, pos + n)
    ensures forall k :: 0 <= k < img.entries && k != i ==> img.bufs[k] == old(img.bufs[k])
    ensures i < img.entries - 1
  {
    SegmentLeft(|fw|, img.seg, i);
    assert i < img.entries;
    ghost var bufs0, vec0 := img.bufs[..], img.vec[..];
    n := if |fw| - pos <= |img.bufs[i]| then |fw| - pos else |img.bufs[i]|;
    img.bufs[i] := fw[pos..pos + n] + img.bufs[i][n..];
    img.vec[i] := VecEntry(img.dma[i], n);
    GatheredSame(bufs0, vec0, img.bufs[..], img.vec[..], i);
    assert img.bufs[i][..n] == fw[pos..pos + n];
    NextPrefix(fw, pos, n);
    assert (i + 1) * img.seg == i * img.seg + img.seg;
  }

  /** mhi_firmware_copy: the device gathers exactly the image, through exactly as many entries
      as the table holds, and the table's own segment is not written as data. */
  method FirmwareCopy(img: ImageInfo, fw: seq<byte>) returns (entries: nat)
    requires img.Layout() && |fw| == img.size
    modifies img.bufs, img.vec
    ensures img.Layout() && entries == Ceil(|fw|, img.seg) == img.vec.Length
    ensures forall k :: 0 <= k < entries ==> img.vec[k].dma == img.dma[k] && 0 < img.vec[k].size <= |img.bufs[k]|
    ensures Gathered(img.bufs[..], img.vec[..], entries) == fw
    ensures img.bufs[img.entries - 1] == old(img.bufs[img.entries - 1])
  {
    var pos: nat := 0;
    entries := 0;
    CeilExact(|fw|, img.seg, 0);
    while pos < |fw|
      invariant Progress(img, fw, entries, pos)
      invariant img.bufs[img.entries - 1] == old(img.bufs[img.entries - 1])
      decreases |fw| - pos
    {
      var n := CopySegment(img, fw, entries, pos);
      pos, entries := pos + n, entries + 1;
    }
    assert fw[..pos] == fw;
  }
}
