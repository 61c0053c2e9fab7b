/** The circular rings of the MHI host (mhi_main.c, struct mhi_ring in mhi_internal.h).

    A ring is a block of `elements` slots of `elSize` bytes each. `rp` and `wp` are byte
    addresses inside the block, exactly as in the driver; one slot always stays free, so
    `rp == wp` means empty. The proofs show that this pointer representation refines a
    bounded queue, `Contents()`. */
module Rings {

  /** Index `i` of a ring of `n` slots after at most one wrap. */
  function Wrap(i: nat, n: nat): (r: nat)
    requires i < 2 * n
    ensures r < n
    ensures r == i || r + n == i
  {
    if i >= n then i - n else i
  }

  /** Number of steps from index `from` forward to index `to` in a ring of `n` slots. */
  function Distance(from: nat, to: nat, n: nat): (d: nat)
    requires from < n && to < n
    ensures d < n
    ensures Wrap(from + d, n) == to
  {
    if to >= from then to - from else to + n - from
  }

  lemma DistanceStep(from: nat, to: nat, n: nat)
    requires from < n && to < n && from != to
    ensures Distance(Wrap(from + 1, n), to, n) + 1 == Distance(from, to, n)
  {
  }

  lemma DistanceUnique(from: nat, d: nat, n: nat)
    requires from < n && d < n
    ensures Distance(from, Wrap(from + d, n), n) == d
  {
  }

  /** Position `k` counted round a ring of `n` slots. */
  function Cyc(k: nat, n: nat): (s: nat)
    requires n > 0
    ensures s < n
  {
    if k < n then k else Cyc(k - n, n)
  }

  lemma {:induction false} CycAdd(a: nat, d: nat, n: nat)
    requires d < n
    ensures Cyc(a + d, n) == Wrap(Cyc(a, n) + d, n)
  {
    if a >= n { CycAdd(a - n, d, n); }
  }

  lemma CycNext(k: nat, n: nat)
    requires n > 0
    ensures Cyc(k + 1, n) == Wrap(Cyc(k, n) + 1, n)
  {
    if n > 1 { CycAdd(k, 1, n); } else { assert Cyc(k, n) == 0 && Cyc(k + 1, n) == 0; }
  }

  /** One slot back is `n - 1` slots forward. */
  lemma CycPrev(k: nat, n: nat)
    requires n > 0
    ensures Cyc(k + n - 1, n) == if Cyc(k, n) == 0 then n - 1 else Cyc(k, n) - 1
  {
    CycAdd(k, n - 1, n);
  }

  /** Fewer than `n` consecutive positions fall on different slots. */
  lemma CycDistinct(a: nat, b: nat, n: nat)
    requires a < b < a + n
    ensures Cyc(a, n) != Cyc(b, n)
  {
    CycAdd(a, b - a, n);
  }

  /** The `count` slots of a ring that start at index `from`. */
  ghost function Window<T>(slots: seq<T>, from: nat, count: nat): (w: seq<T>)
    requires from < |slots| && count < |slots|
    ensures |w| == count
    ensures forall k :: 0 <= k < count ==> w[k] == slots[Wrap(from + k, |slots|)]
  {
    seq(count, k requires 0 <= k < count => slots[Wrap(from + k, |slots|)])
  }

  lemma WindowTail<T>(slots: seq<T>, from: nat, count: nat)
    requires from < |slots| && 0 < count < |slots|
    ensures Window(slots, from, count)[1..] == Window(slots, Wrap(from + 1, |slots|), count - 1)
  {
    forall k | 0 <= k < count - 1
      ensures Window(slots, from, count)[1..][k] == Window(slots, Wrap(from + 1, |slots|), count - 1)[k]
    {
      assert Wrap(from + (k + 1), |slots|) == Wrap(Wrap(from + 1, |slots|) + k, |slots|);
    }
  }

  lemma DivExact(k: nat, el: nat)
    requires el > 0
    ensures (k * el) / el == k
  {
    var q := (k * el) / el;
    if q < k { MulLess(q, k, el); }
  }

  lemma MulAtLeast(k: nat, el: nat)
    requires k > 0
    ensures k * el >= el
  {
    assert k * el == (k - 1) * el + el;
  }

  lemma MulLess(i: nat, j: nat, el: nat)
    requires i < j && el > 0
    ensures i * el + el <= j * el
  {
    assert j * el == i * el + (j - i) * el;
    MulAtLeast(j - i, el);
  }

  /** A ring with its slots. `ri` and `wi` are the slot numbers that `rp` and `wp` address. */
  class Ring<T> {
    const base: nat
    const elSize: nat
    const elements: nat
    const iommuBase: nat
    const mem: array<T>
    var rp: nat
    var wp: nat
    ghost var ri: nat
    ghost var wi: nat

    ghost function Repr(): set<object> { {this, mem} }

    ghost predicate Valid()
      reads this
    {
      && elSize > 0
      && mem.Length == elements
      && ri < elements && wi < elements
      && rp == base + ri * elSize
      && wp == base + wi * elSize
    }

    /** Number of queued elements. */
    ghost function Count(): (c: nat)
      requires Valid()
      reads this
      ensures c < elements
    {
      Distance(ri, wi, elements)
    }

    /** The queue this ring represents, oldest element first. */
    ghost function Contents(): (s: seq<T>)
      requires Valid()
      reads this, mem
      ensures |s| == Count()
    {
      Window(mem[..], ri, Count())
    }

    /** mhi_init_chan_ctxt: both pointers at the start of the block. */
    constructor (n: nat, size: nat, b: nat, iommu: nat, slots: array<T>)
      requires n > 0 && size > 0 && slots.Length == n
      ensures Valid() && ri == 0 && wi == 0 && Contents() == []
      ensures elements == n && elSize == size && base == b && iommuBase == iommu && mem == slots
    {
      elements, elSize, base, iommuBase, mem := n, size, b, iommu, slots;
      rp, wp := b, b;
      ri, wi := 0, 0;
    }

    /** Both pointers back to the start of the block. */
    method Rewind()
      requires elSize > 0 && elements > 0 && mem.Length == elements
      modifies this
      ensures Valid() && ri == 0 && wi == 0 && Contents() == []
    {
      rp, wp := base, base;
      ri, wi := 0, 0;
    }

    /** Slot number of an address inside the block. */
    method SlotOf(addr: nat, ghost i: nat) returns (slot: nat)
      requires elSize > 0 && addr == base + i * elSize
      ensures slot == i
    {
      DivExact(i, elSize);
      slot := (addr - base) / elSize;
    }

    /** Fill the slot under `wp`; it is never part of the queue. */
    method Put(x: T)
      requires Valid()
      modifies mem
      ensures mem[wi] == x && Contents() == old(Contents())
    {
      var slot := SlotOf(wp, wi);
      mem[slot] := x;
    }

    /** Read the slot under `rp`. */
    method Peek() returns (x: T)
      requires Valid() && Count() > 0
      ensures x == Contents()[0]
    {
      var slot := SlotOf(rp, ri);
      x := mem[slot];
    }

    /** The address after `p`, with the byte comparison the driver uses to wrap. */
    method Next(p: nat, ghost i: nat) returns (q: nat)
      requires elSize > 0 && i < elements && p == base + i * elSize
      ensures q == base + Wrap(i + 1, elements) * elSize
    {
      q := p + elSize;
      assert (i + 1) * elSize == i * elSize + elSize;
      if i + 1 < elements { MulLess(i + 1, elements, elSize); }
      if q >= base + elSize * elements {
        q := base;
      }
    }

    /** mhi_add_ring_element */
    method Add()
      requires Valid() && Count() + 1 < elements
      modifies this
      ensures Valid() && ri == old(ri) && wi == Wrap(old(wi) + 1, elements)
      ensures Contents() == old(Contents()) + [old(mem[wi])]
    {
      wp := Next(wp, wi);
      wi := Wrap(wi + 1, elements);
      assert Count() == old(Count()) + 1;
    }

    /** mhi_del_ring_element */
    method Del()
      requires Valid() && Count() > 0
      modifies this
      ensures Valid() && wi == old(wi) && ri == Wrap(old(ri) + 1, elements)
      ensures Contents() == old(Contents())[1..]
    {
      rp := Next(rp, ri);
      ri := Wrap(ri + 1, elements);
      assert Count() == old(Count()) - 1;
    }

    /** mhi_is_ring_full */
    method IsFull() returns (full: bool)
      requires Valid()
      ensures full <==> |Contents()| == elements - 1
    {
      var tmp := Next(wp, wi);
      SameSlot(Wrap(wi + 1, elements), ri);
      full := tmp == rp;
    }

    lemma SameSlot(i: nat, j: nat)
      requires elSize > 0
      ensures base + i * elSize == base + j * elSize <==> i == j
    {
      if i < j { MulLess(i, j, elSize); }
      if j < i { MulLess(j, i, elSize); }
    }

    /** get_nr_avail_ring_elements: the byte arithmetic of both pointer orders. */
    method NrAvail() returns (nr: int)
      requires Valid()
      ensures nr == elements - 1 - |Contents()|
    {
      if wi < ri { MulLess(wi, ri, elSize); } else if ri < wi { MulLess(ri, wi, elSize); }
      if wp < rp {
        assert rp - wp == (ri - wi) * elSize;
        DivExact(ri - wi, elSize);
        nr := (rp - wp) / elSize - 1;
      } else {
        DivExact(ri, elSize);
        assert base + elSize * elements - wp == (elements - wi) * elSize;
        DivExact(elements - wi, elSize);
        nr := (rp - base) / elSize;
        nr := nr + (base + elSize * elements - wp) / elSize - 1;
      }
    }

    /** mhi_to_physical */
    function ToPhysical(addr: nat): (p: nat)
      requires base <= addr
      ensures addr >= base && p >= iommuBase
    {
      addr - base + iommuBase
    }

    /** mhi_to_virtual */
    function ToVirtual(phys: nat): (addr: nat)
      requires iommuBase <= phys
      ensures addr >= base && ToPhysical(addr) == phys
    {
      phys - iommuBase + base
    }
  }
}
