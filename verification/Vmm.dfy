/** The regions of an address space of kernel/vm/vmm.c, as a sorted list of address ranges. */
module Vmm {
  import opened Lists
  import opened Align
  import Pmm

  const WORD64: nat := 0x1_0000_0000_0000_0000
  const PAGE: nat := 4096

  /** A range of virtual addresses and the physical pages behind it. */
  datatype Region = Region(base: nat, size: nat, pages: seq<Pmm.Page>)

  /** The space is [base, base + size), which may end at the top of the address range. */
  datatype Space = Space(base: nat, size: nat)

  predicate SpaceOk(sp: Space)
  {
    0 < sp.size < WORD64 && sp.base + sp.size <= WORD64
  }

  /** Inside the space and not empty. */
  predicate Fits(sp: Space, base: nat, size: nat)
  {
    size > 0 && sp.base <= base && base + size <= sp.base + sp.size
  }

  predicate Overlaps(r: Region, base: nat, size: nat)
  {
    r.base < base + size && base < r.base + r.size
  }

  /** Sorted, pairwise disjoint, inside the space. */
  ghost predicate Ok(sp: Space, q: seq<Region>)
  {
    && SpaceOk(sp)
    && (forall i :: 0 <= i < |q| ==> Fits(sp, q[i].base, q[i].size))
    && (forall i, j :: 0 <= i < j < |q| ==> q[i].base + q[i].size <= q[j].base)
  }

  ghost predicate Clear(q: seq<Region>, base: nat, size: nat)
  {
    forall i :: 0 <= i < |q| ==> !Overlaps(q[i], base, size)
  }

  /** Where region i ends, or where the space starts for i == -1. */
  function GapStart(sp: Space, q: seq<Region>, k: nat): nat
    requires k <= |q|
  {
    if k == 0 then sp.base else q[k - 1].base + q[k - 1].size
  }

  function GapEnd(sp: Space, q: seq<Region>, k: nat): nat
    requires k <= |q|
  {
    if k < |q| then q[k].base else sp.base + sp.size
  }

  lemma GapBounds(sp: Space, q: seq<Region>, k: nat)
    requires Ok(sp, q) && k <= |q|
    ensures sp.base <= GapStart(sp, q, k) <= GapEnd(sp, q, k) <= sp.base + sp.size
  {
  }

  /** A range in gap k fits, overlaps nothing, and keeps the list in order when put there. */
  lemma InGap(sp: Space, q: seq<Region>, k: nat, r: Region)
    requires Ok(sp, q) && k <= |q| && r.size > 0
    requires GapStart(sp, q, k) <= r.base && r.base + r.size <= GapEnd(sp, q, k)
    ensures Fits(sp, r.base, r.size) && Clear(q, r.base, r.size) && Ok(sp, Insert(q, k, r))
  {
    GapBounds(sp, q, k);
    InsertIs(q, k, r);
    var t := Insert(q, k, r);
    forall i: nat, j: nat | i < j < |t|
      ensures t[i].base + t[i].size <= t[j].base
    {
      InOrder(sp, q, k, r, i, j);
    }
  }

  lemma InOrder(sp: Space, q: seq<Region>, k: nat, r: Region, i: nat, j: nat)
    requires Ok(sp, q) && k <= |q| && i < j <= |q|
    requires GapStart(sp, q, k) <= r.base && r.base + r.size <= GapEnd(sp, q, k)
    ensures Insert(q, k, r)[i].base + Insert(q, k, r)[i].size <= Insert(q, k, r)[j].base
  {
    InsertIs(q, k, r);
    if j == k {
      assert i == k - 1 || q[i].base + q[i].size <= q[k - 1].base;
    } else if i == k {
      assert j == k + 1 || q[k].base + q[k].size <= q[j - 1].base;
    }
  }

  /** A range that fits and overlaps nothing lies in one gap. */
  lemma {:induction false} SomeGap(sp: Space, q: seq<Region>, base: nat, size: nat, n: nat) returns (k: nat)
    requires Ok(sp, q) && Fits(sp, base, size) && Clear(q, base, size) && n <= |q|
    requires n == |q| || base + size <= q[n].base
    ensures k <= n && GapStart(sp, q, k) <= base && base + size <= GapEnd(sp, q, k)
    decreases n
  {
    if n == 0 || q[n - 1].base + q[n - 1].size <= base {
      k := n;
    } else {
      assert !Overlaps(q[n - 1], base, size);
      k := SomeGap(sp, q, base, size, n - 1);
    }
  }

  /** The list after a removal is still in order. */
  lemma RemoveOk(sp: Space, q: seq<Region>, k: nat)
    requires Ok(sp, q) && k < |q|
    ensures Ok(sp, q[..k] + q[k + 1..])
  {
    var t := q[..k] + q[k + 1..];
    assert forall i :: 0 <= i < |t| ==> t[i] == if i < k then q[i] else q[i + 1];
  }

  // ---------- placing a region ----------

  /** An aligned address with room for size bytes. */
  ghost predicate Spot(sp: Space, q: seq<Region>, align: nat, size: nat, s: nat)
    requires align > 0
  {
    s % align == 0 && Fits(sp, s, size) && Clear(q, s, size)
  }

  /** No spot lies below x. */
  ghost predicate NoneBelow(sp: Space, q: seq<Region>, align: nat, size: nat, x: nat)
    requires align > 0
  {
    forall s: nat :: s < x ==> !Spot(sp, q, align, size, s)
  }

  /** If the first aligned address of gap k does not do, nothing in the gap does. */
  lemma GapFull(sp: Space, q: seq<Region>, align: nat, size: nat, k: nat)
    requires Ok(sp, q) && align > 0 && size > 0 && k <= |q|
    requires NoneBelow(sp, q, align, size, GapStart(sp, q, k))
    requires Up(GapStart(sp, q, k), align) + size > GapEnd(sp, q, k)
    ensures k < |q| ==> NoneBelow(sp, q, align, size, q[k].base + q[k].size)
    ensures k == |q| ==> forall s: nat :: !Spot(sp, q, align, size, s)
  {
    UpIs(GapStart(sp, q, k), align);
    forall s: nat | Spot(sp, q, align, size, s)
      ensures k < |q| && s >= q[k].base + q[k].size
    {
      assert s >= GapStart(sp, q, k);
      assert s >= Up(GapStart(sp, q, k), align);
      if k < |q| {
        assert !Overlaps(q[k], s, size);
      }
    }
  }

  /** The first aligned address of gap k does. */
  lemma GapTaken(sp: Space, q: seq<Region>, align: nat, size: nat, k: nat)
    requires Ok(sp, q) && align > 0 && size > 0 && k <= |q|
    requires NoneBelow(sp, q, align, size, GapStart(sp, q, k))
    requires Up(GapStart(sp, q, k), align) + size <= GapEnd(sp, q, k)
    ensures var s := Up(GapStart(sp, q, k), align);
            Spot(sp, q, align, size, s) && NoneBelow(sp, q, align, size, s)
  {
    var g := GapStart(sp, q, k);
    var s := Up(g, align);
    UpIs(g, align);
    InGap(sp, q, k, Region(s, size, []));
  }

  /** Rounding wrapped: no aligned address is left at or above the gap. */
  lemma GapWraps(sp: Space, q: seq<Region>, align: nat, size: nat, k: nat)
    requires Ok(sp, q) && align > 0 && size > 0 && k <= |q|
    requires NoneBelow(sp, q, align, size, GapStart(sp, q, k))
    requires Up(GapStart(sp, q, k), align) >= WORD64
    ensures forall s: nat :: !Spot(sp, q, align, size, s)
  {
    UpIs(GapStart(sp, q, k), align);
  }

  // ---------- the pages behind the regions ----------

  /** Every page of a region is flagged, and no two regions share one. */
  ghost predicate Held(q: seq<Region>, pm: Pmm.State)
  {
    && (forall i, p :: 0 <= i < |q| && p in q[i].pages ==> Pmm.InUse(pm, p))
    && (forall i :: 0 <= i < |q| ==> NoDup(q[i].pages))
    && (forall i, j, p :: 0 <= i < j < |q| && p in q[i].pages ==> p !in q[j].pages)
  }

  lemma HeldSame(q: seq<Region>, s: Pmm.State, t: Pmm.State)
    requires Held(q, s) && Pmm.SameUse(s, t)
    ensures Held(q, t)
  {
    forall i, p | 0 <= i < |q| && p in q[i].pages
      ensures Pmm.InUse(t, p)
    {
      assert Pmm.InUse(s, p);
    }
  }

  lemma HeldTook(q: seq<Region>, s: Pmm.State, t: Pmm.State, got: seq<Pmm.Page>)
    requires Held(q, s) && Pmm.Took(s, t, got)
    ensures Held(q, t) && forall i, p :: 0 <= i < |q| && p in q[i].pages ==> p !in got
  {
    forall i, p | 0 <= i < |q| && p in q[i].pages
      ensures Pmm.InUse(t, p) && p !in got
    {
      assert Pmm.InUse(s, p);
    }
  }

  /** A new region whose pages were just taken. */
  lemma HeldInsert(q: seq<Region>, k: nat, r: Region, s: Pmm.State, t: Pmm.State)
    requires Held(q, s) && Pmm.Took(s, t, r.pages) && k <= |q|
    ensures Held(Insert(q, k, r), t)
  {
    InsertIs(q, k, r);
    HeldTook(q, s, t, r.pages);
    var u := Insert(q, k, r);
    forall i, p | 0 <= i < |u| && p in u[i].pages
      ensures Pmm.InUse(t, p)
    {
      if i == k {
        assert Pmm.Has(s, p);
      }
    }
  }

  /** Region k gone and its pages given back. */
  lemma HeldRemove(q: seq<Region>, k: nat, s: Pmm.State, t: Pmm.State)
    requires Held(q, s) && k < |q| && Pmm.Took(t, s, q[k].pages)
    ensures Held(q[..k] + q[k + 1..], t)
  {
    var u := q[..k] + q[k + 1..];
    assert forall i :: 0 <= i < |u| ==> u[i] == if i < k then q[i] else q[i + 1];
    forall i, p | 0 <= i < |u| && p in u[i].pages
      ensures Pmm.InUse(t, p)
    {
      var j := if i < k then i else i + 1;
      assert p in q[j].pages && p !in q[k].pages;
      assert Pmm.InUse(s, p);
      assert Pmm.Has(t, p);
    }
  }

  // ---------- translations ----------

  /** m without pages [from, from + n). */
  function Cut(m: map<nat, nat>, from: nat, n: nat): map<nat, nat>
  {
    map v | v in m && !(from <= v < from + n) :: m[v]
  }

  /** m with pages [from, from + n) going to frames frame, frame + 1, ... */
  function Laid(m: map<nat, nat>, from: nat, frame: nat, n: nat): map<nat, nat>
  {
    if n == 0 then m else Laid(m, from, frame, n - 1)[from + n - 1 := frame + n - 1]
  }

  lemma {:induction false} LaidIs(m: map<nat, nat>, from: nat, frame: nat, n: nat, v: nat)
    ensures v in Laid(m, from, frame, n) <==> v in m || from <= v < from + n
    ensures from <= v < from + n ==> Laid(m, from, frame, n)[v] == frame + (v - from)
    ensures v in m && !(from <= v < from + n) ==> Laid(m, from, frame, n)[v] == m[v]
  {
    if n > 0 {
      LaidIs(m, from, frame, n - 1, v);
    }
  }

  function FrameOf(pm: Pmm.State, p: Pmm.Page): nat
    requires Pmm.Has(pm, p)
  {
    pm.arenas[p.arena].base + p.index
  }
}
