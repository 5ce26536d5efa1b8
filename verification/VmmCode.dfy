/** The functions of kernel/vm/vmm.c on one address space. */
module VmmCode {
  import opened Wrappers
  import opened Lists
  import opened Align
  import opened Vmm
  import Pmm
  import opened PmmCode

  datatype Status = Success | InvalidArgs | OutOfRange | NoMemory | NotFound | Refused | NoReturn

  /** Unsigned 64-bit arithmetic. */
  function Word(x: int): nat
  {
    x % WORD64
  }

  /** is_region_inside_aspace, with its wrap-around test. */
  predicate IsInside(sp: Space, vaddr: nat, size: nat)
    requires SpaceOk(sp)
  {
    && sp.base <= vaddr <= sp.base + sp.size - 1
    && (size != 0 ==> Word(vaddr + size - 1) >= vaddr && Word(vaddr + size - 1) <= sp.base + sp.size - 1)
  }

  lemma InsideIs(sp: Space, vaddr: nat, size: nat)
    requires SpaceOk(sp) && vaddr < WORD64 && 0 < size < WORD64
    ensures IsInside(sp, vaddr, size) <==> Fits(sp, vaddr, size)
  {
    if vaddr + size - 1 >= WORD64 {
      assert Word(vaddr + size - 1) == vaddr + size - 1 - WORD64;
    }
  }

  /** The alignment of alloc_spot: a page at least. */
  function AlignOf(alignPow2: nat): (a: nat)
    ensures a > 0
  {
    Pow2(if alignPow2 < 12 then 12 else alignPow2)
  }

  lemma AlignFits(alignPow2: nat)
    requires alignPow2 < 64
    ensures AlignOf(alignPow2) <= WORD64 && WORD64 % AlignOf(alignPow2) == 0
  {
    var j := if alignPow2 < 12 then 12 else alignPow2;
    assert Pow2(64) == WORD64 by {
      Powers();
      assert Pow2(56) == 0x100_0000_0000_0000;
      assert Pow2(60) == 0x1000_0000_0000_0000;
    }
    Pow2Divides(j, 64);
    Pow2Grows(j, 64);
  }

  /** What check_gap decides about gap k. */
  datatype Gap = Go | Stop(spot: Option<nat>)

  /** A range that overlaps nothing can only go where the walk over the list puts it. */
  ghost predicate GoesAt(sp: Space, q: seq<Region>, k: nat, r: Region)
  {
    k <= |q| && GapStart(sp, q, k) <= r.base && r.base + r.size <= GapEnd(sp, q, k)
  }

  /** What is known of gap k once it has been looked at. */
  ghost predicate Judged(sp: Space, q: seq<Region>, k: nat, align: nat, size: nat, g: Gap)
    requires align > 0 && k <= |q|
  {
    && (g.Go? && k < |q| ==> NoneBelow(sp, q, align, size, GapStart(sp, q, k + 1)))
    && ((g.Go? && k == |q|) || g == Stop(None) ==> forall s: nat :: !Spot(sp, q, align, size, s))
    && (g.Stop? && g.spot.Some? ==>
          && Spot(sp, q, align, size, g.spot.value) && NoneBelow(sp, q, align, size, g.spot.value)
          && GoesAt(sp, q, k, Region(g.spot.value, size, [])))
  }

  /** Align the start of a gap [beg, end] and see whether there is room after it. */
  method PickSpot(sp: Space, q: seq<Region>, k: nat, align: nat, size: nat, beg: nat, end: nat) returns (g: Gap)
    requires Ok(sp, q) && k <= |q| && 0 < align <= WORD64 && WORD64 % align == 0 && 1 < size < WORD64
    requires NoneBelow(sp, q, align, size, GapStart(sp, q, k))
    requires beg == GapStart(sp, q, k) && end + 1 == GapEnd(sp, q, k) && beg < WORD64
    ensures Judged(sp, q, k, align, size, g)
  {
    UpWrapIs(beg, align, WORD64);
    var va := UpWrap(beg, align, WORD64);
    ghost var up := Up(beg, align);
    UpIs(beg, align);
    if va < beg {
      GapWraps(sp, q, align, size, k);
      return Stop(None);
    }
    assert va == up;
    if va < end && end - va + 1 >= size {
      GapTaken(sp, q, align, size, k);
      return Stop(Some(va));
    }
    GapFull(sp, q, align, size, k);
    return Go;
  }

  method CheckGap(sp: Space, q: seq<Region>, k: nat, align: nat, size: nat) returns (g: Gap)
    requires Ok(sp, q) && k <= |q| && 0 < align <= WORD64 && WORD64 % align == 0 && 1 < size < WORD64
    requires NoneBelow(sp, q, align, size, GapStart(sp, q, k))
    ensures Judged(sp, q, k, align, size, g)
  {
    GapBounds(sp, q, k);
    var beg := if k > 0 then Word(q[k - 1].base + q[k - 1].size) else sp.base;
    var end: nat;
    if k < |q| {
      if beg == q[k].base {
        NoGap(sp, q, align, size, k);
        return Go;
      }
      end := q[k].base - 1;
    } else {
      if beg == Word(sp.base + sp.size) {
        NoGap(sp, q, align, size, k);
        return Stop(None);
      }
      end := sp.base + sp.size - 1;
    }
    g := PickSpot(sp, q, k, align, size, beg, end);
  }

  lemma NoGap(sp: Space, q: seq<Region>, align: nat, size: nat, k: nat)
    requires Ok(sp, q) && align > 0 && size > 0 && k <= |q|
    requires NoneBelow(sp, q, align, size, GapStart(sp, q, k)) && GapStart(sp, q, k) == GapEnd(sp, q, k)
    ensures Judged(sp, q, k, align, size, if k < |q| then Go else Stop(None))
  {
    UpIs(GapStart(sp, q, k), align);
    GapFull(sp, q, align, size, k);
  }

  /** alloc_spot: the lowest aligned address with room and the gap it lies in, or None when there is none. */
  method AllocSpot(sp: Space, q: seq<Region>, size: nat, alignPow2: nat) returns (spot: Option<nat>, k: nat)
    requires Ok(sp, q) && 0 < size < WORD64 && size % PAGE == 0 && alignPow2 < 64
    ensures spot.None? ==> forall s: nat :: !Spot(sp, q, AlignOf(alignPow2), size, s)
    ensures spot.Some? ==>
              && Spot(sp, q, AlignOf(alignPow2), size, spot.value)
              && NoneBelow(sp, q, AlignOf(alignPow2), size, spot.value)
              && GoesAt(sp, q, k, Region(spot.value, size, []))
  {
    var align := AlignOf(alignPow2);
    AlignFits(alignPow2);
    k := 0;
    while k <= |q|
      invariant k <= |q| + 1
      invariant k <= |q| ==> NoneBelow(sp, q, align, size, GapStart(sp, q, k))
      invariant k == |q| + 1 ==> forall s: nat :: !Spot(sp, q, align, size, s)
    {
      var g := CheckGap(sp, q, k, align, size);
      if g.Stop? {
        return g.spot, k;
      }
      k := k + 1;
    }
    return None, 0;
  }

  /** add_region_to_aspace: where the walk puts the range, if anywhere. */
  method FindPlace(sp: Space, q: seq<Region>, r: Region) returns (st: Status, k: nat)
    requires Ok(sp, q) && r.base < WORD64 && r.size < WORD64
    ensures st == OutOfRange <==> !Fits(sp, r.base, r.size)
    ensures st == Success <==> Fits(sp, r.base, r.size) && Clear(q, r.base, r.size)
    ensures st == Success || st == OutOfRange || st == NoMemory
    ensures st == Success ==> GoesAt(sp, q, k, r)
  {
    k := 0;
    if r.size > 0 {
      InsideIs(sp, r.base, r.size);
    }
    if r.size == 0 || !IsInside(sp, r.base, r.size) {
      return OutOfRange, 0;
    }
    var end := Word(r.base + r.size - 1);
    assert end == r.base + r.size - 1;
    if q == [] || end < q[0].base {
      InGap(sp, q, 0, r);
      return Success, 0;
    }
    var i: nat := 0;
    while i < |q|
      invariant i <= |q|
      invariant forall k :: 0 <= k <= i ==> !GoesAt(sp, q, k, r)
    {
      if r.base > q[i].base + q[i].size - 1 {
        if i + 1 == |q| || end < q[i + 1].base {
          InGap(sp, q, i + 1, r);
          return Success, i + 1;
        }
      }
      i := i + 1;
    }
    if Clear(q, r.base, r.size) {
      var g := SomeGap(sp, q, r.base, r.size, |q|);
      assert GoesAt(sp, q, g, r);
    }
    return NoMemory, 0;
  }

  // ---------- the address space ----------

  /** What a caller of vmm_alloc asks for. */
  datatype Request = Request(size: nat, ptr: Option<nat>, alignPow2: nat, specific: bool)

  predicate RequestOk(q: Request)
  {
    q.size < WORD64 && (q.ptr.Some? ==> q.ptr.value < WORD64) && q.alignPow2 < 64
  }

  /** There is a page-aligned place for a region of this size: the one asked for, or any. */
  ghost predicate HasPlace(sp: Space, regions: seq<Region>, q: Request, size: nat)
  {
    if q.specific
    then q.ptr.Some? && q.ptr.value % PAGE == 0 && Fits(sp, q.ptr.value, size) && Clear(regions, q.ptr.value, size)
    else exists s: nat :: Spot(sp, regions, AlignOf(q.alignPow2), size, s)
  }

  /** The call is answered at all: there is something to allocate, and an address if one is to be given. */
  predicate Asks(q: Request)
  {
    Rounded(q.size) > 0 && (q.specific ==> q.ptr.Some?)
  }

  /** A spot for a region is page-aligned. */
  lemma SpotAligned(alignPow2: nat, s: nat)
    requires alignPow2 < 64 && s % AlignOf(alignPow2) == 0
    ensures s % PAGE == 0
  {
    var j := if alignPow2 < 12 then 12 else alignPow2;
    assert Pow2(12) == PAGE by {
      assert Pow2(8) == 256;
    }
    Pow2Divides(12, j);
    Nested(s, Pow2(j), PAGE);
  }

  /** ROUNDUP(size, PAGE_SIZE) in 64 bits. */
  function Rounded(size: nat): nat
  {
    UpWrap(size, PAGE, WORD64)
  }

  lemma RoundedIs(size: nat)
    requires size < WORD64
    ensures Rounded(size) % PAGE == 0 && Rounded(size) < WORD64
    ensures Rounded(size) == 0 <==> size == 0 || size > WORD64 - PAGE
    ensures Rounded(size) > 0 ==> size <= Rounded(size) < size + PAGE
  {
  }

  class AddressSpace {
    const sp: Space
    const pmm: PhysMem
    var regions: seq<Region>
    /** The page tables: virtual page number to frame. */
    var xlat: map<nat, nat>

    ghost predicate Valid()
      reads this, pmm
    {
      Ok(sp, regions) && pmm.Valid() && Held(regions, pmm.Snap())
    }

    constructor (space: Space, memory: PhysMem)
      requires SpaceOk(space) && memory.Valid()
      ensures Valid() && sp == space && pmm == memory && regions == [] && xlat == map[]
    {
      sp, pmm, regions, xlat := space, memory, [], map[];
    }

    /** alloc_region: place an empty region, at the address asked for or at the lowest that does. */
    method AllocRegion(size: nat, vaddr: nat, alignPow2: nat, specific: bool, gotStruct: bool)
      returns (k: Option<nat>, base: nat)
      requires Ok(sp, regions) && vaddr < WORD64 && 0 < size < WORD64 && size % PAGE == 0 && alignPow2 < 64
      modifies this`regions
      ensures Ok(sp, regions) && (k.None? ==> regions == old(regions))
      ensures k.Some? ==> k.value <= |old(regions)| && Fits(sp, base, size)
                          && regions == Insert(old(regions), k.value, Region(base, size, []))
      ensures k.Some? && specific ==> base == vaddr
      ensures k.Some? && !specific ==> && Spot(sp, old(regions), AlignOf(alignPow2), size, base)
                                       && NoneBelow(sp, old(regions), AlignOf(alignPow2), size, base)
      ensures gotStruct && specific ==> (k.Some? <==> Fits(sp, vaddr, size) && Clear(old(regions), vaddr, size))
      ensures gotStruct && !specific && k.None? ==>
                forall s: nat :: !Spot(sp, old(regions), AlignOf(alignPow2), size, s)
      ensures !gotStruct ==> k.None?
    {
      if !gotStruct {
        return None, 0;
      }
      var at: nat;
      if specific {
        var st;
        st, at := FindPlace(sp, regions, Region(vaddr, size, []));
        if st != Success {
          return None, 0;
        }
        base := vaddr;
      } else {
        var spot;
        spot, at := AllocSpot(sp, regions, size, alignPow2);
        if spot.None? {
          return None, 0;
        }
        base := spot.value;
      }
      InGap(sp, regions, at, Region(base, size, []));
      regions := regions[..at] + [Region(base, size, [])] + regions[at..];
      return Some(at), base;
    }

    /** arch_mmu_map of n pages: refused for an unaligned address, and otherwise when the tables run out. */
    method MapPages(va: nat, frame: nat, n: nat, works: bool) returns (ok: bool)
      modifies this`xlat
      ensures ok <==> works && va % PAGE == 0
      ensures xlat == if ok then Laid(old(xlat), va / PAGE, frame, n) else old(xlat)
    {
      ok := works && va % PAGE == 0;
      if ok {
        xlat := Laid(xlat, va / PAGE, frame, n);
      }
    }

    /** arch_mmu_unmap of n pages. */
    method UnmapPages(va: nat, n: nat)
      modifies this`xlat
      ensures xlat == if va % PAGE == 0 then Cut(old(xlat), va / PAGE, n) else old(xlat)
    {
      if va % PAGE == 0 {
        xlat := Cut(xlat, va / PAGE, n);
      }
    }

    /** vmm_find_region. */
    method FindRegion(va: nat) returns (k: Option<nat>)
      requires Ok(sp, regions)
      ensures k.Some? ==>
                && k.value < |regions|
                && regions[k.value].base <= va < regions[k.value].base + regions[k.value].size
      ensures k.None? ==> forall i :: 0 <= i < |regions| ==>
                                        !(regions[i].base <= va < regions[i].base + regions[i].size)
    {
      var i: nat := 0;
      while i < |regions|
        invariant i <= |regions|
        invariant forall j :: 0 <= j < i ==> !(regions[j].base <= va < regions[j].base + regions[j].size)
      {
        if va >= regions[i].base && va <= regions[i].base + regions[i].size - 1 {
          return Some(i);
        }
        i := i + 1;
      }
      return None;
    }

    /** vmm_remove_region_locked: off the list and unmapped, its pages still taken. */
    method RemoveRegion(va: nat) returns (st: Status, ghost k: nat, r: Region)
      requires Ok(sp, regions)
      modifies this`regions, this`xlat
      ensures Ok(sp, regions) && (st == Success || st == NotFound)
      ensures st == Success ==>
                && k < |old(regions)| && r == old(regions)[k] && r.base <= va < r.base + r.size
                && regions == old(regions)[..k] + old(regions)[k + 1..]
                && xlat == (if r.base % PAGE == 0 then Cut(old(xlat), r.base / PAGE, r.size / PAGE) else old(xlat))
      ensures st == NotFound ==>
                && regions == old(regions) && xlat == old(xlat)
                && forall i :: 0 <= i < |regions| ==> !(regions[i].base <= va < regions[i].base + regions[i].size)
    {
      var f := FindRegion(va);
      if f.None? {
        return NotFound, 0, Region(0, 0, []);
      }
      var i := f.value;
      k, r, st := i, regions[i], Success;
      RemoveOk(sp, regions, i);
      regions := regions[..i] + regions[i + 1..];
      UnmapPages(r.base, r.size / PAGE);
    }

    /** The loop of vmm_alloc: map the pages of list one by one behind region k. */
    method MapEach(k: nat, list: seq<Pmm.Page>, works: nat -> bool) returns (ok: bool, rest: seq<Pmm.Page>)
      requires pmm.Valid() && k < |regions| && regions[k].pages == []
      requires forall p :: p in list ==> Pmm.Has(pmm.Snap(), p)
      modifies this`regions, this`xlat
      ensures k < |regions| && regions == old(regions)[k := old(regions)[k].(pages := regions[k].pages)]
      ensures ok ==> regions[k].pages == list && rest == []
      ensures ok <==> list == [] || (old(regions)[k].base % PAGE == 0 && forall i :: 0 <= i < |list| ==> works(i))
      ensures forall p :: p in regions[k].pages + rest <==> p in list
      ensures NoDup(list) ==> NoDup(regions[k].pages + rest)
      ensures |regions[k].pages| + |rest| == |list| && regions[k].pages <= list
      ensures MappedTo(xlat, old(xlat), old(regions)[k].base / PAGE, regions[k].pages, pmm.Snap())
      ensures regions[k].base % PAGE != 0 ==> xlat == old(xlat)
    {
      hide MappedTo, NoDup, Pmm.Has;
      var r := regions[k];
      var va, i := r.base, 0;
      ok, rest := true, [];
      MappedNone(xlat, r.base / PAGE, list[..0], pmm.Snap());
      while i < |list|
        invariant i <= |list| && va == r.base + i * PAGE
        invariant regions == old(regions)[k := r.(pages := list[..i])]
        invariant MappedTo(xlat, old(xlat), r.base / PAGE, list[..i], pmm.Snap())
        invariant (i > 0 ==> r.base % PAGE == 0) && forall j :: 0 <= j < i ==> works(j)
        invariant r.base % PAGE != 0 ==> xlat == old(xlat)
      {
        var p := list[i];
        assert p in list;
        ghost var mid := xlat;
        assert va % PAGE == r.base % PAGE;
        var done := MapPages(va, FrameOf(pmm.Snap(), p), 1, works(i));
        if !done {
          rest := list[i + 1..] + [p];
          ok := false;
          Rotated(list, i);
          return;
        }
        assert va / PAGE == r.base / PAGE + i;
        MappedMore(old(xlat), r.base / PAGE, list, i, pmm.Snap(), mid);
        regions := regions[k := regions[k].(pages := regions[k].pages + [p])];
        assert list[..i + 1] == list[..i] + [p];
        va := va + PAGE;
        i := i + 1;
      }
      assert list[..i] == list;
      assert list + [] == list;
    }

    /** Pages that were taken and cannot be used go back. */
    method GiveBack(list: seq<Pmm.Page>, ghost was: Pmm.State)
      requires pmm.Valid() && Pmm.Ok(was) && Pmm.Took(was, pmm.Snap(), list)
      modifies pmm
      ensures pmm.Valid() && Pmm.SameUse(was, pmm.Snap()) && Pmm.SameCounts(was, pmm.Snap())
    {
      ghost var t := pmm.Snap();
      Pmm.TookInUse(was, t, list);
      var n := pmm.Free(list);
      Pmm.TakeGive(was, t, pmm.Snap(), list, list);
    }

    /** The error exit of vmm_alloc: the region goes, then its pages, then the pages not yet mapped. */
    method Undo(k: nat, rest: seq<Pmm.Page>, ghost q: seq<Region>, ghost was: Pmm.State, ghost got: seq<Pmm.Page>)
      requires Ok(sp, regions) && pmm.Valid() && Pmm.Ok(was) && Pmm.Took(was, pmm.Snap(), got)
      requires k <= |q| && k < |regions| && regions == Insert(q, k, regions[k])
      requires NoDup(regions[k].pages + rest) && forall p :: p in regions[k].pages + rest <==> p in got
      modifies this`regions, this`xlat, pmm
      ensures Ok(sp, regions) && regions == q
      ensures pmm.Valid() && Pmm.SameUse(was, pmm.Snap()) && Pmm.SameCounts(was, pmm.Snap())
      ensures var r := old(regions)[k];
              xlat == if r.base % PAGE == 0 then Cut(old(xlat), r.base / PAGE, r.size / PAGE) else old(xlat)
    {
      var r0 := regions[k];
      ghost var t := pmm.Snap();
      assert Fits(sp, r0.base, r0.size);
      var st, i, r := RemoveRegion(r0.base);
      assert st == Success;
      FindsIt(sp, q, k, r0, i);
      ghost var mapped := r.pages;
      Pmm.TookInUse(was, t, got);
      Parts(mapped, rest, got);
      var n := pmm.Free(r.pages);
      ghost var mid := pmm.Snap();
      Pmm.StillInUse(mid, t, mapped, rest);
      n := pmm.Free(rest);
      Pmm.TookJoin(pmm.Snap(), mid, t, rest, mapped);
      Pmm.TakeGive(was, t, pmm.Snap(), got, rest + mapped);
    }

    /** vmm_alloc once it has its pages: a region for them, and each page mapped in turn. */
    method Place(size: nat, vaddr: nat, q: Request, list: seq<Pmm.Page>, ghost was: Pmm.State, gotStruct: bool,
                 works: nat -> bool)
      returns (st: Status, base: nat, ghost at: nat)
      requires Ok(sp, regions) && Held(regions, was) && pmm.Valid() && Pmm.Ok(was)
      requires 0 < size < WORD64 && size % PAGE == 0 && vaddr < WORD64 && q.alignPow2 < 64
      requires Pmm.Took(was, pmm.Snap(), list) && |list| == size / PAGE && (q.specific ==> q.ptr == Some(vaddr))
      modifies this, pmm
      ensures Valid() && st in {Success, NoMemory, Refused}
      ensures st == Success <==> && gotStruct && HasPlace(sp, old(regions), q, size)
                                 && forall i :: 0 <= i < |list| ==> works(i)
      ensures st == Success ==>
                && Allotted(old(regions), regions, at, base, size, was, pmm.Snap()) && regions[at].pages == list
                && MappedTo(xlat, old(xlat), base / PAGE, regions[at].pages, pmm.Snap())
                && (q.specific ==> base == vaddr)
      ensures st != Success ==>
                && AsBefore(old(regions), regions, was, pmm.Snap())
                && Unmapped(old(regions), old(xlat), xlat, base, size)
    {
      hide Pmm.Took, NoDup, MappedTo, Held, Clear, Spot, NoneBelow, Pmm.SameUse, Pmm.SameCounts;
      ghost var space, x := regions, xlat;
      Pmm.TookInUse(was, pmm.Snap(), list);
      var k;
      k, base := AllocRegion(size, vaddr, q.alignPow2, q.specific, gotStruct);
      if k.None? {
        GiveBack(list, was);
        HeldSame(regions, was, pmm.Snap());
        return NoMemory, 0, 0;
      }
      if !q.specific {
        SpotAligned(q.alignPow2, base);
      }
      ghost var r := Region(base, size, []);
      InsertIs(space, k.value, r);
      var ok, rest := MapEach(k.value, list, works);
      ghost var mapped := regions[k.value].pages;
      FilledIn(sp, space, k.value, r, mapped);
      if !ok {
        ghost var x1 := xlat;
        ghost var pm := pmm.Snap();
        Undo(k.value, rest, space, was, list);
        HeldSame(regions, was, pmm.Snap());
        CutMapped(x, x1, base / PAGE, mapped, size / PAGE, pm);
        FreshRange(sp, space, k.value, r);
        return Refused, base, 0;
      }
      HeldInsert(space, k.value, r.(pages := list), was, pmm.Snap());
      return Success, base, k.value;
    }

    /** vmm_alloc: pages wherever they are free, mapped one by one.
        gotStruct and works say how the heap and the page tables answer. */
    method Alloc(q: Request, gotStruct: bool, works: nat -> bool) returns (st: Status, base: nat, ghost at: nat)
      requires Valid() && RequestOk(q)
      modifies this, pmm
      ensures Valid()
      ensures st == InvalidArgs <==> !Asks(q)
      ensures st == Success <==>
                && Asks(q) && Rounded(q.size) / PAGE < Pmm.WORD
                && Rounded(q.size) / PAGE <= |Pmm.FreeSeq(old(pmm.arenas), old(pmm.order))|
                && gotStruct && HasPlace(sp, old(regions), q, Rounded(q.size))
                && forall i :: 0 <= i < Rounded(q.size) / PAGE ==> works(i)
      ensures st == Success ==>
                && Allotted(old(regions), regions, at, base, Rounded(q.size), old(pmm.Snap()), pmm.Snap())
                && MappedTo(xlat, old(xlat), base / PAGE, regions[at].pages, pmm.Snap())
                && (q.specific ==> q.ptr == Some(base))
      ensures st != Success ==>
                && AsBefore(old(regions), regions, old(pmm.Snap()), pmm.Snap())
                && Unmapped(old(regions), old(xlat), xlat, base, Rounded(q.size))
    {
      hide HasPlace, Pmm.Took, Held, MappedTo, Clear, Pmm.FreeSeq, Vmm.Ok, Pmm.SameUse, Pmm.SameCounts, Rounded;
      ghost var was := pmm.Snap();
      RoundedIs(q.size);
      var size := Rounded(q.size);
      if size == 0 || (q.specific && q.ptr.None?) {
        Pmm.SameSelf(was);
        return InvalidArgs, 0, 0;
      }
      var vaddr := if q.specific then q.ptr.value else 0;
      ghost var free := Pmm.FreeSeq(pmm.arenas, pmm.order);
      var n, list := pmm.AllocPages(size / PAGE % Pmm.WORD, []);
      assert [] + free[..n] == free[..n];
      if n < size / PAGE {
        GiveBack(list, was);
        HeldSame(regions, was, pmm.Snap());
        return NoMemory, 0, 0;
      }
      st, base, at := Place(size, vaddr, q, list, was, gotStruct, works);
    }

    /** vmm_alloc_contiguous once it has its run: a region for it, mapped in one call. */
    method PlaceRun(size: nat, vaddr: nat, q: Request, frame: nat, list: seq<Pmm.Page>, ghost was: Pmm.State,
                    gotStruct: bool, works: bool)
      returns (st: Status, base: nat, ghost at: nat)
      requires Ok(sp, regions) && Held(regions, was) && pmm.Valid() && Pmm.Ok(was)
      requires 0 < size < WORD64 && size % PAGE == 0 && vaddr < WORD64 && q.alignPow2 < 64
      requires Pmm.Took(was, pmm.Snap(), list) && |list| == size / PAGE && (q.specific ==> q.ptr == Some(vaddr))
      requires forall i :: 0 <= i < |list| ==> Pmm.Has(pmm.Snap(), list[i]) && FrameOf(pmm.Snap(), list[i]) == frame + i
      modifies this, pmm
      ensures Valid() && st in {Success, NoMemory, Refused}
      ensures st == Success <==> gotStruct && HasPlace(sp, old(regions), q, size) && works
      ensures st == Success ==>
                && Allotted(old(regions), regions, at, base, size, was, pmm.Snap()) && regions[at].pages == list
                && MappedTo(xlat, old(xlat), base / PAGE, regions[at].pages, pmm.Snap())
                && (q.specific ==> base == vaddr)
      ensures st != Success ==>
                && AsBefore(old(regions), regions, was, pmm.Snap())
                && Unmapped(old(regions), old(xlat), xlat, base, size)
    {
      hide Pmm.Took, MappedTo, Held, Clear, Spot, NoneBelow, Pmm.SameUse, Pmm.SameCounts;
      ghost var space, x := regions, xlat;
      var k;
      k, base := AllocRegion(size, vaddr, q.alignPow2, q.specific, gotStruct);
      if k.None? {
        GiveBack(list, was);
        HeldSame(regions, was, pmm.Snap());
        return NoMemory, 0, 0;
      }
      if !q.specific {
        SpotAligned(q.alignPow2, base);
      }
      ghost var r := Region(base, size, []);
      InsertIs(space, k.value, r);
      var ok := MapPages(base, frame, size / PAGE, works);
      if !ok {
        assert Fits(sp, base, size);
        var found, i, gone := RemoveRegion(base);
        FindsIt(sp, space, k.value, r, i);
        GiveBack(list, was);
        HeldSame(regions, was, pmm.Snap());
        FreshRange(sp, space, k.value, r);
        return Refused, base, 0;
      }
      LaidPages(x, base / PAGE, frame, list, pmm.Snap());
      FilledIn(sp, space, k.value, r, list);
      regions := regions[k.value := regions[k.value].(pages := list)];
      HeldInsert(space, k.value, r.(pages := list), was, pmm.Snap());
      return Success, base, k.value;
    }

    /** The run for a contiguous region; the page count is passed on in 32 bits. */
    method SeekRun(pages: nat, alignPow2: nat) returns (c: Contig, frame: nat, list: seq<Pmm.Page>)
      requires Valid() && alignPow2 < 64
      modifies pmm
      ensures Valid()
      ensures Sought(old(pmm.Snap()), pages % Pmm.WORD, Frames(alignPow2), c)
      ensures !c.Got? ==> pmm.Snap() == old(pmm.Snap())
      ensures c.Got? ==> && list == Range(c.arena, c.start, pages % Pmm.WORD) && list != []
                         && Pmm.Took(old(pmm.Snap()), pmm.Snap(), list)
      ensures c.Got? ==> !AsBefore(regions, regions, old(pmm.Snap()), pmm.Snap())
      ensures c.Got? ==> forall i :: 0 <= i < |list| ==>
                           Pmm.Has(pmm.Snap(), list[i]) && FrameOf(pmm.Snap(), list[i]) == frame + i
    {
      ghost var was := pmm.Snap();
      var n := pages % Pmm.WORD;
      c, frame, list := pmm.AllocContiguous(n, alignPow2, []);
      if c.Got? {
        assert [] + Range(c.arena, c.start, n) == list;
        RunFrames(was, pmm.Snap(), c, n, list, frame);
        Leaked(regions, was, pmm.Snap(), list);
      }
    }

    /** vmm_alloc_contiguous: one aligned run of pages; c is what the search for it came to. A run found for a
        truncated count is not given back. */
    method AllocContiguous(q: Request, gotStruct: bool, works: bool)
      returns (st: Status, base: nat, ghost at: nat, ghost c: Contig)
      requires Valid() && RequestOk(q)
      modifies this, pmm
      ensures Valid()
      ensures st == InvalidArgs <==> !Asks(q)
      ensures st == NoReturn <==> c.LeavesArray? || c.NeverEnds?
      ensures Asks(q) ==> Sought(old(pmm.Snap()), Rounded(q.size) / PAGE % Pmm.WORD, Frames(q.alignPow2), c)
      ensures st == Success <==>
                && Asks(q) && Rounded(q.size) / PAGE < Pmm.WORD
                && Gets(old(pmm.Snap()), Rounded(q.size) / PAGE, Frames(q.alignPow2))
                && gotStruct && HasPlace(sp, old(regions), q, Rounded(q.size)) && works
      ensures st == Success ==>
                && c.Got? && Allotted(old(regions), regions, at, base, Rounded(q.size), old(pmm.Snap()), pmm.Snap())
                && regions[at].pages == Range(c.arena, c.start, Rounded(q.size) / PAGE)
                && MappedTo(xlat, old(xlat), base / PAGE, regions[at].pages, pmm.Snap())
                && (q.specific ==> q.ptr == Some(base))
      ensures st != Success ==>
                && regions == old(regions) && Unmapped(old(regions), old(xlat), xlat, base, Rounded(q.size))
                && (AsBefore(old(regions), regions, old(pmm.Snap()), pmm.Snap()) <==>
                    !(Asks(q) && Leaks(old(pmm.Snap()), Rounded(q.size) / PAGE, Frames(q.alignPow2))))
      ensures Asks(q) && Leaks(old(pmm.Snap()), Rounded(q.size) / PAGE, Frames(q.alignPow2)) ==>
                && c.Got? && st == NoMemory
                && Pmm.Took(old(pmm.Snap()), pmm.Snap(), Range(c.arena, c.start, Rounded(q.size) / PAGE % Pmm.WORD))
    {
      hide Gets, FirstFound, HasPlace, Pmm.Took, Held, MappedTo, Clear;
      ghost var was := pmm.Snap();
      RoundedIs(q.size);
      var size := Rounded(q.size);
      if size == 0 || (q.specific && q.ptr.None?) {
        return InvalidArgs, 0, 0, Nothing;
      }
      var vaddr := if q.specific then q.ptr.value else 0;
      var found, frame, list := SeekRun(size / PAGE, q.alignPow2);
      c := found;
      SoughtIs(was, size / PAGE % Pmm.WORD, Frames(q.alignPow2), c);
      if found.LeavesArray? || found.NeverEnds? {
        return NoReturn, 0, 0, c;
      }
      var count := if found.Got? then |list| else 0;
      if count < size / PAGE {
        return NoMemory, 0, 0, c;
      }
      st, base, at := PlaceRun(size, vaddr, q, frame, list, was, gotStruct, works);
    }

    /** vmm_free_region: the region goes and every page behind it is given back. */
    method FreeRegion(va: nat) returns (st: Status, ghost k: nat)
      requires Valid()
      modifies this, pmm
      ensures Valid() && (st == Success || st == NotFound)
      ensures st == NotFound <==>
              forall i :: 0 <= i < |old(regions)| ==>
                            !(old(regions)[i].base <= va < old(regions)[i].base + old(regions)[i].size)
      ensures st == NotFound ==> regions == old(regions) && xlat == old(xlat) && pmm.Snap() == old(pmm.Snap())
      ensures st == Success ==>
                && k < |old(regions)| && regions == old(regions)[..k] + old(regions)[k + 1..]
                && Pmm.Took(pmm.Snap(), old(pmm.Snap()), old(regions)[k].pages)
                && var r := old(regions)[k];
                   && r.base <= va < r.base + r.size
                   && xlat == if r.base % PAGE == 0 then Cut(old(xlat), r.base / PAGE, r.size / PAGE) else old(xlat)
    {
      ghost var was, q := pmm.Snap(), regions;
      var r;
      st, k, r := RemoveRegion(va);
      if st == NotFound {
        return;
      }
      var n := pmm.Free(r.pages);
      HeldRemove(q, k, was, pmm.Snap());
    }
  }

  /** What a search for count pages comes to; for none it is not made. */
  ghost predicate Sought(pm: Pmm.State, count: nat, k: nat, c: Contig)
    requires k > 0 && Pmm.Ok(pm)
  {
    if count == 0 then c == Nothing else FirstFound(pm, count, k, c)
  }

  lemma SoughtIs(pm: Pmm.State, count: nat, k: nat, c: Contig)
    requires k > 0 && Pmm.Ok(pm) && Sought(pm, count, k, c)
    ensures c.Got? <==> count > 0 && Gets(pm, count, k)
  {
    if count > 0 {
      GotIs(pm, count, k, c);
    }
  }

  /** The page count does not fit in 32 bits, and there is a run for what is left of it. */
  ghost predicate Leaks(pm: Pmm.State, pages: nat, k: nat)
    requires k > 0
  {
    pages >= Pmm.WORD && pages % Pmm.WORD > 0 && Gets(pm, pages % Pmm.WORD, k)
  }

  /** With one free page, asking for 2^32 + 1 contiguous pages fails and takes the page for good. */
  method LeakingAlloc() returns (s: AddressSpace, st: Status)
    ensures s.Valid() && st == NoMemory && s.regions == []
    ensures |s.pmm.arenas| == 1 && s.pmm.arenas[0].used == [true] && s.pmm.arenas[0].freeCount == 0
  {
    hide Pow2, Gets, Pmm.Took, Held, Vmm.Ok, PlacedAt;
    var memory := new PhysMem();
    ghost var at := memory.AddArena(true, 0, 0, 1);
    s := new AddressSpace(Space(0, WORD64 - 1), memory);
    ghost var was := memory.Snap();
    var q := Request((Pmm.WORD + 1) * PAGE, None, 0, false);
    RoundedIs(q.size);
    FreePage(was);
    var base;
    ghost var c;
    st, base, at, c := s.AllocContiguous(q, true, true);
    OnePage(was, memory.Snap(), c.arena, c.start);
  }

  /** A free page is a run of one page, whatever its address. */
  lemma FreePage(pm: Pmm.State)
    requires |pm.arenas| == 1 && pm.order == [0] && pm.arenas[0].kmap && pm.arenas[0].used == [false]
    ensures Gets(pm, 1, Frames(0))
  {
    assert Frames(0) == 1;
    assert Pmm.Run(pm.arenas[0], 1, 1, 0);
    assert FirstHit(pm, 1, 1, 0);
  }

  /** The only page there is has been taken. */
  lemma OnePage(was: Pmm.State, now: Pmm.State, k: nat, i: nat)
    requires |was.arenas| == 1 && |was.arenas[0].used| == 1 && Pmm.Ok(now)
    requires Pmm.Took(was, now, Range(k, i, 1))
    ensures |now.arenas| == 1 && now.arenas[0].used == [true] && now.arenas[0].freeCount == 0
  {
    assert Range(k, i, 1) == [Pmm.Page(k, i)];
    assert Pmm.Has(was, Pmm.Page(k, i));
    assert Pmm.InUse(now, Pmm.Page(0, 0));
    assert now.arenas[0].used == [true];
    Pmm.CountIs(now.arenas[0]);
  }

  /** Pages flagged and put nowhere. */
  lemma Leaked(q: seq<Region>, s: Pmm.State, t: Pmm.State, got: seq<Pmm.Page>)
    requires Held(q, s) && Pmm.Took(s, t, got) && got != []
    ensures Held(q, t) && !AsBefore(q, q, s, t)
  {
    HeldTook(q, s, t, got);
    var p := got[0];
    assert p in got;
    assert Pmm.Has(s, p) && Pmm.InUse(t, p) && !Pmm.InUse(s, p);
  }

  /** The run found is contiguous in physical memory. */
  lemma RunFrames(s: Pmm.State, t: Pmm.State, c: Contig, n: nat, list: seq<Pmm.Page>, frame: nat)
    requires c.Got? && list == Range(c.arena, c.start, n) && Pmm.Took(s, t, list)
    requires c.arena < |s.arenas| && frame == s.arenas[c.arena].base + c.start
    ensures forall i :: 0 <= i < |list| ==> Pmm.Has(t, list[i]) && FrameOf(t, list[i]) == frame + i
  {
    forall i | 0 <= i < |list|
      ensures Pmm.Has(t, list[i]) && FrameOf(t, list[i]) == frame + i
    {
      assert list[i] in list;
      assert Pmm.Has(s, list[i]);
    }
  }

  /** Allocating a region and freeing it returns every page: no flag and no count differs. */
  lemma AllocThenFree(q: seq<Region>, now: seq<Region>, at: nat, base: nat, size: nat,
                      s: Pmm.State, t: Pmm.State, u: Pmm.State)
    requires Pmm.Ok(s) && Pmm.Ok(u) && Allotted(q, now, at, base, size, s, t) && Pmm.Took(u, t, now[at].pages)
    ensures Pmm.SameUse(s, u) && Pmm.SameCounts(s, u) && now[..at] + now[at + 1..] == q
  {
    Pmm.TakeGive(s, t, u, now[at].pages, now[at].pages);
  }

  /** Filling in a region's pages leaves the list in order. */
  lemma FilledIn(sp: Space, q: seq<Region>, k: nat, r: Region, pages: seq<Pmm.Page>)
    requires k <= |q| && Ok(sp, Insert(q, k, r))
    ensures Insert(q, k, r)[k := r.(pages := pages)] == Insert(q, k, r.(pages := pages))
    ensures Ok(sp, Insert(q, k, r.(pages := pages))) && Insert(q, k, r.(pages := pages))[k] == r.(pages := pages)
  {
    InsertIs(q, k, r);
    InsertIs(q, k, r.(pages := pages));
  }

  lemma CutMapped(x: map<nat, nat>, x1: map<nat, nat>, v0: nat, mapped: seq<Pmm.Page>, n: nat, pm: Pmm.State)
    requires MappedTo(x1, x, v0, mapped, pm) && |mapped| <= n
    ensures Cut(x1, v0, n) == Cut(x, v0, n)
  {
  }

  lemma LaidPages(x: map<nat, nat>, v0: nat, frame: nat, list: seq<Pmm.Page>, pm: Pmm.State)
    requires forall i :: 0 <= i < |list| ==> Pmm.Has(pm, list[i]) && FrameOf(pm, list[i]) == frame + i
    ensures MappedTo(Laid(x, v0, frame, |list|), x, v0, list, pm)
  {
    forall v: nat
      ensures v in Laid(x, v0, frame, |list|) <==> v in x || v0 <= v < v0 + |list|
      ensures v0 <= v < v0 + |list| ==> Laid(x, v0, frame, |list|)[v] == frame + (v - v0)
      ensures v in x && !(v0 <= v < v0 + |list|) ==> Laid(x, v0, frame, |list|)[v] == x[v]
    {
      LaidIs(x, v0, frame, |list|, v);
    }
  }

  /** Where a region could be put, no other region was. */
  lemma FreshRange(sp: Space, q: seq<Region>, k: nat, r: Region)
    requires k <= |q| && Ok(sp, Insert(q, k, r))
    ensures Clear(q, r.base, r.size)
  {
    InsertIs(q, k, r);
    var t := Insert(q, k, r);
    forall i | 0 <= i < |q|
      ensures !Overlaps(q[i], r.base, r.size)
    {
      if i < k {
        assert t[i].base + t[i].size <= t[k].base;
      } else {
        assert t[k].base + t[k].size <= t[i + 1].base;
      }
    }
  }

  /** A new region at position `at`, with exactly the pages it needs, all of them just taken. */
  ghost predicate Allotted(q: seq<Region>, now: seq<Region>, at: nat, base: nat, size: nat, s: Pmm.State, t: Pmm.State)
  {
    && at <= |q| && at < |now| && now == Insert(q, at, Region(base, size, now[at].pages))
    && |now[at].pages| == size / PAGE && Pmm.Took(s, t, now[at].pages)
  }

  /** Same regions, same page flags, same counts. */
  ghost predicate AsBefore(q: seq<Region>, now: seq<Region>, s: Pmm.State, t: Pmm.State)
  {
    now == q && Pmm.SameUse(s, t) && Pmm.SameCounts(s, t)
  }

  /** The translations are as before, or were dropped over a range no region covers. */
  ghost predicate Unmapped(q: seq<Region>, x: map<nat, nat>, now: map<nat, nat>, base: nat, size: nat)
  {
    now == x || (Clear(q, base, size) && now == Cut(x, base / PAGE, size / PAGE))
  }

  lemma Parts(a: seq<Pmm.Page>, b: seq<Pmm.Page>, got: seq<Pmm.Page>)
    requires NoDup(a + b) && forall p :: p in a + b <==> p in got
    ensures NoDup(a) && NoDup(b) && (forall p :: p in a ==> p in got) && (forall p :: p in b ==> p in got && p !in a)
    ensures forall p :: p in b + a <==> p in got
  {
    assert forall i :: 0 <= i < |a| ==> (a + b)[i] == a[i];
    assert forall i :: 0 <= i < |b| ==> (a + b)[|a| + i] == b[i];
    forall p | p in b
      ensures p in got && p !in a
    {
      assert p in a + b;
    }
    forall p
      ensures p in b + a <==> p in got
    {
      assert p in a + b <==> p in b + a;
    }
  }

  /** now is was with the pages mapped in order from virtual page v0 on. */
  ghost predicate MappedTo(now: map<nat, nat>, was: map<nat, nat>, v0: nat, pages: seq<Pmm.Page>, pm: Pmm.State)
  {
    && (forall v :: v in now <==> v in was || v0 <= v < v0 + |pages|)
    && (forall i :: 0 <= i < |pages| ==> Pmm.Has(pm, pages[i]) && v0 + i in now && now[v0 + i] == FrameOf(pm, pages[i]))
    && (forall v :: v in was && !(v0 <= v < v0 + |pages|) ==> v in now && now[v] == was[v])
  }

  lemma Rotated(list: seq<Pmm.Page>, i: nat)
    requires i < |list|
    ensures forall p :: p in list[..i] + (list[i + 1..] + [list[i]]) <==> p in list
    ensures NoDup(list) ==> NoDup(list[..i] + (list[i + 1..] + [list[i]]))
  {
    assert list == list[..i] + [list[i]] + list[i + 1..];
  }

  lemma MappedNone(x: map<nat, nat>, v0: nat, list: seq<Pmm.Page>, pm: Pmm.State)
    requires list == []
    ensures MappedTo(x, x, v0, list, pm)
  {
  }

  lemma MappedMore(was: map<nat, nat>, v0: nat, list: seq<Pmm.Page>, i: nat, pm: Pmm.State, mid: map<nat, nat>)
    requires i < |list| && Pmm.Has(pm, list[i]) && MappedTo(mid, was, v0, list[..i], pm)
    ensures MappedTo(Laid(mid, v0 + i, FrameOf(pm, list[i]), 1), was, v0, list[..i + 1], pm)
  {
    assert Laid(mid, v0 + i, FrameOf(pm, list[i]), 0) == mid;
  }

  /** A region found by an address inside it is the one that was put there. */
  lemma FindsIt(sp: Space, q: seq<Region>, k: nat, r: Region, i: nat)
    requires k <= |q| && Ok(sp, Insert(q, k, r)) && i <= |q|
    requires var x := Insert(q, k, r)[i]; x.base <= r.base < x.base + x.size
    ensures i == k && Insert(q, k, r)[..k] + Insert(q, k, r)[k + 1..] == q
  {
    var t := Insert(q, k, r);
    InsertIs(q, k, r);
    assert t[k] == r;
    assert Fits(sp, t[i].base, t[i].size) && Fits(sp, t[k].base, t[k].size);
  }
}
