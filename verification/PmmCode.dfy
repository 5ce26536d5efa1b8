/** The functions of kernel/vm/pmm.c on the list of arenas. */
module PmmCode {
  import opened Arith
  import opened Lists
  import opened Align
  import opened Pmm

  /** Pages [start, start + n) of arena k. */
  function Range(k: nat, start: nat, n: nat): (q: seq<Page>)
    ensures |q| == n && forall i :: 0 <= i < n ==> q[i] == Page(k, start + i)
  {
    seq(n, i requires 0 <= i < n => Page(k, start + i))
  }

  /** The pages of an alignment: at least one page. */
  function Frames(alignLog2: nat): (k: nat)
    ensures k > 0
  {
    Pow2(if alignLog2 < 12 then 0 else alignLog2 - 12)
  }

  lemma FramesFit(alignLog2: nat)
    requires alignLog2 < 64
    ensures Frames(alignLog2) <= FRAMES && FRAMES % Frames(alignLog2) == 0
    ensures Frames(alignLog2) >= WORD ==> Frames(alignLog2) % WORD == 0
    ensures Frames(alignLog2) < WORD ==> Frames(alignLog2) <= 0x8000_0000 && 0x8000_0000 % Frames(alignLog2) == 0
  {
    var j := if alignLog2 < 12 then 0 else alignLog2 - 12;
    Powers();
    Pow2Divides(j, 52);
    Pow2Grows(j, 52);
    if j >= 32 {
      Pow2Divides(32, j);
    } else {
      Pow2Grows(j, 31);
      Pow2Divides(j, 31);
    }
    if j >= 32 {
      Pow2Grows(32, j);
    }
  }

  lemma Powers()
    ensures Pow2(31) == 0x8000_0000 && Pow2(32) == WORD && Pow2(52) == FRAMES
  {
    assert Pow2(8) == 256;
    assert Pow2(16) == 0x1_0000 by { assert Pow2(12) == 4096; }
    assert Pow2(24) == 0x100_0000 by { assert Pow2(20) == 0x10_0000; }
    assert Pow2(31) == 0x8000_0000 by { assert Pow2(28) == 0x1000_0000; }
    assert Pow2(40) == 0x100_0000_0000 by { assert Pow2(36) == 0x10_0000_0000; }
    assert Pow2(52) == FRAMES by { assert Pow2(48) == 0x1_0000_0000_0000 by { assert Pow2(44) == 0x1000_0000_0000; } }
  }

  // ---------- the search of one arena ----------

  /** How far the inner loop gets: to a used page, to the end of the array, or through the run. */
  method ScanRun(used: seq<bool>, start: nat, count: nat) returns (i: nat)
    requires start <= |used|
    ensures i <= count && start + i <= |used|
    ensures forall j :: start <= j < start + i ==> !used[j]
    ensures i == count || start + i == |used| || used[start + i]
  {
    i := 0;
    while i < count && start + i < |used| && !used[start + i]
      invariant i <= count && start + i <= |used|
      invariant forall j :: start <= j < start + i ==> !used[j]
    {
      i := i + 1;
    }
  }

  /** Everything before start has been ruled out. */
  ghost predicate RuledOut(a: Arena, count: nat, k: nat, start: nat)
    requires k > 0
  {
    && (forall s: nat :: s < start ==> !Run(a, count, k, s))
    && (forall s: nat :: s < start ==> !OpenTail(a, k, s))
  }

  lemma SkipUsed(a: Arena, count: nat, k: nat, start: nat, j: nat, next: nat)
    requires k > 0 && Offset(a, k) <= start && Boundary(a, k, start) && RuledOut(a, count, k, start)
    requires start <= j < |a.used| && j < start + count && a.used[j]
    requires next == Up(j + 1 - Offset(a, k), k) + Offset(a, k)
    ensures RuledOut(a, count, k, next) && Boundary(a, k, next) && next > j
  {
    NextBoundary(a, k, j, next - Offset(a, k));
    forall s: nat | s < next
      ensures !Run(a, count, k, s) && !OpenTail(a, k, s)
    {
      if start <= s && Boundary(a, k, s) {
        assert s <= j;
      }
    }
  }

  lemma FarBoundary(a: Arena, k: nat, s: nat)
    requires ArenaOk(a) && k >= WORD && s < |a.used| && Boundary(a, k, s)
    ensures s == Offset(a, k)
  {
    BoundaryIs(a, k, s);
    SlotOf(s - Offset(a, k), 0, s - Offset(a, k), k);
  }

  /** ROUNDUP past page j, stored in a 32-bit word. */
  function NextOf(o: nat, k: nat, j: nat): nat
    requires k > 0 && o <= j
  {
    (Up(j + 1 - o, k) + o) % WORD
  }

  /** The next start as the code computes it, in 32 bits: the first boundary past j, unless boundaries are
      2^32 pages apart. */
  lemma NextStart(a: Arena, k: nat, start: nat, j: nat)
    requires ArenaOk(a) && 0 < k && (k >= WORD ==> k % WORD == 0) && (k < WORD ==> k <= 0x8000_0000)
    requires k < WORD ==> 0x8000_0000 % k == 0
    requires Offset(a, k) <= start <= j < |a.used| && Boundary(a, k, start)
    ensures NextOf(Offset(a, k), k, j) == if k >= WORD then start else Up(j + 1 - Offset(a, k), k) + Offset(a, k)
  {
    hide Up, Boundary, Offset;
    var o := Offset(a, k);
    var x := j + 1 - o;
    if k >= WORD {
      FarBoundary(a, k, start);
      UpOnce(x, k);
      ModAdd(o, k, WORD);
    } else {
      UpWithin(x, k);
    }
  }

  lemma UpWithin(x: nat, k: nat)
    requires k > 0 && x <= 0x8000_0000 && 0x8000_0000 % k == 0
    ensures Up(x, k) <= 0x8000_0000
  {
    UpLeast(x, k, 0x8000_0000);
  }

  /** Rounding up something no larger than k. */
  lemma UpOnce(x: nat, k: nat)
    requires 0 < x <= k
    ensures Up(x, k) == k
  {
    SlotOf(x + k - 1, 1, x - 1, k);
  }

  /** Where the search of an arena stands: start is a boundary and nothing below it will do. */
  ghost predicate Searching(a: Arena, count: nat, k: nat, start: nat)
    requires k > 0
  {
    && Offset(a, k) <= start && Boundary(a, k, start) && RuledOut(a, count, k, start)
    && (start > Offset(a, k) ==> k < WORD && (Offset(a, k) + count <= |a.used| || Offset(a, k) + count >= WORD))
  }

  lemma StartSearch(a: Arena, count: nat, k: nat)
    requires k > 0 && count > 0
    ensures Searching(a, count, k, Offset(a, k))
  {
    var o := Offset(a, k);
    BoundaryIs(a, k, o);
    ModShift(0, 0, k);
    forall s: nat | s < o
      ensures !Boundary(a, k, s)
    {
      BoundaryIs(a, k, s);
    }
  }

  /** The while condition failed. */
  lemma SearchEnds(a: Arena, count: nat, k: nat, start: nat)
    requires ArenaOk(a) && k > 0 && 0 < count < WORD && Searching(a, count, k, start)
    requires !(start < |a.used| && (start + count) % WORD <= |a.used|)
    ensures Outcome(a, count, k, NoRun)
  {
    hide Boundary, Offset;
  }

  /** The inner loop went through the whole run. */
  lemma SearchFinds(a: Arena, count: nat, k: nat, start: nat)
    requires ArenaOk(a) && k > 0 && 0 < count < WORD && Searching(a, count, k, start)
    requires start + count <= |a.used| && forall j :: start <= j < start + count ==> !a.used[j]
    ensures Outcome(a, count, k, Found(start))
  {
  }

  /** The inner loop reached the end of the page array. */
  lemma SearchOverruns(a: Arena, count: nat, k: nat, start: nat)
    requires ArenaOk(a) && k > 0 && 0 < count < WORD && Searching(a, count, k, start)
    requires start < |a.used| < start + count && (start + count) % WORD <= |a.used|
    requires forall j :: start <= j < |a.used| ==> !a.used[j]
    ensures Outcome(a, count, k, Overrun)
  {
    assert start + count >= WORD;
    assert OpenTail(a, k, start);
  }

  /** The next start is the same one. */
  lemma SearchSpins(a: Arena, count: nat, k: nat, start: nat, j: nat)
    requires ArenaOk(a) && k >= WORD && 0 < count < WORD && Searching(a, count, k, start)
    requires start <= j < |a.used| && j < start + count && (start + count) % WORD <= |a.used| && a.used[j]
    ensures Outcome(a, count, k, Spins)
  {
    forall s: nat
      ensures !OpenTail(a, k, s)
    {
      if s < |a.used| && Boundary(a, k, s) {
        FarBoundary(a, k, s);
      }
    }
  }

  /** The search moves on from a used page at j. */
  lemma SearchMoves(a: Arena, count: nat, k: nat, start: nat, j: nat)
    requires ArenaOk(a) && 0 < k && (k >= WORD ==> k % WORD == 0) && (k < WORD ==> k <= 0x8000_0000)
    requires k < WORD ==> 0x8000_0000 % k == 0
    requires 0 < count < WORD && Searching(a, count, k, start)
    requires start <= j < |a.used| && j < start + count && (start + count) % WORD <= |a.used| && a.used[j]
    ensures var next := NextOf(Offset(a, k), k, j);
            if next == start then Outcome(a, count, k, Spins) else next > start && Searching(a, count, k, next)
  {
    hide Up, Boundary, Offset, RuledOut, NextOf;
    NextStart(a, k, start, j);
    if k >= WORD {
      SearchSpins(a, count, k, start, j);
    } else {
      SkipUsed(a, count, k, start, j, NextOf(Offset(a, k), k, j));
    }
  }

  method FindRun(a: Arena, count: nat, alignLog2: nat) returns (r: Search)
    requires ArenaOk(a) && 0 < count < WORD && alignLog2 < 64
    ensures Outcome(a, count, Frames(alignLog2), r)
  {
    var k := Frames(alignLog2);
    FramesFit(alignLog2);
    UpWrapIs(a.base, k, FRAMES);
    StartSearch(a, count, k);
    var rounded := UpWrap(a.base, k, FRAMES);
    if rounded < a.base || rounded > a.base + |a.used| - 1 {
      SearchEnds(a, count, k, Offset(a, k));
      return NoRun;
    }
    var offset: nat := rounded - a.base;
    var start := offset;
    while start < |a.used| && (start + count) % WORD <= |a.used|
      invariant offset == Offset(a, k) && Searching(a, count, k, start)
      decreases |a.used| - start
    {
      var i := ScanRun(a.used, start, count);
      if i == count {
        SearchFinds(a, count, k, start);
        return Found(start);
      }
      if start + i == |a.used| {
        SearchOverruns(a, count, k, start);
        return Overrun;
      }
      SearchMoves(a, count, k, start, start + i);
      var next := NextOf(offset, k, start + i);
      if next == start {
        // nothing has changed, so the code would come back here for ever
        return Spins;
      }
      start := next;
    }
    SearchEnds(a, count, k, start);
    return NoRun;
  }

  // ---------- the arena list ----------

  /** Arenas are visited in list order and only the ones mapped into the kernel are searched. */
  ghost predicate Searched(pm: State, count: nat, k: nat, n: nat)
    requires k > 0 && n <= |pm.order| && Ok(pm)
  {
    forall i :: 0 <= i < n ==>
                  pm.order[i] < |pm.arenas|
                  && (pm.arenas[pm.order[i]].kmap ==> Outcome(pm.arenas[pm.order[i]], count, k, NoRun))
  }

  /** The result of pmm_alloc_contiguous: the arena and page it found, or how the search ended. */
  datatype Contig = Got(arena: nat, start: nat) | Nothing | LeavesArray | NeverEnds

  ghost predicate FirstFound(pm: State, count: nat, k: nat, c: Contig)
    requires k > 0 && Ok(pm)
  {
    match c
    case Nothing => Searched(pm, count, k, |pm.order|)
    case Got(id, start) => exists i :: StopsAt(pm, count, k, i, id, Found(start))
    case LeavesArray => exists i, id :: StopsAt(pm, count, k, i, id, Overrun)
    case NeverEnds => exists i, id :: StopsAt(pm, count, k, i, id, Spins)
  }

  /** The i-th arena of the list is the first to give anything, and gives r. */
  ghost predicate StopsAt(pm: State, count: nat, k: nat, i: nat, id: nat, r: Search)
    requires k > 0 && Ok(pm)
  {
    && i < |pm.order| && pm.order[i] == id && id < |pm.arenas| && pm.arenas[id].kmap
    && Outcome(pm.arenas[id], count, k, r) && Searched(pm, count, k, i)
  }

  /** No searched arena sends the scan past its array or round for ever. */
  ghost predicate Tame(pm: State, count: nat, k: nat)
    requires k > 0
  {
    forall id :: 0 <= id < |pm.arenas| && pm.arenas[id].kmap ==>
                   !Overruns(pm.arenas[id], count, k) && !SpinsOn(pm.arenas[id], count, k)
  }

  /** Small requests are tame: boundaries below 2^32 pages and a count that cannot carry past 32 bits. */
  lemma SmallIsTame(pm: State, count: nat, k: nat)
    requires Ok(pm) && 0 < k < WORD && count <= 0x8000_0000
    ensures Tame(pm, count, k)
  {
    forall id | 0 <= id < |pm.arenas|
      ensures !Overruns(pm.arenas[id], count, k)
    {
      assert ArenaOk(pm.arenas[id]);
    }
  }

  /** The i-th arena of the list is the first that is kernel-mapped and has a run or sends the scan astray, and
      it has a run. */
  ghost predicate FirstHit(pm: State, count: nat, k: nat, i: nat)
    requires k > 0
  {
    && i < |pm.order| && pm.order[i] < |pm.arenas| && pm.arenas[pm.order[i]].kmap
    && (exists s: nat :: Run(pm.arenas[pm.order[i]], count, k, s))
    && !Overruns(pm.arenas[pm.order[i]], count, k) && !SpinsOn(pm.arenas[pm.order[i]], count, k)
    && forall j :: 0 <= j < i ==> Barren(pm, count, k, pm.order[j])
  }

  ghost predicate Barren(pm: State, count: nat, k: nat, id: nat)
    requires k > 0
  {
    id < |pm.arenas| && pm.arenas[id].kmap ==>
      && (forall s: nat :: !Run(pm.arenas[id], count, k, s))
      && !Overruns(pm.arenas[id], count, k) && !SpinsOn(pm.arenas[id], count, k)
  }

  /** There is a run to be found. */
  ghost predicate Gets(pm: State, count: nat, k: nat)
    requires k > 0
  {
    exists i: nat :: FirstHit(pm, count, k, i)
  }

  /** The search finds a run exactly when there is one to be found. */
  lemma GotIs(pm: State, count: nat, k: nat, c: Contig)
    requires Ok(pm) && k > 0 && FirstFound(pm, count, k, c)
    ensures c.Got? <==> Gets(pm, count, k)
  {
    match c
    case Nothing =>
    case Got(id, start) =>
      var i :| StopsAt(pm, count, k, i, id, Found(start));
      StopHit(pm, count, k, i, id, Found(start));
    case LeavesArray =>
      var i, id :| StopsAt(pm, count, k, i, id, Overrun);
      StopHit(pm, count, k, i, id, Overrun);
    case NeverEnds =>
      var i, id :| StopsAt(pm, count, k, i, id, Spins);
      StopHit(pm, count, k, i, id, Spins);
  }

  lemma StopHit(pm: State, count: nat, k: nat, i: nat, id: nat, r: Search)
    requires Ok(pm) && k > 0 && StopsAt(pm, count, k, i, id, r) && !r.NoRun?
    ensures r.Found? <==> Gets(pm, count, k)
  {
    if r.Found? {
      assert Run(pm.arenas[id], count, k, r.start);
      assert FirstHit(pm, count, k, i);
    }
  }

  /** A search that stops at a run stops at the first: no kernel-mapped arena before it in the list has any. */
  lemma GotFirst(pm: State, count: nat, k: nat, c: Contig)
    requires Ok(pm) && k > 0 && FirstFound(pm, count, k, c) && c.Got?
    ensures c.arena < |pm.arenas| && pm.arenas[c.arena].kmap && Run(pm.arenas[c.arena], count, k, c.start)
    ensures forall s: nat :: s < c.start ==> !Run(pm.arenas[c.arena], count, k, s)
    ensures exists i: nat :: FirstHit(pm, count, k, i) && pm.order[i] == c.arena
  {
    var i :| StopsAt(pm, count, k, i, c.arena, Found(c.start));
    assert FirstHit(pm, count, k, i);
  }

  /** A tame search is complete: it ends, and comes back empty exactly when no kernel-mapped arena has a run. */
  lemma Complete(pm: State, count: nat, k: nat, c: Contig)
    requires Ok(pm) && k > 0 && FirstFound(pm, count, k, c)
    ensures Tame(pm, count, k) ==> c.Got? || c.Nothing?
    ensures c.Got? ==> Gets(pm, count, k) && exists id, s: nat :: HasRun(pm, count, k, id, s)
    ensures c.Nothing? ==> forall id, s: nat :: !HasRun(pm, count, k, id, s)
  {
    GotIs(pm, count, k, c);
    if c.Got? {
      GotFirst(pm, count, k, c);
      assert HasRun(pm, count, k, c.arena, c.start);
    }
    if c.Nothing? {
      forall id: nat, s: nat | id < |pm.arenas|
        ensures !HasRun(pm, count, k, id, s)
      {
        assert id in pm.order;
        var i :| 0 <= i < |pm.order| && pm.order[i] == id;
      }
    }
  }

  /** Kernel-mapped arena id has a run at s. */
  ghost predicate HasRun(pm: State, count: nat, k: nat, id: nat, s: nat)
    requires k > 0
  {
    id < |pm.arenas| && pm.arenas[id].kmap && Run(pm.arenas[id], count, k, s)
  }

  /** Two free pages from frame 1 on, searched for 2^32 - 1 pages on a boundary of two: the sum of start and count
      wraps to 0, and the scan goes on past the second page. */
  lemma OverrunArena()
    ensures var a := Arena(true, 0, 1, [false, false], [0, 1], 2);
            ArenaOk(a) && Frames(13) == 2 && Outcome(a, WORD - 1, 2, Overrun)
  {
    var a := Arena(true, 0, 1, [false, false], [0, 1], 2);
    assert Pow2(1) == 2;
    assert Offset(a, 2) == 1;
    assert OpenTail(a, 2, 1);
  }

  /** A used page and a free one from frame 0 on, searched for one page on a boundary of 2^32 pages: the next start
      truncates to the same one. */
  lemma SpinArena()
    ensures var a := Arena(true, 0, 0, [true, false], [1], 1);
            ArenaOk(a) && Frames(44) == WORD && Outcome(a, 1, WORD, Spins)
  {
    hide Pow2;
    Powers();
    var a := Arena(true, 0, 0, [true, false], [1], 1);
    assert Offset(a, WORD) == 0;
    assert a.used[0];
  }

  class PhysMem {
    var arenas: seq<Arena>
    var order: seq<nat>

    function Snap(): State
      reads this
    {
      State(arenas, order)
    }

    ghost predicate Valid()
      reads this
    {
      Ok(Snap())
    }

    constructor ()
      ensures Valid() && arenas == [] && order == []
    {
      arenas, order := [], [];
    }

    /** Where an arena of this priority goes: before the first with a higher one. */
    method PlaceFor(priority: nat) returns (at: nat)
      requires Valid()
      ensures at <= |order| && PlacedAt(Snap(), priority, at)
    {
      assert forall i :: 0 <= i < |order| ==> order[i] in order;
      at := 0;
      while at < |order| && arenas[order[at]].priority <= priority
        invariant at <= |order|
        invariant forall i :: 0 <= i < at ==> arenas[order[i]].priority <= priority
      {
        at := at + 1;
      }
    }

    /** A new arena, all of it free, after every arena of its priority or a lower one. */
    method AddArena(kmap: bool, priority: nat, base: nat, pages: nat) returns (ghost at: nat)
      requires Valid() && 0 < pages <= 0x8000_0000 && base + pages <= FRAMES
      modifies this
      ensures Valid() && |arenas| == |old(arenas)| + 1 && arenas[..|old(arenas)|] == old(arenas)
      ensures var a := arenas[|old(arenas)|];
              && a.kmap == kmap && a.priority == priority && a.base == base && |a.used| == a.freeCount == pages
              && forall i :: 0 <= i < pages ==> !a.used[i]
      ensures at <= |old(order)| && order == Insert(old(order), at, |old(arenas)|)
      ensures PlacedAt(old(Snap()), priority, at)
    {
      var id := |arenas|;
      var j := PlaceFor(priority);
      at := j;
      var free := AllFree(pages);
      var a := Arena(kmap, priority, base, seq(pages, _ => false), free, pages);
      AddedOk(Snap(), j, a);
      order := order[..j] + [id] + order[j..];
      arenas := arenas + [a];
    }

    /** Take pages from one arena while more are wanted; ord is any list this arena heads. */
    method Drain(k: nat, want: nat, ghost ord: seq<nat>) returns (got: seq<Page>)
      requires Valid() && k < |arenas| && ord != [] && ord[0] == k && NoDup(ord)
      modifies this
      ensures Valid() && Took(old(Snap()), Snap(), got)
      ensures |got| == Min(want, |old(arenas)[k].free|)
      ensures old(FreeSeq(arenas, ord)) == got + FreeSeq(arenas, ord)
      ensures |got| < want ==> arenas[k].free == []
    {
      got := [];
      ghost var was := Snap();
      TookNone(was);
      assert FreeSeq(arenas, ord) == got + FreeSeq(arenas, ord);
      while |got| < want && arenas[k].freeCount > 0
        invariant Valid() && k < |arenas| && Took(was, Snap(), got)
        invariant |got| <= want && |got| + |arenas[k].free| == |was.arenas[k].free|
        invariant FreeSeq(was.arenas, ord) == got + FreeSeq(arenas, ord)
        decreases want - |got|
      {
        HeadIsFree(Snap(), k);
        var i := arenas[k].free[0];
        HandOut(Snap(), k, got, ord);
        TookMore(was, Snap(), got, Page(k, i));
        arenas := arenas[k := Take(arenas[k], i)];
        got := got + [Page(k, i)];
      }
    }

    /** Pages come from the free lists in list order, heads first, as many as there are up to count. */
    method AllocPages(count: nat, list: seq<Page>) returns (n: nat, r: seq<Page>)
      requires Valid() && count < WORD
      modifies this
      ensures Valid() && n == Min(count, |old(FreeSeq(arenas, order))|)
      ensures r == list + old(FreeSeq(arenas, order))[..n]
      ensures Took(old(Snap()), Snap(), old(FreeSeq(arenas, order))[..n])
    {
      ghost var was, all := Snap(), FreeSeq(arenas, order);
      TookNone(was);
      n, r := 0, list;
      if count == 0 {
        assert all[..0] == [] && list + [] == list;
        return;
      }
      var got: seq<Page> := [];
      var j: nat := 0;
      assert order[0..] == order;
      while j < |order|
        invariant j <= |order| && Valid() && order == was.order
        invariant |got| <= count && Took(was, Snap(), got) && got <= all
        invariant |got| < count ==> all == got + FreeSeq(arenas, order[j..])
      {
        got := FromArena(j, count, got, was, all);
        j := j + 1;
      }
      if |got| < count {
        assert order[j..] == [];
        assert got + [] == got;
      }
      assert all[..|got|] == got;
      n := |got|;
      r := list + got;
    }

    /** One turn of the walk over the arenas. */
    method FromArena(j: nat, count: nat, got: seq<Page>, ghost was: State, ghost all: seq<Page>)
      returns (r: seq<Page>)
      requires Valid() && j < |order| && |got| <= count && Took(was, Snap(), got) && got <= all
      requires |got| < count ==> all == got + FreeSeq(arenas, order[j..])
      modifies this
      ensures Valid() && order == old(order) && |r| <= count && Took(was, Snap(), r) && r <= all
      ensures |r| < count ==> all == r + FreeSeq(arenas, order[j + 1..])
    {
      var k := order[j];
      assert k in order;
      ghost var ord := order[j..];
      assert ord[1..] == order[j + 1..];
      ghost var before := Snap();
      var more := Drain(k, count - |got|, ord);
      TookJoin(was, before, Snap(), got, more);
      Assoc(got, more, FreeSeq(arenas, ord));
      r := got + more;
      if |r| < count {
        Drained(arenas, ord);
      }
    }

    /** The arena whose page array holds p. */
    method ArenaOf(p: Page) returns (k: nat)
      requires Valid() && Has(Snap(), p)
      ensures k == p.arena
    {
      var j: nat := 0;
      assert p.arena in order;
      while j < |order| && !(order[j] == p.arena && p.index < |arenas[p.arena].used|)
        invariant j <= |order| && p.arena in order[j..]
      {
        j := j + 1;
      }
      k := order[j];
    }

    /** pmm_free: every page goes back to the head of its own arena's free list. */
    method Free(list: seq<Page>) returns (count: nat)
      requires Valid() && NoDup(list) && forall p :: p in list ==> InUse(Snap(), p)
      modifies this
      ensures Valid() && count == |list| && Took(Snap(), old(Snap()), list)
    {
      ghost var was := Snap();
      TookNone(was);
      count := 0;
      while count < |list|
        invariant count <= |list| && Valid() && Took(Snap(), was, list[..count])
      {
        var p := list[count];
        assert p in list && p !in list[..count];
        GaveMore(was, Snap(), list[..count], p);
        var k := ArenaOf(p);
        arenas := arenas[k := Give(arenas[k], p.index)];
        assert list[..count + 1] == list[..count] + [p];
        count := count + 1;
      }
      assert list[..count] == list;
    }

    /** Flag the run that was found and take it off the free list. */
    method TakeRun(k: nat, start: nat, n: nat) returns (got: seq<Page>)
      requires Valid() && k < |arenas| && start + n <= |arenas[k].used|
      requires forall i :: start <= i < start + n ==> !arenas[k].used[i]
      modifies this
      ensures Valid() && got == Range(k, start, n) && Took(old(Snap()), Snap(), got)
    {
      ghost var was := Snap();
      TookNone(was);
      got := [];
      while |got| < n
        invariant Valid() && |got| <= n && got == Range(k, start, |got|) && Took(was, Snap(), got)
      {
        var p := Page(k, start + |got|);
        assert Has(was, p) && !InUse(was, p) && p !in got;
        TookMore(was, Snap(), got, p);
        arenas := arenas[k := Take(arenas[k], p.index)];
        got := got + [p];
      }
    }

    /** The lowest aligned free run in the first kernel-mapped arena that has one. */
    method AllocContiguous(count: nat, alignLog2: nat, list: seq<Page>)
      returns (c: Contig, pa: nat, r: seq<Page>)
      requires Valid() && count < WORD && alignLog2 < 64
      modifies this
      ensures Valid()
      ensures count == 0 ==> c == Nothing
      ensures count > 0 ==> FirstFound(old(Snap()), count, Frames(alignLog2), c)
      ensures c.Got? ==> && r == list + Range(c.arena, c.start, count)
                         && Took(old(Snap()), Snap(), Range(c.arena, c.start, count))
                         && c.arena < |old(arenas)| && pa == old(arenas)[c.arena].base + c.start
      ensures !c.Got? ==> Snap() == old(Snap()) && r == list
    {
      c, pa, r := Nothing, 0, list;
      if count == 0 {
        return;
      }
      ghost var pm, k := Snap(), Frames(alignLog2);
      var j: nat := 0;
      while j < |order|
        invariant j <= |order| && Snap() == pm && Searched(pm, count, k, j)
      {
        assert order[j] in order;
        var id := order[j];
        if arenas[id].kmap {
          var s := FindRun(arenas[id], count, alignLog2);
          assert StopsAt(pm, count, k, j, id, s);
          match s {
            case Found(start) =>
              pa := arenas[id].base + start;
              var got := TakeRun(id, start, count);
              return Got(id, start), pa, list + got;
            case Overrun => return LeavesArray, 0, list;
            case Spins => return NeverEnds, 0, list;
            case NoRun =>
          }
        }
        j := j + 1;
      }
    }
  }

  ghost predicate PlacedAt(pm: State, priority: nat, at: nat)
    requires Ok(pm)
  {
    && at <= |pm.order|
    && (forall i :: 0 <= i < at ==> pm.order[i] < |pm.arenas| && pm.arenas[pm.order[i]].priority <= priority)
    && (at < |pm.order| ==> pm.order[at] < |pm.arenas| && pm.arenas[pm.order[at]].priority > priority)
  }

  method AllFree(pages: nat) returns (free: seq<nat>)
    ensures |free| == pages && NoDup(free) && forall i :: i in free <==> 0 <= i < pages
  {
    free := [];
    var i: nat := 0;
    while i < pages
      invariant i <= pages && |free| == i && NoDup(free)
      invariant forall j :: j in free <==> 0 <= j < i
    {
      NoDupAdd(free, i);
      free := free + [i];
      i := i + 1;
    }
  }

  lemma AddedOk(pm: State, at: nat, a: Arena)
    requires Ok(pm) && PlacedAt(pm, a.priority, at) && ArenaOk(a)
    ensures Ok(State(pm.arenas + [a], Insert(pm.order, at, |pm.arenas|)))
  {
    var id := |pm.arenas|;
    InsertIs(pm.order, at, id);
    InsertNoDup(pm.order, at, id);
    AddedOrder(pm, at, a);
  }

  lemma AddedOrder(pm: State, at: nat, a: Arena)
    requires Ok(pm) && PlacedAt(pm, a.priority, at)
    ensures var ord := Insert(pm.order, at, |pm.arenas|);
            var all := pm.arenas + [a];
            forall i, j :: 0 <= i < j < |ord| ==> Ranked(all, ord[i], ord[j])
  {
    var ord, all := Insert(pm.order, at, |pm.arenas|), pm.arenas + [a];
    forall i: nat, j: nat | 0 <= i < j < |ord|
      ensures Ranked(all, ord[i], ord[j])
    {
      AddedSorted(pm, at, a, i, j);
    }
  }

  lemma AddedSorted(pm: State, at: nat, a: Arena, i: nat, j: nat)
    requires Ok(pm) && PlacedAt(pm, a.priority, at) && i < j <= |pm.order|
    ensures var ord := Insert(pm.order, at, |pm.arenas|);
            var all := pm.arenas + [a];
            Ranked(all, ord[i], ord[j])
  {
    InsertIs(pm.order, at, |pm.arenas|);
    assert forall m :: 0 <= m < |pm.order| ==> pm.order[m] in pm.order;
    if i == at && at < j - 1 {
      assert Ranked(pm.arenas, pm.order[at], pm.order[j - 1]);
    }
  }

  /** A free page at the head of an arena's list. */
  lemma HeadIsFree(pm: State, k: nat)
    requires Ok(pm) && k < |pm.arenas| && pm.arenas[k].freeCount > 0
    ensures pm.arenas[k].free != [] && var p := Page(k, pm.arenas[k].free[0]); Has(pm, p) && !InUse(pm, p)
  {
    assert pm.arenas[k].free[0] in pm.arenas[k].free;
  }

  lemma HandOut(pm: State, k: nat, got: seq<Page>, ord: seq<nat>)
    requires Ok(pm) && ord != [] && NoDup(ord) && ord[0] == k < |pm.arenas| && pm.arenas[k].freeCount > 0
    requires pm.arenas[k].free != [] && pm.arenas[k].free[0] < |pm.arenas[k].used|
    ensures var i := pm.arenas[k].free[0];
            got + FreeSeq(pm.arenas, ord) ==
            got + [Page(k, i)] + FreeSeq(pm.arenas[k := Take(pm.arenas[k], i)], ord)
    ensures |Take(pm.arenas[k], pm.arenas[k].free[0]).free| == |pm.arenas[k].free| - 1
  {
    FreeSeqTake(pm.arenas, ord);
    var i := pm.arenas[k].free[0];
    Assoc(got, [Page(k, i)], FreeSeq(pm.arenas[k := Take(pm.arenas[k], i)], ord));
  }

  /** An arena with nothing free adds nothing. */
  lemma Drained(arenas: seq<Arena>, ord: seq<nat>)
    requires ord != [] && ord[0] < |arenas| && arenas[ord[0]].free == []
    ensures FreeSeq(arenas, ord) == FreeSeq(arenas, ord[1..])
  {
    var rest := FreeSeq(arenas, ord[1..]);
    assert FreePages(arenas[ord[0]], ord[0]) == [];
    assert [] + rest == rest;
  }
}
