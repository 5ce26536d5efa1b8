/** The physical page allocator of kernel/vm/pmm.c, as values: arenas, their free lists and their page flags.
    Physical addresses are counted in page frames. */
module Pmm {
  import opened Lists
  import opened Align

  const WORD: nat := 0x1_0000_0000
  const FRAMES: nat := 0x10_0000_0000_0000

  /** used[i] is the NONFREE flag of page i; free holds page numbers, head first. */
  datatype Arena = Arena(kmap: bool, priority: nat, base: nat, used: seq<bool>, free: seq<nat>, freeCount: nat)

  /** A vm_page_t: which arena's page array it is in, and where. */
  datatype Page = Page(arena: nat, index: nat)

  /** arenas in the order they were added; order is the arena list. */
  datatype State = State(arenas: seq<Arena>, order: seq<nat>)

  ghost predicate ArenaOk(a: Arena)
  {
    && 0 < |a.used| <= 0x8000_0000 && a.base + |a.used| <= FRAMES
    && NoDup(a.free) && a.freeCount == |a.free|
    && (forall i :: i in a.free <==> 0 <= i < |a.used| && !a.used[i])
  }

  ghost predicate Ok(pm: State)
  {
    && (forall k :: 0 <= k < |pm.arenas| ==> ArenaOk(pm.arenas[k]))
    && NoDup(pm.order) && (forall k :: k in pm.order <==> 0 <= k < |pm.arenas|)
    && (forall i, j :: 0 <= i < j < |pm.order| ==> Ranked(pm.arenas, pm.order[i], pm.order[j]))
  }

  predicate Ranked(arenas: seq<Arena>, x: nat, y: nat)
  {
    x < |arenas| && y < |arenas| && arenas[x].priority <= arenas[y].priority
  }

  // ---------- the count is the number of unflagged pages ----------

  function Unflagged(used: seq<bool>): nat
  {
    if used == [] then 0
    else Unflagged(used[..|used| - 1]) + if used[|used| - 1] then 0 else 1
  }

  lemma {:induction false} ListIsCount(used: seq<bool>, q: seq<nat>)
    requires NoDup(q) && forall i :: i in q <==> 0 <= i < |used| && !used[i]
    ensures |q| == Unflagged(used)
    decreases |used|
  {
    if q != [] {
      assert q[0] in q;
    }
    if used != [] {
      var n: nat := |used| - 1;
      WithoutIs(q, n);
      ListIsCount(used[..n], Without(q, n));
    }
  }

  /** free_count is both the length of the free list and the number of pages not flagged. */
  lemma CountIs(a: Arena)
    requires ArenaOk(a)
    ensures a.freeCount == |a.free| == Unflagged(a.used)
  {
    ListIsCount(a.used, a.free);
  }

  // ---------- one page ----------

  predicate Has(pm: State, p: Page)
  {
    p.arena < |pm.arenas| && p.index < |pm.arenas[p.arena].used|
  }

  predicate InUse(pm: State, p: Page)
  {
    Has(pm, p) && pm.arenas[p.arena].used[p.index]
  }

  function Take(a: Arena, i: nat): Arena
    requires i < |a.used| && a.freeCount > 0
  {
    a.(used := a.used[i := true], free := Without(a.free, i), freeCount := a.freeCount - 1)
  }

  function Give(a: Arena, i: nat): Arena
    requires i < |a.used|
  {
    a.(used := a.used[i := false], free := [i] + a.free, freeCount := a.freeCount + 1)
  }

  function SetArena(pm: State, k: nat, a: Arena): State
    requires k < |pm.arenas|
  {
    pm.(arenas := pm.arenas[k := a])
  }

  lemma TakeOk(a: Arena, i: nat)
    requires ArenaOk(a) && i in a.free
    ensures a.freeCount > 0 && ArenaOk(Take(a, i))
  {
    WithoutIs(a.free, i);
  }

  lemma GiveOk(a: Arena, i: nat)
    requires ArenaOk(a) && i < |a.used| && a.used[i]
    ensures ArenaOk(Give(a, i))
  {
    NoDupAdd(a.free, i);
  }

  lemma SetArenaOk(pm: State, k: nat, a: Arena)
    requires Ok(pm) && k < |pm.arenas| && ArenaOk(a) && a.priority == pm.arenas[k].priority
    ensures Ok(SetArena(pm, k, a))
  {
    var t := SetArena(pm, k, a);
    forall i, j | 0 <= i < j < |t.order|
      ensures Ranked(t.arenas, t.order[i], t.order[j])
    {
      assert Ranked(pm.arenas, pm.order[i], pm.order[j]);
    }
  }

  // ---------- pages taken and given back ----------

  ghost predicate SameShape(s: State, t: State)
  {
    && t.order == s.order && |t.arenas| == |s.arenas|
    && forall k :: 0 <= k < |s.arenas| ==>
                     t.arenas[k].(used := [], free := [], freeCount := 0) ==
                     s.arenas[k].(used := [], free := [], freeCount := 0)
                     && |t.arenas[k].used| == |s.arenas[k].used|
  }

  /** t is s with exactly the pages of got flagged as well; read backwards, s is t with them given back. */
  ghost predicate Took(s: State, t: State, got: seq<Page>)
  {
    && SameShape(s, t) && NoDup(got)
    && (forall p :: p in got ==> Has(s, p) && !InUse(s, p))
    && (forall p :: Has(s, p) ==> (InUse(t, p) <==> InUse(s, p) || p in got))
  }

  /** Same flags everywhere, hence the same counts; the free lists may be in another order. */
  ghost predicate SameUse(s: State, t: State)
  {
    SameShape(s, t) && forall k :: 0 <= k < |s.arenas| ==> t.arenas[k].used == s.arenas[k].used
  }

  lemma SameSelf(s: State)
    ensures SameUse(s, s) && SameCounts(s, s)
  {
  }

  lemma TookNone(s: State)
    ensures Took(s, s, [])
  {
  }

  lemma TookMore(s: State, t: State, got: seq<Page>, p: Page)
    requires Ok(s) && Ok(t) && Took(s, t, got) && Has(t, p) && !InUse(t, p)
    ensures var a := t.arenas[p.arena];
            a.freeCount > 0 && var u := SetArena(t, p.arena, Take(a, p.index)); Ok(u) && Took(s, u, got + [p])
  {
    var a := t.arenas[p.arena];
    TakeOk(a, p.index);
    var u := SetArena(t, p.arena, Take(a, p.index));
    NoDupAdd(got, p);
    SetArenaOk(t, p.arena, Take(a, p.index));
    forall q | Has(s, q)
      ensures InUse(u, q) <==> InUse(s, q) || q in got + [p]
    {
      assert InUse(u, q) <==> InUse(t, q) || q == p;
    }
  }

  lemma GaveMore(s: State, t: State, done: seq<Page>, p: Page)
    requires Ok(s) && Ok(t) && Took(t, s, done) && InUse(s, p) && p !in done
    ensures Has(t, p) && var u := SetArena(t, p.arena, Give(t.arenas[p.arena], p.index));
                         Ok(u) && Took(u, s, done + [p])
  {
    assert InUse(t, p);
    var a := t.arenas[p.arena];
    GiveOk(a, p.index);
    var u := SetArena(t, p.arena, Give(a, p.index));
    NoDupAdd(done, p);
    SetArenaOk(t, p.arena, Give(a, p.index));
    forall q | Has(u, q)
      ensures InUse(u, q) <==> InUse(t, q) && q != p
      ensures InUse(s, q) <==> InUse(u, q) || q in done + [p]
    {
      assert Has(t, q);
    }
  }

  lemma TookJoin(s: State, t: State, u: State, a: seq<Page>, b: seq<Page>)
    requires Took(s, t, a) && Took(t, u, b)
    ensures Took(s, u, a + b)
  {
    forall p | Has(s, p)
      ensures InUse(u, p) <==> InUse(s, p) || p in a + b
    {
      assert Has(t, p);
    }
    forall p | p in b
      ensures p !in a && Has(s, p) && !InUse(s, p)
    {
      assert Has(t, p) && Has(s, p);
    }
    NoDupJoin(a, b);
  }

  lemma TookInUse(s: State, t: State, got: seq<Page>)
    requires Took(s, t, got)
    ensures NoDup(got) && forall p :: p in got ==> InUse(t, p)
  {
    forall p | p in got
      ensures InUse(t, p)
    {
      assert Has(s, p);
    }
  }

  /** With part of what is flagged in t given back, the rest is still flagged. */
  lemma StillInUse(s: State, t: State, back: seq<Page>, rest: seq<Page>)
    requires Took(s, t, back) && (forall p :: p in rest ==> InUse(t, p) && p !in back)
    ensures forall p :: p in rest ==> InUse(s, p)
  {
    forall p | p in rest
      ensures InUse(s, p)
    {
      assert Has(s, p);
    }
  }

  ghost predicate SameCounts(s: State, t: State)
  {
    |s.arenas| == |t.arenas| && forall k :: 0 <= k < |s.arenas| ==> t.arenas[k].freeCount == s.arenas[k].freeCount
  }

  /** Taking pages and giving the same pages back, in any order, changes no flag and no count. */
  lemma TakeGive(s: State, t: State, u: State, got: seq<Page>, back: seq<Page>)
    requires Ok(s) && Ok(u) && Took(s, t, got) && Took(u, t, back)
    requires forall p :: p in got <==> p in back
    ensures SameUse(s, u) && SameCounts(s, u)
  {
    forall k | 0 <= k < |s.arenas|
      ensures u.arenas[k].used == s.arenas[k].used && u.arenas[k].freeCount == s.arenas[k].freeCount
    {
      forall i: nat | i < |s.arenas[k].used|
        ensures u.arenas[k].used[i] == s.arenas[k].used[i]
      {
        var p := Page(k, i);
        assert Has(s, p) && Has(u, p);
        assert InUse(t, p) <==> InUse(s, p) || p in got;
        assert InUse(t, p) <==> InUse(u, p) || p in back;
      }
      CountIs(s.arenas[k]);
      CountIs(u.arenas[k]);
    }
  }

  // ---------- the free pages, in the order they are handed out ----------

  function FreePages(a: Arena, k: nat): (q: seq<Page>)
    ensures |q| == |a.free| && forall i :: 0 <= i < |q| ==> q[i] == Page(k, a.free[i])
  {
    seq(|a.free|, i requires 0 <= i < |a.free| => Page(k, a.free[i]))
  }

  /** The free lists of the arenas in `ord`, one after the other. */
  function FreeSeq(arenas: seq<Arena>, ord: seq<nat>): seq<Page>
  {
    if ord == [] then []
    else (if ord[0] < |arenas| then FreePages(arenas[ord[0]], ord[0]) else []) + FreeSeq(arenas, ord[1..])
  }

  /** How many pages the first j free lists hold. */
  function FreeBefore(arenas: seq<Arena>, ord: seq<nat>, j: nat): nat
    requires j <= |ord| && forall i :: 0 <= i < |ord| ==> ord[i] < |arenas|
  {
    if j == 0 then 0 else FreeBefore(arenas, ord, j - 1) + |arenas[ord[j - 1]].free|
  }

  /** The pages of an arena come in list order, after all of those of the arenas before it. */
  lemma {:induction false} FreeSeqAt(arenas: seq<Arena>, ord: seq<nat>, j: nat, k: nat)
    requires (forall i :: 0 <= i < |ord| ==> ord[i] < |arenas|) && j < |ord| && k < |arenas[ord[j]].free|
    ensures FreeBefore(arenas, ord, j) + k < |FreeSeq(arenas, ord)|
    ensures FreeSeq(arenas, ord)[FreeBefore(arenas, ord, j) + k] == Page(ord[j], arenas[ord[j]].free[k])
    decreases |ord|
  {
    hide FreePages;
    if j > 0 {
      FreeSeqAt(arenas, ord[1..], j - 1, k);
      FreeBeforeRest(arenas, ord, j);
    }
  }

  lemma {:induction false} FreeBeforeRest(arenas: seq<Arena>, ord: seq<nat>, j: nat)
    requires (forall i :: 0 <= i < |ord| ==> ord[i] < |arenas|) && 0 < j <= |ord|
    ensures FreeBefore(arenas, ord, j) == |arenas[ord[0]].free| + FreeBefore(arenas, ord[1..], j - 1)
  {
    if j > 1 {
      FreeBeforeRest(arenas, ord, j - 1);
    }
  }

  lemma {:induction false} FreeSeqFrame(s: seq<Arena>, t: seq<Arena>, ord: seq<nat>)
    requires |s| == |t| && forall k :: k in ord && k < |s| ==> s[k] == t[k]
    ensures FreeSeq(s, ord) == FreeSeq(t, ord)
  {
    if ord != [] {
      assert ord[0] in ord;
      assert forall k :: k in ord[1..] ==> k in ord;
      FreeSeqFrame(s, t, ord[1..]);
    }
  }

  lemma HeadSplit(a: Arena, b: Arena, k: nat, rest: seq<Page>)
    requires a.free != [] && b.free == a.free[1..]
    ensures FreePages(a, k) + rest == [Page(k, a.free[0])] + (FreePages(b, k) + rest)
  {
    assert FreePages(a, k) == [Page(k, a.free[0])] + FreePages(b, k);
  }

  /** Handing out the head of the first arena's list. */
  lemma FreeSeqTake(arenas: seq<Arena>, ord: seq<nat>)
    requires ord != [] && NoDup(ord) && ord[0] < |arenas|
    requires ArenaOk(arenas[ord[0]]) && arenas[ord[0]].free != []
    ensures var a := arenas[ord[0]]; a.free[0] < |a.used| && !a.used[a.free[0]] && a.freeCount > 0
    ensures var a := arenas[ord[0]];
            FreeSeq(arenas, ord) ==
            [Page(ord[0], a.free[0])] + FreeSeq(arenas[ord[0] := Take(a, a.free[0])], ord)
  {
    var k, a := ord[0], arenas[ord[0]];
    assert a.free[0] in a.free;
    var b := Take(a, a.free[0]);
    var t, rest := arenas[k := b], FreeSeq(arenas, ord[1..]);
    assert forall i :: i in ord[1..] ==> i != k;
    FreeSeqFrame(arenas, t, ord[1..]);
    assert FreeSeq(t, ord) == FreePages(b, k) + rest;
    HeadSplit(a, b, k, rest);
  }

  // ---------- contiguous runs ----------

  /** Page s of the arena sits on a boundary of k frames. */
  predicate Boundary(a: Arena, k: nat, s: nat)
    requires k > 0
  {
    (a.base + s) % k == 0
  }

  ghost predicate Run(a: Arena, count: nat, k: nat, s: nat)
    requires k > 0
  {
    s + count <= |a.used| && Boundary(a, k, s) && forall i :: s <= i < s + count ==> !a.used[i]
  }

  /** Pages free from s to the end of the arena. */
  ghost predicate OpenTail(a: Arena, k: nat, s: nat)
    requires k > 0
  {
    s < |a.used| && Boundary(a, k, s) && forall i :: s <= i < |a.used| ==> !a.used[i]
  }

  /** The first boundary at or after the arena's base. */
  function Offset(a: Arena, k: nat): (o: nat)
    requires k > 0
  {
    UpIs(a.base, k);
    Up(a.base, k) - a.base
  }

  datatype Search = Found(start: nat) | NoRun | Overrun | Spins

  /** start + count passes 2^32 and the pages run free to the end: the scan leaves the page array. */
  ghost predicate Overruns(a: Arena, count: nat, k: nat)
    requires k > 0
  {
    Offset(a, k) < |a.used| && Offset(a, k) + count >= WORD && exists s: nat :: OpenTail(a, k, s)
  }

  /** The boundary is 2^32 pages or more, so the next start truncates to the same one. */
  ghost predicate SpinsOn(a: Arena, count: nat, k: nat)
    requires k > 0
  {
    && k >= WORD && Offset(a, k) < |a.used| && (Offset(a, k) + count) % WORD <= |a.used|
    && exists i :: Offset(a, k) <= i < |a.used| && i < Offset(a, k) + count && a.used[i]
  }

  /** What the search of one arena comes to. */
  ghost predicate Outcome(a: Arena, count: nat, k: nat, r: Search)
    requires k > 0
  {
    && (r.Found? ==> Run(a, count, k, r.start) && forall s: nat :: s < r.start ==> !Run(a, count, k, s))
    && (r.NoRun? ==> forall s: nat :: !Run(a, count, k, s))
    && (r.Overrun? <==> Overruns(a, count, k))
    && (r.Spins? <==> SpinsOn(a, count, k))
  }

  /** Boundaries are the offset plus multiples of k. */
  lemma BoundaryIs(a: Arena, k: nat, s: nat)
    requires k > 0
    ensures Boundary(a, k, s) <==> s >= Offset(a, k) && (s - Offset(a, k)) % k == 0
  {
    UpIs(a.base, k);
    var u := Up(a.base, k);
    if s >= Offset(a, k) {
      ModAdd(s - Offset(a, k), u, k);
      assert s - Offset(a, k) + u == a.base + s;
    }
  }

  lemma NextOn(a: Arena, k: nat, j: nat, u: nat)
    requires k > 0 && Offset(a, k) <= j && u == Up(j + 1 - Offset(a, k), k)
    ensures Boundary(a, k, u + Offset(a, k)) && u + Offset(a, k) > j
  {
    UpIs(j + 1 - Offset(a, k), k);
    BoundaryIs(a, k, u + Offset(a, k));
  }

  lemma NextLeast(a: Arena, k: nat, j: nat, u: nat, s: nat)
    requires k > 0 && Offset(a, k) <= j < s && Boundary(a, k, s) && u == Up(j + 1 - Offset(a, k), k)
    ensures s >= u + Offset(a, k)
  {
    BoundaryIs(a, k, s);
    UpLeast(j + 1 - Offset(a, k), k, s - Offset(a, k));
  }

  /** The boundary the search moves to after a used page at j is the first one past j. */
  lemma NextBoundary(a: Arena, k: nat, j: nat, u: nat)
    requires k > 0 && Offset(a, k) <= j && u == Up(j + 1 - Offset(a, k), k)
    ensures Boundary(a, k, u + Offset(a, k)) && u + Offset(a, k) > j
    ensures forall s: nat :: j < s && Boundary(a, k, s) ==> s >= u + Offset(a, k)
  {
    NextOn(a, k, j, u);
    forall s: nat | j < s && Boundary(a, k, s)
      ensures s >= u + Offset(a, k)
    {
      NextLeast(a, k, j, u, s);
    }
  }
}
