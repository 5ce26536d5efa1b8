/** The abstract side of arch/arm64/mmu.c: the tree a translation table stands for, what it
    translates, and which page frames it occupies.  Addresses are counted in pages and are
    relative to the first page the table covers. */
module PageTree {
  import opened Wrappers
  import opened Slots
  import opened Descriptor

  /** Shape of the translation regime.  `fanout` is the number of descriptors in a full table
      (2 ^ (page_size_shift - 3)); level 0 holds pages and level `top` is the root, which has
      `topEntries` descriptors; blocks exist up to level `maxBlock`. */
  datatype Geometry = Geometry(pageSize: nat, fanout: nat, top: nat, topEntries: nat, maxBlock: nat)
  {
    predicate Valid() {
      pageSize > 0 && fanout > 0
    }

    /** Pages covered by one descriptor of a level `lvl` table. */
    function Span(lvl: nat): (s: nat)
      requires Valid()
      ensures s > 0
    {
      if lvl == 0 then 1 else Times(fanout, Span(lvl - 1))
    }
  }

  datatype Slot = Empty | Leaf(pa: nat, attrs: Attr) | Sub(t: Tree)
  datatype Tree = Tree(addr: nat, slots: seq<Slot>)

  /** One translation: the physical page, its attributes, and where the page lies in the block or
      page that maps it (`off` pages into `size`). */
  datatype Xlat = Xlat(pa: nat, attrs: Attr, off: nat, size: nat)

  /** Tables below the root are full, tables sit one level below their parent, and blocks sit only
      where the architecture has them and are aligned to their size. */
  ghost predicate WellFormed(g: Geometry, t: Tree, lvl: nat)
    requires g.Valid()
  {
    forall i :: 0 <= i < |t.slots| ==> SlotOk(g, t.slots[i], lvl)
  }

  ghost predicate SlotOk(g: Geometry, s: Slot, lvl: nat)
    requires g.Valid()
  {
    match s
    case Empty => true
    case Leaf(pa, _) => (lvl <= g.maxBlock || lvl == 0) && Mod(pa, g.Span(lvl)) == 0
    case Sub(c) => lvl > 0 && |c.slots| == g.fanout && WellFormed(g, c, lvl - 1)
  }

  /** The translation of page `v`. */
  ghost function Look(g: Geometry, t: Tree, lvl: nat, v: nat): (x: Option<Xlat>)
    requires g.Valid() && WellFormed(g, t, lvl)
    decreases t
  {
    var s := g.Span(lvl);
    if Div(v, s) >= |t.slots| then None else
    match t.slots[Div(v, s)]
    case Empty => None
    case Leaf(pa, attrs) => Some(Xlat(pa + Mod(v, s), attrs, Mod(v, s), s))
    case Sub(c) =>
      assert SlotOk(g, t.slots[Div(v, s)], lvl);
      Look(g, c, lvl - 1, Mod(v, s))
  }

  /** The page frames a tree occupies. */
  ghost function Foot(t: Tree): set<nat>
  {
    {t.addr} + set i, a | 0 <= i < |t.slots| && a in SlotFoot(t.slots[i]) :: a
  }

  ghost function SlotFoot(s: Slot): set<nat>
  {
    if s.Sub? then Foot(s.t) else {}
  }

  /** No frame is used twice. */
  ghost predicate Distinct(t: Tree)
  {
    && (forall i :: 0 <= i < |t.slots| ==> t.addr !in SlotFoot(t.slots[i]) && SlotDistinct(t.slots[i]))
    && (forall i, j :: 0 <= i < j < |t.slots| ==> SlotFoot(t.slots[i]) !! SlotFoot(t.slots[j]))
  }

  ghost predicate SlotDistinct(s: Slot)
  {
    s.Sub? ==> Distinct(s.t)
  }

  ghost predicate AllEmpty(t: Tree)
  {
    forall i :: 0 <= i < |t.slots| ==> t.slots[i].Empty?
  }

  // ---------- what Look returns ----------

  /** The block around a translated page lies inside the slot that maps it. */
  lemma {:induction false} LookExtent(g: Geometry, t: Tree, lvl: nat, v: nat)
    requires g.Valid() && WellFormed(g, t, lvl) && Look(g, t, lvl, v).Some?
    ensures var x, s := Look(g, t, lvl, v).value, g.Span(lvl);
      x.off < x.size && x.off <= Mod(v, s) && Mod(v, s) - x.off + x.size <= s
    decreases t
  {
    var s := g.Span(lvl);
    var i := Div(v, s);
    if t.slots[i].Sub? {
      assert SlotOk(g, t.slots[i], lvl);
      var r := Mod(v, s);
      LookExtent(g, t.slots[i].t, lvl - 1, r);
      var x, s1 := Look(g, t.slots[i].t, lvl - 1, r).value, g.Span(lvl - 1);
      var q := Div(r, s1);
      Parts(r, s1);
      MulStep(q, g.fanout, s1);
    }
  }

  /** Every page of the block around a translated page is translated by that block. */
  lemma {:induction false} LookBlock(g: Geometry, t: Tree, lvl: nat, v: nat, w: nat)
    requires g.Valid() && WellFormed(g, t, lvl) && Look(g, t, lvl, v).Some?
    requires var x := Look(g, t, lvl, v).value; v - x.off <= w < v - x.off + x.size
    ensures var x := Look(g, t, lvl, v).value;
      && Look(g, t, lvl, w).Some?
      && var y := Look(g, t, lvl, w).value;
         w - y.off == v - x.off && y.size == x.size && y.attrs == x.attrs && y.pa - y.off == x.pa - x.off
    decreases t
  {
    var s := g.Span(lvl);
    var x := Look(g, t, lvl, v).value;
    LookExtent(g, t, lvl, v);
    var i, r := Div(v, s), w - v + Mod(v, s);
    SameSlot(v, w, r, s);
    if t.slots[i].Sub? {
      assert SlotOk(g, t.slots[i], lvl);
      LookBlock(g, t.slots[i].t, lvl - 1, Mod(v, s), r);
    }
  }

  /** The block around a translated page is aligned, in physical memory too, and of a size there is. */
  lemma {:induction false} LookAligned(g: Geometry, t: Tree, lvl: nat, v: nat)
    requires g.Valid() && WellFormed(g, t, lvl) && Look(g, t, lvl, v).Some?
    ensures var x := Look(g, t, lvl, v).value;
      && x.off < x.size && x.off <= x.pa && Mod(x.pa - x.off, x.size) == 0
      && exists l: nat :: (l == 0 || l <= g.maxBlock) && x.size == g.Span(l)
    decreases t
  {
    var i := Div(v, g.Span(lvl));
    assert SlotOk(g, t.slots[i], lvl);
    if t.slots[i].Sub? {
      LookAligned(g, t.slots[i].t, lvl - 1, Mod(v, g.Span(lvl)));
    }
  }

  lemma SameSlot(v: nat, w: nat, r: nat, s: nat)
    requires s > 0 && r == w - v + Mod(v, s) && r < s
    ensures Div(w, s) == Div(v, s) && Mod(w, s) == r
  {
    var i := Div(v, s);
    Parts(v, s);
    SlotOf(w, i, r, s);
  }

  /** A tree of empty slots translates nothing. */
  lemma LookEmpty(g: Geometry, t: Tree, lvl: nat, v: nat)
    requires g.Valid() && WellFormed(g, t, lvl) && AllEmpty(t)
    ensures Look(g, t, lvl, v) == None
  {
  }

  // ---------- replacing one slot ----------

  function Put(t: Tree, i: nat, s: Slot): Tree
    requires i < |t.slots|
  {
    Tree(t.addr, t.slots[i := s])
  }

  lemma LookPut(g: Geometry, t: Tree, lvl: nat, i: nat, s: Slot)
    requires g.Valid() && WellFormed(g, t, lvl) && i < |t.slots| && SlotOk(g, s, lvl)
    ensures WellFormed(g, Put(t, i, s), lvl)
    ensures forall v: nat :: Div(v, g.Span(lvl)) != i ==> Look(g, Put(t, i, s), lvl, v) == Look(g, t, lvl, v)
  {
    var t' := Put(t, i, s);
    assert forall j :: 0 <= j < |t'.slots| ==> t'.slots[j] == if j == i then s else t.slots[j];
    assert WellFormed(g, t', lvl);
    forall v: nat | Div(v, g.Span(lvl)) != i
      ensures Look(g, t', lvl, v) == Look(g, t, lvl, v)
    {
      var j := Div(v, g.Span(lvl));
      assert j < |t.slots| ==> t'.slots[j] == t.slots[j];
    }
  }

  /** The frames of a tree after slot i is replaced, as long as no frame was shared. */
  lemma FootPut(t: Tree, i: nat, s: Slot)
    requires i < |t.slots| && Distinct(t)
    requires t.addr !in SlotFoot(s)
    requires forall j :: 0 <= j < |t.slots| && j != i ==> SlotFoot(t.slots[j]) !! SlotFoot(s)
    requires SlotDistinct(s)
    ensures Foot(Put(t, i, s)) == Foot(t) - SlotFoot(t.slots[i]) + SlotFoot(s)
    ensures Distinct(Put(t, i, s))
  {
    var t' := Put(t, i, s);
    assert forall j :: 0 <= j < |t'.slots| ==> t'.slots[j] == if j == i then s else t.slots[j];
    forall a
      ensures a in Foot(t') <==> a in Foot(t) - SlotFoot(t.slots[i]) + SlotFoot(s)
    {
      if a in Foot(t') && a != t.addr {
        var j :| 0 <= j < |t'.slots| && a in SlotFoot(t'.slots[j]);
        if j < i {
          assert SlotFoot(t.slots[j]) !! SlotFoot(t.slots[i]);
        } else if j > i {
          assert SlotFoot(t.slots[i]) !! SlotFoot(t.slots[j]);
        }
      }
      if a in Foot(t) - SlotFoot(t.slots[i]) && a != t.addr {
        var j :| 0 <= j < |t.slots| && a in SlotFoot(t.slots[j]);
        assert t'.slots[j] == t.slots[j];
      }
      if a in SlotFoot(s) {
        assert a in SlotFoot(t'.slots[i]);
      }
    }
  }

  // ---------- what mapping and unmapping mean ----------

  /** Does the block that maps page v meet the pages [lo, hi)? */
  ghost predicate Hit(x: Xlat, v: int, lo: int, hi: int)
  {
    lo < hi && v - x.off < hi && lo < v - x.off + x.size
  }

  ghost function Cut(x: Option<Xlat>, v: int, lo: int, hi: int): Option<Xlat>
  {
    if x.Some? && Hit(x.value, v, lo, hi) then None else x
  }

  /** t' translates what t does, less every block that meets [lo, hi). */
  ghost predicate Unmaps(g: Geometry, t: Tree, t': Tree, lvl: nat, lo: int, hi: int)
    requires g.Valid() && WellFormed(g, t, lvl) && WellFormed(g, t', lvl)
  {
    forall v: nat :: Look(g, t', lvl, v) == Cut(Look(g, t, lvl, v), v, lo, hi)
  }

  /** t' translates page lo + i to pa + i with the given attributes, for each page of [lo, hi), all of
      which t left untranslated; no block reaches outside [lo, hi); the rest is as in t. */
  ghost predicate Maps(g: Geometry, t: Tree, t': Tree, lvl: nat, lo: int, hi: int, pa: int, attrs: Attr)
    requires g.Valid() && WellFormed(g, t, lvl) && WellFormed(g, t', lvl)
  {
    forall v: nat :: MapsPage(Look(g, t, lvl, v), Look(g, t', lvl, v), v, lo, hi, pa, attrs)
  }

  ghost predicate MapsPage(x: Option<Xlat>, x': Option<Xlat>, v: int, lo: int, hi: int, pa: int, attrs: Attr)
  {
    if lo <= v < hi then
      x.None? && x'.Some? && x'.value.pa == pa + (v - lo) && x'.value.attrs == attrs
      && lo <= v - x'.value.off <= v < v - x'.value.off + x'.value.size <= hi
    else x' == x
  }

  ghost predicate SameLook(g: Geometry, t: Tree, t': Tree, lvl: nat)
    requires g.Valid() && WellFormed(g, t, lvl) && WellFormed(g, t', lvl)
  {
    forall v: nat :: Look(g, t', lvl, v) == Look(g, t, lvl, v)
  }

  /** No table on the way down to page v is empty. */
  ghost predicate PathFull(g: Geometry, t: Tree, lvl: nat, v: nat)
    requires g.Valid() && WellFormed(g, t, lvl)
    decreases t
  {
    var i := Div(v, g.Span(lvl));
    i < |t.slots| && t.slots[i].Sub? ==>
      assert SlotOk(g, t.slots[i], lvl);
      !AllEmpty(t.slots[i].t) && PathFull(g, t.slots[i].t, lvl - 1, Mod(v, g.Span(lvl)))
  }

  lemma UnmapsJoin(g: Geometry, t: Tree, t1: Tree, t2: Tree, lvl: nat, lo: int, mid: int, hi: int)
    requires g.Valid() && WellFormed(g, t, lvl) && WellFormed(g, t1, lvl) && WellFormed(g, t2, lvl)
    requires lo <= mid < hi
    requires Unmaps(g, t, t1, lvl, lo, mid) && Unmaps(g, t1, t2, lvl, mid, hi)
    ensures Unmaps(g, t, t2, lvl, lo, hi)
  {
    forall v: nat
      ensures Look(g, t2, lvl, v) == Cut(Look(g, t, lvl, v), v, lo, hi)
    {
      var x := Look(g, t, lvl, v);
      assert Look(g, t1, lvl, v) == Cut(x, v, lo, mid);
      assert Look(g, t2, lvl, v) == Cut(Look(g, t1, lvl, v), v, mid, hi);
      if x.Some? {
        LookExtent(g, t, lvl, v);
      }
    }
  }

  lemma MapsJoin(g: Geometry, t: Tree, t1: Tree, t2: Tree, lvl: nat, lo: int, mid: int, hi: int, pa: int, attrs: Attr,
                 q: int)
    requires g.Valid() && WellFormed(g, t, lvl) && WellFormed(g, t1, lvl) && WellFormed(g, t2, lvl)
    requires lo <= mid < hi && q == pa + (mid - lo)
    requires Maps(g, t, t1, lvl, lo, mid, pa, attrs) && Maps(g, t1, t2, lvl, mid, hi, q, attrs)
    ensures Maps(g, t, t2, lvl, lo, hi, pa, attrs)
  {
    forall v: nat
      ensures MapsPage(Look(g, t, lvl, v), Look(g, t2, lvl, v), v, lo, hi, pa, attrs)
    {
      assert MapsPage(Look(g, t, lvl, v), Look(g, t1, lvl, v), v, lo, mid, pa, attrs);
      assert MapsPage(Look(g, t1, lvl, v), Look(g, t2, lvl, v), v, mid, hi, q, attrs);
    }
  }

  /** A block outside an untranslated range does not reach into it. */
  lemma MissesFresh(g: Geometry, t: Tree, lvl: nat, v: nat, lo: nat, hi: nat)
    requires g.Valid() && WellFormed(g, t, lvl) && Look(g, t, lvl, v).Some? && !(lo <= v < hi)
    requires lo < hi ==> Look(g, t, lvl, lo).None? && Look(g, t, lvl, hi - 1).None?
    ensures !Hit(Look(g, t, lvl, v).value, v, lo, hi)
  {
    if Hit(Look(g, t, lvl, v).value, v, lo, hi) {
      LookExtent(g, t, lvl, v);
      LookBlock(g, t, lvl, v, if v < lo then lo else hi - 1);
    }
  }

  /** Unmapping exactly what was just mapped restores every translation. */
  lemma MapUnmap(g: Geometry, t: Tree, t1: Tree, t2: Tree, lvl: nat, lo: nat, hi: nat, pa: int, attrs: Attr)
    requires g.Valid() && WellFormed(g, t, lvl) && WellFormed(g, t1, lvl) && WellFormed(g, t2, lvl)
    requires Maps(g, t, t1, lvl, lo, hi, pa, attrs) && Unmaps(g, t1, t2, lvl, lo, hi)
    ensures SameLook(g, t, t2, lvl)
  {
    if lo < hi {
      assert MapsPage(Look(g, t, lvl, lo), Look(g, t1, lvl, lo), lo, lo, hi, pa, attrs);
      assert MapsPage(Look(g, t, lvl, hi - 1), Look(g, t1, lvl, hi - 1), hi - 1, lo, hi, pa, attrs);
    }
    forall v: nat
      ensures Look(g, t2, lvl, v) == Look(g, t, lvl, v)
    {
      assert MapsPage(Look(g, t, lvl, v), Look(g, t1, lvl, v), v, lo, hi, pa, attrs);
      assert Look(g, t2, lvl, v) == Cut(Look(g, t1, lvl, v), v, lo, hi);
      if !(lo <= v < hi) && Look(g, t, lvl, v).Some? {
        MissesFresh(g, t, lvl, v, lo, hi);
      }
    }
  }

  // ---------- one slot at a time ----------

  /** A leaf slot emptied: the block that meets any page of the slot goes. */
  lemma UnmapLeaf(g: Geometry, t: Tree, lvl: nat, lo: nat, n: nat)
    requires g.Valid() && WellFormed(g, t, lvl)
    requires var s := g.Span(lvl); 0 < n && Mod(lo, s) + n <= s && Div(lo, s) < |t.slots| && !t.slots[Div(lo, s)].Sub?
    ensures var t' := Put(t, Div(lo, g.Span(lvl)), Empty);
      WellFormed(g, t', lvl) && Unmaps(g, t, t', lvl, lo, lo + n)
  {
    var s := g.Span(lvl);
    var i := Div(lo, s);
    var t' := Put(t, i, Empty);
    LookPut(g, t, lvl, i, Empty);
    forall v: nat
      ensures Look(g, t', lvl, v) == Cut(Look(g, t, lvl, v), v, lo, lo + n)
    {
      InSlot(v, lo, n, s);
      if Look(g, t, lvl, v).Some? {
        LookExtent(g, t, lvl, v);
      }
    }
  }

  /** A sub-table changed by an unmap of part of it. */
  lemma UnmapSub(g: Geometry, t: Tree, lvl: nat, lo: nat, n: nat, c: Tree, s': Slot)
    requires g.Valid() && WellFormed(g, t, lvl) && lvl > 0 && WellFormed(g, c, lvl - 1)
    requires var s := g.Span(lvl); 0 < n && Mod(lo, s) + n <= s && Div(lo, s) < |t.slots| && t.slots[Div(lo, s)].Sub?
    requires |c.slots| == g.fanout
    requires s' == Sub(c) || (s' == Empty && AllEmpty(c))
    requires SlotOk(g, t.slots[Div(lo, g.Span(lvl))], lvl)
    requires Unmaps(g, t.slots[Div(lo, g.Span(lvl))].t, c, lvl - 1, Mod(lo, g.Span(lvl)), Mod(lo, g.Span(lvl)) + n)
    ensures var t' := Put(t, Div(lo, g.Span(lvl)), s');
      WellFormed(g, t', lvl) && Unmaps(g, t, t', lvl, lo, lo + n)
  {
    var s := g.Span(lvl);
    var i := Div(lo, s);
    var c0 := t.slots[i].t;
    var t' := Put(t, i, s');
    LookPut(g, t, lvl, i, s');
    forall v: nat
      ensures Look(g, t', lvl, v) == Cut(Look(g, t, lvl, v), v, lo, lo + n)
    {
      InSlot(v, lo, n, s);
      if Div(v, s) == i {
        assert Look(g, c, lvl - 1, Mod(v, s)) ==
               Cut(Look(g, c0, lvl - 1, Mod(v, s)), Mod(v, s), Mod(lo, s), Mod(lo, s) + n);
        assert Look(g, t, lvl, v) == Look(g, c0, lvl - 1, Mod(v, s));
        if s' == Empty {
          LookEmpty(g, c, lvl - 1, Mod(v, s));
        }
        assert Look(g, t', lvl, v) == Look(g, c, lvl - 1, Mod(v, s));
      } else if Look(g, t, lvl, v).Some? {
        LookExtent(g, t, lvl, v);
      }
    }
  }

  /** A whole block (or page) entered into an empty slot. */
  lemma MapLeaf(g: Geometry, t: Tree, lvl: nat, lo: nat, pa: nat, attrs: Attr)
    requires g.Valid() && WellFormed(g, t, lvl) && (lvl <= g.maxBlock || lvl == 0)
    requires var s := g.Span(lvl);
             Mod(lo, s) == 0 && Mod(pa, s) == 0 && Div(lo, s) < |t.slots| && t.slots[Div(lo, s)].Empty?
    ensures var t' := Put(t, Div(lo, g.Span(lvl)), Leaf(pa, attrs));
      WellFormed(g, t', lvl) && Maps(g, t, t', lvl, lo, lo + g.Span(lvl), pa, attrs)
  {
    hide WellFormed, Look, Div, Mod, MapsPage;
    var s := g.Span(lvl);
    var t' := Put(t, Div(lo, s), Leaf(pa, attrs));
    LookPut(g, t, lvl, Div(lo, s), Leaf(pa, attrs));
    forall v: nat
      ensures MapsPage(Look(g, t, lvl, v), Look(g, t', lvl, v), v, lo, lo + s, pa, attrs)
    {
      LeafMaps(g, t, lvl, lo, pa, attrs, v);
    }
  }

  lemma LeafMaps(g: Geometry, t: Tree, lvl: nat, lo: nat, pa: nat, attrs: Attr, v: nat)
    requires g.Valid() && WellFormed(g, t, lvl)
    requires var s := g.Span(lvl); Mod(lo, s) == 0 && Div(lo, s) < |t.slots| && t.slots[Div(lo, s)].Empty?
    requires var t' := Put(t, Div(lo, g.Span(lvl)), Leaf(pa, attrs));
             && WellFormed(g, t', lvl)
             && (Div(v, g.Span(lvl)) != Div(lo, g.Span(lvl)) ==> Look(g, t', lvl, v) == Look(g, t, lvl, v))
    ensures var t' := Put(t, Div(lo, g.Span(lvl)), Leaf(pa, attrs));
            MapsPage(Look(g, t, lvl, v), Look(g, t', lvl, v), v, lo, lo + g.Span(lvl), pa, attrs)
  {
    hide WellFormed, Look, Div, Mod;
    var s := g.Span(lvl);
    InSlot(v, lo, s, s);
    if Div(v, s) == Div(lo, s) {
      LeafPage(g, t, lvl, pa, attrs, v);
    }
  }

  /** Page v before and after a leaf is put into its slot. */
  lemma LeafPage(g: Geometry, t: Tree, lvl: nat, pa: nat, attrs: Attr, v: nat)
    requires g.Valid() && WellFormed(g, t, lvl)
    requires var s := g.Span(lvl); Div(v, s) < |t.slots| && t.slots[Div(v, s)].Empty?
    requires WellFormed(g, Put(t, Div(v, g.Span(lvl)), Leaf(pa, attrs)), lvl)
    ensures var s := g.Span(lvl);
            && Look(g, t, lvl, v) == None
            && Look(g, Put(t, Div(v, s), Leaf(pa, attrs)), lvl, v) == Some(Xlat(pa + Mod(v, s), attrs, Mod(v, s), s))
  {
    hide WellFormed;
  }

  /** A sub-table extended by a mapping of part of it. */
  lemma MapSub(g: Geometry, t: Tree, lvl: nat, lo: nat, n: nat, pa: nat, attrs: Attr, c: Tree, ok: bool)
    requires g.Valid() && WellFormed(g, t, lvl) && lvl > 0 && WellFormed(g, c, lvl - 1)
    requires var s := g.Span(lvl); 0 < n && Mod(lo, s) + n <= s && Div(lo, s) < |t.slots| && t.slots[Div(lo, s)].Sub?
    requires |c.slots| == g.fanout
    requires SlotOk(g, t.slots[Div(lo, g.Span(lvl))], lvl)
    requires ok ==>
               Maps(g, t.slots[Div(lo, g.Span(lvl))].t, c, lvl - 1,
                    Mod(lo, g.Span(lvl)), Mod(lo, g.Span(lvl)) + n, pa, attrs)
    requires !ok ==> SameLook(g, t.slots[Div(lo, g.Span(lvl))].t, c, lvl - 1)
    ensures var t' := Put(t, Div(lo, g.Span(lvl)), Sub(c));
      && WellFormed(g, t', lvl)
      && (ok ==> Maps(g, t, t', lvl, lo, lo + n, pa, attrs))
      && (!ok ==> SameLook(g, t, t', lvl))
  {
    var s := g.Span(lvl);
    var i := Div(lo, s);
    var c0 := t.slots[i].t;
    var t' := Put(t, i, Sub(c));
    LookPut(g, t, lvl, i, Sub(c));
    forall v: nat
      ensures ok ==> MapsPage(Look(g, t, lvl, v), Look(g, t', lvl, v), v, lo, lo + n, pa, attrs)
      ensures !ok ==> Look(g, t', lvl, v) == Look(g, t, lvl, v)
    {
      InSlot(v, lo, n, s);
      if Div(v, s) == i {
        assert Look(g, t, lvl, v) == Look(g, c0, lvl - 1, Mod(v, s));
        assert Look(g, t', lvl, v) == Look(g, c, lvl - 1, Mod(v, s));
        if ok {
          assert MapsPage(Look(g, c0, lvl - 1, Mod(v, s)), Look(g, c, lvl - 1, Mod(v, s)), Mod(v, s), Mod(lo, s),
                          Mod(lo, s) + n, pa, attrs);
        }
      }
    }
  }

  /** A new, empty sub-table translates nothing that the empty slot did not. */
  lemma GrowSub(g: Geometry, t: Tree, lvl: nat, i: nat, c: Tree)
    requires g.Valid() && WellFormed(g, t, lvl) && lvl > 0 && i < |t.slots| && t.slots[i].Empty?
    requires AllEmpty(c) && |c.slots| == g.fanout
    ensures WellFormed(g, Put(t, i, Sub(c)), lvl) && SameLook(g, t, Put(t, i, Sub(c)), lvl)
  {
    var t' := Put(t, i, Sub(c));
    LookPut(g, t, lvl, i, Sub(c));
    forall v: nat
      ensures Look(g, t', lvl, v) == Look(g, t, lvl, v)
    {
      if Div(v, g.Span(lvl)) == i {
        LookEmpty(g, c, lvl - 1, Mod(v, g.Span(lvl)));
      }
    }
  }

  // ---------- empty tables ----------

  /** A tree that translates nothing and hides no empty table is itself empty. */
  lemma {:induction false} BareTree(g: Geometry, t: Tree, lvl: nat)
    requires g.Valid() && WellFormed(g, t, lvl)
    requires forall v: nat :: v < Times(|t.slots|, g.Span(lvl)) ==> Look(g, t, lvl, v).None? && PathFull(g, t, lvl, v)
    ensures AllEmpty(t)
    decreases t
  {
    var s := g.Span(lvl);
    forall i | 0 <= i < |t.slots|
      ensures t.slots[i].Empty?
    {
      SlotPage(i, 0, |t.slots|, s);
      assert Look(g, t, lvl, Times(i, s)).None? && PathFull(g, t, lvl, Times(i, s));
      if t.slots[i].Sub? {
        assert SlotOk(g, t.slots[i], lvl);
        var c, down := t.slots[i].t, lvl - 1;
        forall v: nat | v < Times(|c.slots|, g.Span(down))
          ensures Look(g, c, down, v).None? && PathFull(g, c, down, v)
        {
          SlotPage(i, v, |t.slots|, s);
          assert Look(g, t, lvl, Times(i, s) + v).None? && PathFull(g, t, lvl, Times(i, s) + v);
        }
        BareTree(g, c, down);
      }
    }
  }

  /** t' is t but for slot i. */
  ghost predicate OnlySlot(t: Tree, t': Tree, i: nat)
  {
    |t'.slots| == |t.slots| && forall j :: 0 <= j < |t.slots| && j != i ==> t'.slots[j] == t.slots[j]
  }

  /** A path that avoids slot i does not notice a write to slot i. */
  lemma PathOther(g: Geometry, t: Tree, t': Tree, lvl: nat, i: nat, v: nat)
    requires g.Valid() && WellFormed(g, t, lvl) && WellFormed(g, t', lvl) && OnlySlot(t, t', i)
    requires Div(v, g.Span(lvl)) != i && PathFull(g, t, lvl, v)
    ensures PathFull(g, t', lvl, v)
  {
    var j := Div(v, g.Span(lvl));
    assert j < |t.slots| ==> t'.slots[j] == t.slots[j];
  }

  /** A path through slot i after the write; r is the page within the slot. */
  lemma PathInto(g: Geometry, t: Tree, lvl: nat, lo: nat, n: nat, s: Slot, v: nat, r: nat)
    requires g.Valid() && WellFormed(g, t, lvl)
    requires var sp := g.Span(lvl); Mod(lo, sp) + n <= sp && Div(lo, sp) < |t.slots| && lo <= v < lo + n
    requires r == v - lo + Mod(lo, g.Span(lvl)) && SlotOk(g, s, lvl)
    requires s.Sub? ==> !AllEmpty(s.t) && PathFull(g, s.t, lvl - 1, r)
    ensures var t' := Put(t, Div(lo, g.Span(lvl)), s); WellFormed(g, t', lvl) && PathFull(g, t', lvl, v)
  {
    LookPut(g, t, lvl, Div(lo, g.Span(lvl)), s);
    InSlot(v, lo, n, g.Span(lvl));
  }

  // ---------- when a mapping goes through ----------

  /** May pages [lo, lo + n) of one slot be mapped by a single descriptor? */
  predicate Direct(g: Geometry, lvl: nat, lo: nat, n: nat, pa: nat)
    requires g.Valid()
  {
    var s := g.Span(lvl);
    Mod(lo, s) == 0 && Mod(pa, s) == 0 && n == s && lvl <= g.maxBlock
  }

  /** Pages of [lo, lo + n) that fall in the slot of lo. */
  function Chunk(g: Geometry, lvl: nat, lo: nat, n: nat): (c: nat)
    requires g.Valid()
    ensures n > 0 ==> 0 < c <= n
    ensures Mod(lo, g.Span(lvl)) + c <= g.Span(lvl)
    ensures c == n || (Mod(lo + c, g.Span(lvl)) == 0 && Div(lo + c, g.Span(lvl)) == Div(lo, g.Span(lvl)) + 1)
  {
    var s := g.Span(lvl);
    NextSlot(lo, s);
    if n < s - Mod(lo, s) then n else s - Mod(lo, s)
  }

  function Plus(a: Option<nat>, b: Option<nat>): Option<nat>
  {
    if a.Some? && b.Some? then Some(a.value + b.value) else None
  }

  function NoSlots(g: Geometry): seq<Slot>
  {
    seq(g.fanout, _ => Empty)
  }

  /** How many new tables the mapping of [lo, lo + n) to pa needs; None when a descriptor is in the way:
      a leaf where any is needed, or anything at all where a block would go. */
  ghost function Demand(g: Geometry, slots: seq<Slot>, lvl: nat, lo: nat, n: nat, pa: nat): Option<nat>
    requires g.Valid()
    decreases lvl, n, 1
  {
    if n == 0 then Some(0) else
    var c := Chunk(g, lvl, lo, n);
    Plus(DemandSlot(g, slots, lvl, lo, c, pa), Demand(g, slots, lvl, lo + c, n - c, pa + c))
  }

  ghost function DemandSlot(g: Geometry, slots: seq<Slot>, lvl: nat, lo: nat, n: nat, pa: nat): Option<nat>
    requires g.Valid()
    decreases lvl, n, 0
  {
    var i, r := Div(lo, g.Span(lvl)), Mod(lo, g.Span(lvl));
    if i >= |slots| then None
    else if Direct(g, lvl, lo, n, pa) then if slots[i].Empty? then Some(0) else None
    else if slots[i].Leaf? || lvl == 0 then None
    else if slots[i].Sub? then Demand(g, slots[i].t.slots, lvl - 1, r, n, pa)
    else Plus(Some(1), Demand(g, NoSlots(g), lvl - 1, r, n, pa))
  }

  /** Blocks are used: mapping one whole aligned slot of a block level needs no table, and mapping it to a frame
      that is not aligned needs at least one. */
  lemma BlockCost(g: Geometry, slots: seq<Slot>, lvl: nat, lo: nat, pa: nat)
    requires g.Valid() && lvl <= g.maxBlock && lo % g.Span(lvl) == 0 && lo / g.Span(lvl) < |slots|
    requires slots[lo / g.Span(lvl)].Empty?
    ensures pa % g.Span(lvl) == 0 ==> Demand(g, slots, lvl, lo, g.Span(lvl), pa) == Some(0)
    ensures pa % g.Span(lvl) != 0 ==>
              var d := Demand(g, slots, lvl, lo, g.Span(lvl), pa); d.None? || d.value >= 1
  {
    var s := g.Span(lvl);
    DivIs(lo, s);
    DivIs(pa, s);
    assert Chunk(g, lvl, lo, s) == s;
    assert Demand(g, slots, lvl, lo + s, 0, pa + s) == Some(0);
  }

  /** Slots before lo do not matter to the demand from lo on. */
  lemma {:induction false} DemandOther(g: Geometry, t: Tree, t': Tree, lvl: nat, i: nat, lo: nat, n: nat, pa: nat)
    requires g.Valid() && OnlySlot(t, t', i) && Div(lo, g.Span(lvl)) > i
    ensures Demand(g, t'.slots, lvl, lo, n, pa) == Demand(g, t.slots, lvl, lo, n, pa)
    decreases n
  {
    if n > 0 {
      var c, s := Chunk(g, lvl, lo, n), g.Span(lvl);
      if c < n {
        DemandOther(g, t, t', lvl, i, lo + c, n - c, pa + c);
      }
      assert Div(lo, s) < |t.slots| ==> t'.slots[Div(lo, s)] == t.slots[Div(lo, s)];
    }
  }

  /** The demand after one chunk has been served. */
  lemma DemandNext(g: Geometry, t: Tree, t': Tree, lvl: nat, lo: nat, n: nat, pa: nat)
    requires g.Valid() && 0 < n && OnlySlot(t, t', Div(lo, g.Span(lvl)))
    ensures var c := Chunk(g, lvl, lo, n);
      Demand(g, t.slots, lvl, lo, n, pa)
      == Plus(DemandSlot(g, t.slots, lvl, lo, c, pa), Demand(g, t'.slots, lvl, lo + c, n - c, pa + c))
  {
    var c := Chunk(g, lvl, lo, n);
    if c < n {
      DemandOther(g, t, t', lvl, Div(lo, g.Span(lvl)), lo + c, n - c, pa + c);
    }
  }

  // ---------- exactness of unmapping, and runs ----------

  /** Does a block reach over either end of [lo, hi)?  Two queries tell. */
  ghost predicate Straddles(g: Geometry, t: Tree, lvl: nat, lo: nat, hi: nat)
    requires g.Valid() && WellFormed(g, t, lvl) && lo < hi
  {
    var a, b := Look(g, t, lvl, lo), Look(g, t, lvl, hi - 1);
    (a.Some? && a.value.off > 0) || (b.Some? && b.value.off + 1 < b.value.size)
  }

  /** t' translates what t does outside [lo, hi) and nothing inside. */
  ghost predicate Removes(g: Geometry, t: Tree, t': Tree, lvl: nat, lo: nat, hi: nat)
    requires g.Valid() && WellFormed(g, t, lvl) && WellFormed(g, t', lvl)
  {
    forall v: nat :: Look(g, t', lvl, v) == if lo <= v < hi then None else Look(g, t, lvl, v)
  }

  /** Unmapping removes exactly the pages asked for, precisely when no block straddles the range. */
  lemma UnmapExact(g: Geometry, t: Tree, t': Tree, lvl: nat, lo: nat, hi: nat)
    requires g.Valid() && WellFormed(g, t, lvl) && WellFormed(g, t', lvl) && lo < hi
    requires Unmaps(g, t, t', lvl, lo, hi)
    ensures Removes(g, t, t', lvl, lo, hi) <==> !Straddles(g, t, lvl, lo, hi)
  {
    if Straddles(g, t, lvl, lo, hi) {
      var a, b := Look(g, t, lvl, lo), Look(g, t, lvl, hi - 1);
      if a.Some? && a.value.off > 0 {
        LookExtent(g, t, lvl, lo);
        Overhang(g, t, t', lvl, lo, hi, lo, lo - 1);
      } else {
        LookExtent(g, t, lvl, hi - 1);
        Overhang(g, t, t', lvl, lo, hi, hi - 1, hi);
      }
    } else {
      forall v: nat
        ensures Look(g, t', lvl, v) == if lo <= v < hi then None else Look(g, t, lvl, v)
      {
        ExactPage(g, t, t', lvl, lo, hi, v);
      }
    }
  }

  /** Unmapping the first page of a 2 MiB block takes the second page with it. */
  lemma StraddlingBlock() returns (g: Geometry, t: Tree, t': Tree)
    ensures g == Geometry(0x1000, 512, 1, 1, 2) && g.Valid() && WellFormed(g, t, 1) && WellFormed(g, t', 1)
    ensures Unmaps(g, t, t', 1, 0, 1) && Straddles(g, t, 1, 0, 1) && !Removes(g, t, t', 1, 0, 1)
    ensures Look(g, t, 1, 1) == Some(Xlat(1, 0, 1, 512)) && Look(g, t', 1, 1) == None
  {
    hide Times, Look;
    g, t, t' := Geometry(0x1000, 512, 1, 1, 2), Tree(0, [Leaf(0, 0)]), Tree(0, [Empty]);
    TimesIs(512, 1);
    assert g.Span(1) == Times(512, g.Span(0)) == 512;
    SlotOf(0, 0, 0, 512) by {
      TimesIs(0, 512);
    }
    forall v: nat
      ensures Look(g, t', 1, v) == None
      ensures Look(g, t, 1, v) == if v < 512 then Some(Xlat(v, 0, v, 512)) else None
    {
      OneBlock(g, v);
    }
    assert Look(g, t', 1, 1) != Look(g, t, 1, 1);
  }

  lemma OneBlock(g: Geometry, v: nat)
    requires g.Valid() && g.Span(1) == 512 && g.maxBlock == 2 && Mod(0, 512) == 0
    ensures WellFormed(g, Tree(0, [Leaf(0, 0)]), 1) && WellFormed(g, Tree(0, [Empty]), 1)
    ensures Look(g, Tree(0, [Empty]), 1, v) == None
    ensures Look(g, Tree(0, [Leaf(0, 0)]), 1, v) == if v < 512 then Some(Xlat(v, 0, v, 512)) else None
  {
    hide Times;
    DivIs(v, 512);
  }

  lemma Overhang(g: Geometry, t: Tree, t': Tree, lvl: nat, lo: nat, hi: nat, v: nat, w: int)
    requires g.Valid() && WellFormed(g, t, lvl) && WellFormed(g, t', lvl) && lo <= v < hi && !(lo <= w < hi)
    requires Unmaps(g, t, t', lvl, lo, hi)
    requires Look(g, t, lvl, v).Some?
    requires var x := Look(g, t, lvl, v).value; v - x.off <= w < v - x.off + x.size
    ensures !Removes(g, t, t', lvl, lo, hi)
  {
    LookExtent(g, t, lvl, v);
    ExtentNat(g, t, lvl, v);
    LookBlock(g, t, lvl, v, w);
    assert Look(g, t', lvl, w) == Cut(Look(g, t, lvl, w), w, lo, hi);
  }

  /** A block does not start before page 0. */
  lemma ExtentNat(g: Geometry, t: Tree, lvl: nat, v: nat)
    requires g.Valid() && WellFormed(g, t, lvl) && Look(g, t, lvl, v).Some?
    ensures v - Look(g, t, lvl, v).value.off >= 0
  {
    LookExtent(g, t, lvl, v);
    var s := g.Span(lvl);
    InSlot(v, 0, 0, s);
    Zero(s);
  }

  lemma ExactPage(g: Geometry, t: Tree, t': Tree, lvl: nat, lo: nat, hi: nat, v: nat)
    requires g.Valid() && WellFormed(g, t, lvl) && WellFormed(g, t', lvl) && lo < hi
    requires Unmaps(g, t, t', lvl, lo, hi) && !Straddles(g, t, lvl, lo, hi)
    ensures Look(g, t', lvl, v) == if lo <= v < hi then None else Look(g, t, lvl, v)
  {
    hide WellFormed;
    var x := Look(g, t, lvl, v);
    assert Look(g, t', lvl, v) == Cut(x, v, lo, hi);
    if x.Some? {
      LookExtent(g, t, lvl, v);
      if v < lo && Hit(x.value, v, lo, hi) {
        LookBlock(g, t, lvl, v, lo);
      } else if v >= hi && Hit(x.value, v, lo, hi) {
        LookBlock(g, t, lvl, v, hi - 1);
      }
    }
  }

  /** One call on the address space, with its outcome. */
  datatype Call =
    | MapCall(lo: nat, n: nat, pa: nat, attrs: Attr, ok: bool)
    | UnmapCall(lo: nat, n: nat)

  ghost predicate Step(g: Geometry, t: Tree, c: Call, t': Tree)
    requires g.Valid()
  {
    && WellFormed(g, t, g.top) && WellFormed(g, t', g.top)
    && match c
       case MapCall(lo, n, pa, attrs, ok) =>
         if ok then Maps(g, t, t', g.top, lo, lo + n, pa, attrs) else SameLook(g, t, t', g.top)
       case UnmapCall(lo, n) => Unmaps(g, t, t', g.top, lo, lo + n)
  }

  /** A run: trees[0], calls[0], trees[1], calls[1], ... */
  ghost predicate IsRun(g: Geometry, trees: seq<Tree>, calls: seq<Call>)
    requires g.Valid()
  {
    |trees| == |calls| + 1 && forall k :: 0 <= k < |calls| ==> Step(g, trees[k], calls[k], trees[k + 1])
  }

  ghost predicate SplitsNothing(g: Geometry, trees: seq<Tree>, calls: seq<Call>)
    requires g.Valid() && IsRun(g, trees, calls)
  {
    forall k :: 0 <= k < |calls| && calls[k].UnmapCall? && calls[k].n > 0 ==>
      Step(g, trees[k], calls[k], trees[k + 1]) && !Straddles(g, trees[k], g.top, calls[k].lo, calls[k].lo + calls[k].n)
  }

  /** Where page v is mapped, as far as a caller can tell. */
  ghost function Where(x: Option<Xlat>): Option<(nat, Attr)>
  {
    if x.Some? then Some((x.value.pa, x.value.attrs)) else None
  }

  /** The simple reading of a history: the last successful call that covers page v decides. */
  function History(first: Option<(nat, Attr)>, calls: seq<Call>, v: nat): Option<(nat, Attr)>
  {
    if calls == [] then first else
    var before := History(first, calls[..|calls| - 1], v);
    match calls[|calls| - 1]
    case MapCall(lo, n, pa, attrs, ok) => if ok && lo <= v < lo + n then Some((pa + (v - lo), attrs)) else before
    case UnmapCall(lo, n) => if lo <= v < lo + n then None else before
  }

  /** Over every run that splits no block, the tree agrees with the history, page by page, whatever mix
      of blocks and pages was chosen on the way. */
  lemma {:induction false} RunAgrees(g: Geometry, trees: seq<Tree>, calls: seq<Call>, v: nat)
    requires g.Valid() && IsRun(g, trees, calls) && SplitsNothing(g, trees, calls)
    requires WellFormed(g, trees[0], g.top) && WellFormed(g, trees[|calls|], g.top)
    ensures Where(Look(g, trees[|calls|], g.top, v)) == History(Where(Look(g, trees[0], g.top, v)), calls, v)
    decreases |calls|
  {
    hide WellFormed, Look, Maps, Unmaps, SameLook, Straddles;
    if calls != [] {
      var k := |calls| - 1;
      assert Step(g, trees[k], calls[k], trees[k + 1]);
      RunPrefix(g, trees, calls, k);
      RunAgrees(g, trees[..k + 1], calls[..k], v);
      StepPage(g, trees[k], calls[k], trees[k + 1], v);
    }
  }

  lemma RunPrefix(g: Geometry, trees: seq<Tree>, calls: seq<Call>, k: nat)
    requires g.Valid() && IsRun(g, trees, calls) && SplitsNothing(g, trees, calls) && k <= |calls|
    ensures IsRun(g, trees[..k + 1], calls[..k]) && SplitsNothing(g, trees[..k + 1], calls[..k])
  {
    forall j | 0 <= j < k
      ensures Step(g, trees[..k + 1][j], calls[..k][j], trees[..k + 1][j + 1])
    {
      assert Step(g, trees[j], calls[j], trees[j + 1]);
    }
  }

  lemma StepPage(g: Geometry, t: Tree, c: Call, t': Tree, v: nat)
    requires g.Valid() && Step(g, t, c, t')
    requires c.UnmapCall? && c.n > 0 ==> !Straddles(g, t, g.top, c.lo, c.lo + c.n)
    ensures Where(Look(g, t', g.top, v)) == History(Where(Look(g, t, g.top, v)), [c], v)
  {
    hide WellFormed, Look, Straddles;
    match c
    case MapCall(lo, n, pa, attrs, ok) =>
      if ok {
        assert MapsPage(Look(g, t, g.top, v), Look(g, t', g.top, v), v, lo, lo + n, pa, attrs);
      }
    case UnmapCall(lo, n) =>
      if n > 0 {
        ExactPage(g, t, t', g.top, lo, lo + n, v);
      } else {
        assert Look(g, t', g.top, v) == Cut(Look(g, t, g.top, v), v, lo, lo + n);
      }
  }
}
