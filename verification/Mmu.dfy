/** arch/arm64/mmu.c: translation tables in memory, and the code that walks, extends and prunes
    them.  `words` holds the descriptors of the tables that are in use, keyed by physical frame, and `mem`
    what they stand for; `free` is the supply of frames the page allocator hands out for tables. */
module Mmu {
  import opened Wrappers
  import Arith
  import opened Slots
  import Align
  import opened Lists
  import opened PageTree
  import opened Descriptor

  /** What is put into a descriptor.  Types 0, 1 and 3 of the low two bits; type 3 is a table above level 0
      and a page at level 0. */
  datatype Pte = Invalid | Block(pa: nat, attrs: Attr) | TableOrPage(pa: nat, attrs: Attr)

  type Mem = map<nat, seq<Pte>>

  /** The 64-bit word that is stored for it. */
  function Encode(e: Pte): bv64
  {
    match e
    case Invalid => 0
    case Block(pa, attrs) => Pack(AddressOf(pa), attrs, BLOCK)
    case TableOrPage(pa, attrs) => Pack(AddressOf(pa), attrs, TABLE_OR_PAGE)
  }

  /** The type of a word tells what was put into it, and a table pointer tells which table. */
  lemma EncodeType(e: Pte)
    ensures Encode(e) == 0 <==> e.Invalid?
    ensures Encode(e) & TYPE_MASK == 0 <==> e.Invalid?
    ensures Encode(e) & TYPE_MASK == BLOCK <==> e.Block?
    ensures Encode(e) & TYPE_MASK == TABLE_OR_PAGE <==> e.TableOrPage?
    ensures e.TableOrPage? && e.attrs == 0 && e.pa < FRAMES ==> FrameOf(Encode(e)) == e.pa
  {
    match e
    case Invalid =>
    case Block(pa, attrs) =>
      TypeBack(pa, attrs, BLOCK);
    case TableOrPage(pa, attrs) =>
      TypeBack(pa, attrs, TABLE_OR_PAGE);
      if pa < FRAMES {
        TableBack(pa);
      }
  }

  /** Memory holds the words of the entries. */
  ghost predicate Encoded(words: map<nat, seq<bv64>>, mem: Mem)
  {
    && words.Keys == mem.Keys
    && (forall a :: a in words ==> |words[a]| == |mem[a]|)
    && (forall a, i {:trigger words[a][i]} :: a in words && 0 <= i < |words[a]| ==> words[a][i] == Encode(mem[a][i]))
  }

  /** A table pointer can name every one of these frames. */
  ghost predicate Addressable(frames: set<nat>)
  {
    forall a :: a in frames ==> a < FRAMES
  }

  lemma EncodedPut(words: map<nat, seq<bv64>>, mem: Mem, a: nat, i: nat, w: bv64, e: Pte)
    requires Encoded(words, mem) && a in mem && i < |mem[a]| && w == Encode(e)
    ensures Encoded(words[a := words[a][i := w]], mem[a := mem[a][i := e]])
  {
  }

  lemma EncodedNew(words: map<nat, seq<bv64>>, mem: Mem, a: nat, n: nat)
    requires Encoded(words, mem)
    ensures Encoded(words[a := seq(n, _ => 0)], mem[a := seq(n, _ => Invalid)])
  {
  }

  /** The regime of a kernel with 4 KiB pages: blocks go up to 1 GiB. */
  predicate FourK(g: Geometry)
  {
    g.pageSize == 0x1000 && g.fanout == 512 && g.maxBlock <= 2
  }

  /** Physical addresses are 64-bit words: a frame number and the same one 2^64 bytes on are aligned alike. */
  lemma AlignWraps(g: Geometry, lvl: nat, pa: nat)
    requires g.Valid() && FourK(g) && lvl <= 2
    ensures Mod(pa + 0x10_0000_0000_0000, g.Span(lvl)) == Mod(pa, g.Span(lvl))
  {
    hide Times, Div, Mod;
    var s := g.Span(lvl);
    assert 0x10_0000_0000_0000 % s == 0 by {
      assert g.Span(0) == 1;
      TimesIs(512, 1);
      TimesIs(512, 512);
      assert g.Span(1) == 512;
      assert s == 1 || s == 512 || s == 0x4_0000;
    }
    DivIs(pa, s);
    DivIs(pa + 0x10_0000_0000_0000, s);
    Align.ModAdd(pa, 0x10_0000_0000_0000, s);
  }

  // ---------- what a query sees ----------

  /** What is read back from the descriptor of a translation: the frame and the flags, if there are any. */
  function Seen(x: Xlat): (nat, Option<bv64>)
    requires x.off <= x.pa
  {
    var d := Decode(Encode(Block(x.pa - x.off, x.attrs)));
    (d.0 + x.off, d.1)
  }

  /** Word w, read rem pages into its block, is the descriptor of x. */
  ghost predicate IsWord(w: bv64, rem: nat, x: Xlat)
  {
    && rem == x.off <= x.pa
    && (w == Encode(Block(x.pa - x.off, x.attrs)) || w == Encode(TableOrPage(x.pa - x.off, x.attrs)))
  }

  lemma WordSeen(w: bv64, rem: nat, x: Xlat)
    requires IsWord(w, rem, x)
    ensures Seen(x) == (FrameOf(w) + rem, QueryFlags(w))
  {
    hide Encode, Decode, FrameOf, QueryFlags;
    WordIs(w, x.pa - x.off, x.attrs);
  }

  lemma WordIs(w: bv64, pa: nat, attrs: Attr)
    requires w == Encode(Block(pa, attrs)) || w == Encode(TableOrPage(pa, attrs))
    ensures Decode(Encode(Block(pa, attrs))) == (FrameOf(w), QueryFlags(w))
  {
    hide AddressOf, Decode, FrameOf, QueryFlags, Pack;
    WordBits(w, AddressOf(pa), attrs);
  }

  lemma WordBits(w: bv64, p: bv64, attrs: Attr)
    requires w == Pack(p, attrs, BLOCK) || w == Pack(p, attrs, TABLE_OR_PAGE)
    ensures Decode(Pack(p, attrs, BLOCK)) == (FrameOf(w), QueryFlags(w))
  {
    KindFree(p, attrs);
  }

  /** The sizes of blocks divide the range of an output address. */
  lemma BlockSizes(g: Geometry, l: nat)
    requires g.Valid() && FourK(g) && (l == 0 || l <= g.maxBlock)
    ensures var s := g.Span(l); s == 1 || s == 512 || s == 0x4_0000
  {
    TimesIs(512, 1);
    TimesIs(512, 512);
    assert g.Span(0) == 1;
    if l > 0 {
      assert g.Span(1) == Times(512, 1);
      if l > 1 {
        assert g.Span(2) == Times(512, g.Span(1));
      }
    }
  }

  /** A block starts below 2^48 bytes exactly when all of it lies there. */
  lemma BlockWithin(base: nat, off: nat, s: nat)
    requires (s == 1 || s == 512 || s == 0x4_0000) && off < s && Mod(base, s) == 0
    ensures base < FRAMES <==> base + off < FRAMES
  {
    DivIs(base, s);
  }

  /** A translation is read back as it was asked for exactly when its frame lies below 2^48 bytes and its flags
      have a cache mode. */
  lemma SeenIs(g: Geometry, t: Tree, lvl: nat, v: nat, flags: bv64)
    requires g.Valid() && FourK(g) && WellFormed(g, t, lvl) && Look(g, t, lvl, v).Some?
    requires Look(g, t, lvl, v).value.attrs == FlagsToAttr(flags)
    ensures var x := Look(g, t, lvl, v).value;
      && x.off <= x.pa
      && (Seen(x) == (x.pa, Some(flags & FLAGS_MASK)) <==> x.pa < FRAMES && flags & CACHE_MASK != 3)
  {
    LookAligned(g, t, lvl, v);
    var x := Look(g, t, lvl, v).value;
    var l: nat :| (l == 0 || l <= g.maxBlock) && x.size == g.Span(l);
    BlockSizes(g, l);
    BlockWithin(x.pa - x.off, x.off, x.size);
    EntrySeen(x, flags);
  }

  lemma EntrySeen(x: Xlat, flags: bv64)
    requires x.off <= x.pa && x.attrs == FlagsToAttr(flags) && (x.pa - x.off < FRAMES <==> x.pa < FRAMES)
    ensures Seen(x) == (x.pa, Some(flags & FLAGS_MASK)) <==> x.pa < FRAMES && flags & CACHE_MASK != 3
  {
    hide AddressOf, FlagsToAttr, Decode, FrameOf, QueryFlags, Pack;
    EntryBack(x.pa - x.off, flags, BLOCK);
  }

  /** This translation is read back as frame pa with these flags. */
  ghost predicate SeenAs(x: Option<Xlat>, pa: int, flags: bv64)
  {
    x.Some? && x.value.off <= x.value.pa && Seen(x.value) == (pa, Some(flags & FLAGS_MASK))
  }

  /** The n pages from lo are read back as the frames from pa, all with these flags. */
  ghost predicate SeesRange(g: Geometry, t: Tree, lo: nat, n: nat, pa: nat, flags: bv64)
    requires g.Valid() && WellFormed(g, t, g.top)
  {
    forall v: nat {:trigger Look(g, t, g.top, v)} :: lo <= v < lo + n ==>
      SeenAs(Look(g, t, g.top, v), pa + (v - lo), flags)
  }

  /** A mapped range is read back as it was asked for, page by page, exactly when all of it lies below 2^48
      bytes and the flags have a cache mode. */
  lemma RangeSeen(g: Geometry, t: Tree, t': Tree, lo: nat, n: nat, pa: nat, flags: bv64)
    requires g.Valid() && FourK(g) && WellFormed(g, t, g.top) && WellFormed(g, t', g.top) && n > 0
    requires Maps(g, t, t', g.top, lo, lo + n, pa, FlagsToAttr(flags))
    ensures SeesRange(g, t', lo, n, pa, flags) <==> pa + n <= FRAMES && flags & CACHE_MASK != 3
  {
    hide Look, WellFormed, Seen, FlagsToAttr;
    forall v: nat {:trigger Look(g, t', g.top, v)} | lo <= v < lo + n
      ensures SeenAs(Look(g, t', g.top, v), pa + (v - lo), flags) <==>
              pa + (v - lo) < FRAMES && flags & CACHE_MASK != 3
    {
      assert MapsPage(Look(g, t, g.top, v), Look(g, t', g.top, v), v, lo, lo + n, pa, FlagsToAttr(flags));
      SeenIs(g, t', g.top, v, flags);
    }
    assert SeenAs(Look(g, t', g.top, lo + n - 1), pa + (n - 1), flags) <==>
           pa + (n - 1) < FRAMES && flags & CACHE_MASK != 3;
  }

  // ---------- tables in memory against trees ----------

  ghost predicate Rep(mem: Mem, t: Tree, lvl: nat)
    decreases t
  {
    && t.addr in mem
    && |mem[t.addr]| == |t.slots|
    && forall i :: 0 <= i < |t.slots| ==> SlotRep(mem, mem[t.addr][i], t.slots[i], lvl)
  }

  ghost predicate SlotRep(mem: Mem, e: Pte, s: Slot, lvl: nat)
    decreases s
  {
    match s
    case Empty => e == Invalid
    case Leaf(pa, attrs) => e == if lvl == 0 then TableOrPage(pa, attrs) else Block(pa, attrs)
    case Sub(c) => lvl > 0 && e == TableOrPage(c.addr, 0) && Rep(mem, c, lvl - 1)
  }

  lemma {:induction false} RepFrame(mem: Mem, mem': Mem, t: Tree, lvl: nat)
    requires Rep(mem, t, lvl)
    requires forall a :: a in Foot(t) ==> a in mem' && a in mem && mem'[a] == mem[a]
    ensures Rep(mem', t, lvl)
    decreases t
  {
    assert t.addr in Foot(t);
    forall i | 0 <= i < |t.slots|
      ensures SlotRep(mem', mem'[t.addr][i], t.slots[i], lvl)
    {
      assert SlotRep(mem, mem[t.addr][i], t.slots[i], lvl);
      if t.slots[i].Sub? {
        assert SlotFoot(t.slots[i]) == Foot(t.slots[i].t);
        RepFrame(mem, mem', t.slots[i].t, lvl - 1);
      }
    }
  }

  lemma {:induction false} RepFoot(mem: Mem, t: Tree, lvl: nat)
    requires Rep(mem, t, lvl)
    ensures Foot(t) <= mem.Keys
    decreases t
  {
    forall a | a in Foot(t)
      ensures a in mem
    {
      if a != t.addr {
        var i :| 0 <= i < |t.slots| && a in SlotFoot(t.slots[i]);
        assert SlotRep(mem, mem[t.addr][i], t.slots[i], lvl);
        RepFoot(mem, t.slots[i].t, lvl - 1);
      }
    }
  }

  /** Memory outside the tree is untouched, and the tables in use are those outside the old tree plus
      those of the new one. */
  ghost predicate Moved(mem: Mem, t: Tree, mem': Mem, t': Tree)
  {
    && t'.addr == t.addr
    && |t'.slots| == |t.slots|
    && (forall a :: a in mem && a !in Foot(t) ==> a in mem' && mem'[a] == mem[a])
    && mem'.Keys - Foot(t') == mem.Keys - Foot(t)
  }

  lemma MovedTrans(m0: Mem, t0: Tree, m1: Mem, t1: Tree, m2: Mem, t2: Tree)
    requires Moved(m0, t0, m1, t1) && Moved(m1, t1, m2, t2)
    ensures Moved(m0, t0, m2, t2)
  {
    forall a | a in m0 && a !in Foot(t0)
      ensures a in m2 && m2[a] == m0[a]
    {
      assert a in m1.Keys - Foot(t1);
    }
  }

  /** Replacing slot i of a tree, in memory: the one lemma behind every descriptor write. */
  lemma PutSlot(mem: Mem, mem': Mem, t: Tree, lvl: nat, i: nat, s: Slot)
    requires Rep(mem, t, lvl) && Distinct(t) && i < |t.slots|
    requires t.addr in mem' && |mem'[t.addr]| == |t.slots|
    requires forall j :: 0 <= j < |t.slots| && j != i ==> mem'[t.addr][j] == mem[t.addr][j]
    requires SlotRep(mem', mem'[t.addr][i], s, lvl) && SlotDistinct(s) && t.addr !in SlotFoot(s)
    requires forall a :: a in mem && a != t.addr && a !in SlotFoot(t.slots[i]) ==> a in mem' && mem'[a] == mem[a]
    requires mem'.Keys - SlotFoot(s) == mem.Keys - SlotFoot(t.slots[i])
    ensures Rep(mem', Put(t, i, s), lvl) && Distinct(Put(t, i, s))
    ensures Moved(mem, t, mem', Put(t, i, s))
  {
    forall j | 0 <= j < |t.slots| && j != i
      ensures SlotFoot(t.slots[j]) !! SlotFoot(s)
      ensures SlotRep(mem', mem'[t.addr][j], t.slots[j], lvl)
    {
      OtherSlot(mem, t, lvl, i, j);
      OtherSlotRep(mem, mem', t, lvl, i, j);
    }
    FootPut(t, i, s);
    RepFoot(mem, t, lvl);
    PutSlotMoved(mem, mem', t, i, s);
  }

  lemma OtherSlotRep(mem: Mem, mem': Mem, t: Tree, lvl: nat, i: nat, j: nat)
    requires Rep(mem, t, lvl) && i < |t.slots| && j < |t.slots| && j != i
    requires SlotFoot(t.slots[j]) <= mem.Keys - SlotFoot(t.slots[i]) - {t.addr}
    requires t.addr in mem' && |mem'[t.addr]| == |t.slots| && mem'[t.addr][j] == mem[t.addr][j]
    requires forall a :: a in mem && a != t.addr && a !in SlotFoot(t.slots[i]) ==> a in mem' && mem'[a] == mem[a]
    ensures SlotRep(mem', mem'[t.addr][j], t.slots[j], lvl)
  {
    assert SlotRep(mem, mem[t.addr][j], t.slots[j], lvl);
    if t.slots[j].Sub? {
      RepFrame(mem, mem', t.slots[j].t, lvl - 1);
    }
  }

  lemma OtherSlot(mem: Mem, t: Tree, lvl: nat, i: nat, j: nat)
    requires Rep(mem, t, lvl) && Distinct(t) && i < |t.slots| && j < |t.slots| && j != i
    ensures SlotFoot(t.slots[j]) <= mem.Keys - SlotFoot(t.slots[i]) - {t.addr}
  {
    if i < j {
      assert SlotFoot(t.slots[i]) !! SlotFoot(t.slots[j]);
    } else {
      assert SlotFoot(t.slots[j]) !! SlotFoot(t.slots[i]);
    }
    assert t.addr !in SlotFoot(t.slots[j]);
    assert SlotRep(mem, mem[t.addr][j], t.slots[j], lvl);
    if t.slots[j].Sub? {
      RepFoot(mem, t.slots[j].t, lvl - 1);
    }
  }

  lemma PutSlotMoved(mem: Mem, mem': Mem, t: Tree, i: nat, s: Slot)
    requires i < |t.slots| && Distinct(t) && Foot(t) <= mem.Keys
    requires Foot(Put(t, i, s)) == Foot(t) - SlotFoot(t.slots[i]) + SlotFoot(s)
    requires forall a :: a in mem && a != t.addr && a !in SlotFoot(t.slots[i]) ==> a in mem' && mem'[a] == mem[a]
    requires mem'.Keys - SlotFoot(s) == mem.Keys - SlotFoot(t.slots[i])
    ensures Moved(mem, t, mem', Put(t, i, s))
  {
    var t' := Put(t, i, s);
    assert SlotFoot(t.slots[i]) <= Foot(t);
    assert t.addr in Foot(t);
    forall a
      ensures a in mem'.Keys - Foot(t') <==> a in mem.Keys - Foot(t)
    {
      if a in mem'.Keys - Foot(t') {
        assert a in mem'.Keys - SlotFoot(s);
      }
      if a in mem.Keys - Foot(t) {
        assert a in mem.Keys - SlotFoot(t.slots[i]);
      }
    }
  }

  /** Memory holds the well-formed tree t, without sharing. */
  ghost predicate Holds(g: Geometry, mem: Mem, t: Tree, lvl: nat)
  {
    g.Valid() && Rep(mem, t, lvl) && Distinct(t) && WellFormed(g, t, lvl)
  }

  /** What memory holds for slot i. */
  lemma SlotHeld(g: Geometry, mem: Mem, t: Tree, lvl: nat, i: nat)
    requires Holds(g, mem, t, lvl) && i < |t.slots|
    ensures t.addr in mem && |mem[t.addr]| == |t.slots| && SlotRep(mem, mem[t.addr][i], t.slots[i], lvl)
    ensures SlotOk(g, t.slots[i], lvl) && SlotDistinct(t.slots[i])
    ensures t.slots[i].Sub? ==> t.slots[i].t.addr in mem && Holds(g, mem, t.slots[i].t, lvl - 1)
  {
    assert SlotOk(g, t.slots[i], lvl);
    assert SlotRep(mem, mem[t.addr][i], t.slots[i], lvl);
    assert SlotDistinct(t.slots[i]);
    if t.slots[i].Sub? {
      assert Rep(mem, t.slots[i].t, lvl - 1);
    }
  }

  /** The sub-table behind slot i is itself a well-formed tree, apart from its parent. */
  lemma SubHeld(g: Geometry, mem: Mem, t: Tree, lvl: nat, i: nat)
    requires Holds(g, mem, t, lvl) && i < |t.slots| && t.slots[i].Sub?
    ensures lvl > 0 && Holds(g, mem, t.slots[i].t, lvl - 1) && |t.slots[i].t.slots| == g.fanout
    ensures SlotOk(g, t.slots[i], lvl) && Times(g.fanout, g.Span(lvl - 1)) == g.Span(lvl)
    ensures t.addr !in Foot(t.slots[i].t) && mem[t.addr][i] == TableOrPage(t.slots[i].t.addr, 0)
  {
    assert SlotOk(g, t.slots[i], lvl);
    assert SlotRep(mem, mem[t.addr][i], t.slots[i], lvl);
    assert SlotDistinct(t.slots[i]);
    assert t.addr !in SlotFoot(t.slots[i]);
  }

  /** A sub-table changed in place, seen from its parent. */
  lemma SubMoved(g: Geometry, mem: Mem, mem': Mem, t: Tree, lvl: nat, i: nat, c': Tree)
    requires Holds(g, mem, t, lvl) && i < |t.slots| && t.slots[i].Sub? && lvl > 0
    requires Moved(mem, t.slots[i].t, mem', c') && Holds(g, mem', c', lvl - 1) && |c'.slots| == g.fanout
    ensures Holds(g, mem', Put(t, i, Sub(c')), lvl) && Moved(mem, t, mem', Put(t, i, Sub(c')))
  {
    var c := t.slots[i].t;
    SubHeld(g, mem, t, lvl, i);
    assert t.addr in mem.Keys - Foot(c);
    assert t.addr in mem'.Keys - Foot(c');
    PutSlot(mem, mem', t, lvl, i, Sub(c'));
    LookPut(g, t, lvl, i, Sub(c'));
  }

  /** An empty sub-table is one frame of invalid descriptors. */
  lemma EmptyHeld(g: Geometry, mem: Mem, c: Tree, lvl: nat)
    requires Holds(g, mem, c, lvl)
    ensures AllEmpty(c) ==> Foot(c) == {c.addr}
    ensures AllEmpty(c) <==> forall i :: 0 <= i < |mem[c.addr]| ==> mem[c.addr][i] == Invalid
  {
    forall i | 0 <= i < |c.slots|
      ensures c.slots[i].Empty? <==> mem[c.addr][i] == Invalid
      ensures c.slots[i].Empty? ==> SlotFoot(c.slots[i]) == {}
    {
      assert SlotRep(mem, mem[c.addr][i], c.slots[i], lvl);
    }
  }

  /** The pointer to an empty sub-table cleared and its frame given back. */
  lemma SubDropped(g: Geometry, mem: Mem, mem': Mem, t: Tree, lvl: nat, i: nat)
    requires Holds(g, mem, t, lvl) && i < |t.slots| && t.slots[i].Sub? && AllEmpty(t.slots[i].t)
    requires mem' == mem[t.addr := mem[t.addr][i := Invalid]] - {t.slots[i].t.addr}
    ensures Holds(g, mem', Put(t, i, Empty), lvl) && Moved(mem, t, mem', Put(t, i, Empty))
  {
    SubHeld(g, mem, t, lvl, i);
    EmptyHeld(g, mem, t.slots[i].t, lvl - 1);
    PutSlot(mem, mem', t, lvl, i, Empty);
    LookPut(g, t, lvl, i, Empty);
  }

  /** A pointer to a new, empty sub-table. */
  lemma SubAdded(g: Geometry, mem: Mem, mem': Mem, t: Tree, lvl: nat, i: nat, c: Tree)
    requires Holds(g, mem, t, lvl) && i < |t.slots| && t.slots[i].Empty? && lvl > 0
    requires AllEmpty(c) && |c.slots| == g.fanout && c.addr !in mem
    requires mem' == mem[c.addr := seq(g.fanout, _ => Invalid)][t.addr := mem[t.addr][i := TableOrPage(c.addr, 0)]]
    ensures Holds(g, mem', Put(t, i, Sub(c)), lvl) && Moved(mem, t, mem', Put(t, i, Sub(c)))
  {
    assert Rep(mem', c, lvl - 1);
    assert Foot(c) == {c.addr} by {
      assert forall j :: 0 <= j < |c.slots| ==> SlotFoot(c.slots[j]) == {};
    }
    PutSlot(mem, mem', t, lvl, i, Sub(c));
    LookPut(g, t, lvl, i, Sub(c));
  }

  /** A leaf written or cleared. */
  lemma LeafSet(g: Geometry, mem: Mem, mem': Mem, t: Tree, lvl: nat, i: nat, s: Slot, e: Pte)
    requires Holds(g, mem, t, lvl) && i < |t.slots| && !t.slots[i].Sub? && !s.Sub? && SlotOk(g, s, lvl)
    requires SlotRep(mem, e, s, lvl) && mem' == mem[t.addr := mem[t.addr][i := e]]
    ensures Holds(g, mem', Put(t, i, s), lvl) && Moved(mem, t, mem', Put(t, i, s))
  {
    PutSlot(mem, mem', t, lvl, i, s);
    LookPut(g, t, lvl, i, s);
  }

  ghost function AsSet(q: seq<nat>): set<nat>
  {
    set a | a in q
  }

  // ---------- the words in memory ----------

  /** The walk of the translation hardware through the words in memory: at each level the next bits of the page
      number choose a word, whose low two bits are 0 for nothing, 1 for a block, 3 for a table or, at level 0, for
      a page.  The result is the word it ends at, and how many pages into what that word maps. */
  ghost function Reach(g: Geometry, words: map<nat, seq<bv64>>, a: nat, lvl: nat, v: nat): Option<(bv64, nat)>
    requires g.Valid()
    decreases lvl
  {
    var s := g.Span(lvl);
    if a !in words || Div(v, s) >= |words[a]| then None else
    var w := words[a][Div(v, s)];
    if w & 3 == 0 then None
    else if w & 3 == (if lvl > 0 then 1 else 3) then Some((w, Mod(v, s)))
    else if lvl == 0 then None
    else Reach(g, words, FrameOf(w), lvl - 1, Mod(v, s))
  }

  /** The hardware finds exactly the translations of the tree, each in the word stored for it. */
  lemma {:induction false} ReachIs(g: Geometry, words: map<nat, seq<bv64>>, mem: Mem, t: Tree, lvl: nat, v: nat)
    requires Holds(g, mem, t, lvl) && Encoded(words, mem) && Addressable(mem.Keys)
    ensures Reach(g, words, t.addr, lvl, v).Some? <==> Look(g, t, lvl, v).Some?
    ensures Look(g, t, lvl, v).Some? ==>
              var r := Reach(g, words, t.addr, lvl, v).value; IsWord(r.0, r.1, Look(g, t, lvl, v).value)
    decreases lvl
  {
    hide Rep, Distinct, Foot, Encode, FrameOf, Div, Mod;
    var i := Div(v, g.Span(lvl));
    RepSize(mem, t, lvl);
    if i < |t.slots| {
      SlotHeld(g, mem, t, lvl, i);
      var e := mem[t.addr][i];
      EncodeType(e);
      if t.slots[i].Sub? {
        ReachIs(g, words, mem, t.slots[i].t, lvl - 1, Mod(v, g.Span(lvl)));
      }
    }
  }

  lemma RepSize(mem: Mem, t: Tree, lvl: nat)
    requires Rep(mem, t, lvl)
    ensures t.addr in mem && |mem[t.addr]| == |t.slots|
  {
  }

  /** A word was found, and maps frame pa with these flags. */
  ghost predicate Stored(r: Option<(bv64, nat)>, pa: int, flags: bv64)
  {
    r.Some? && r.value.1 <= pa && WordFor(r.value.0, pa - r.value.1, flags)
  }

  /** Memory maps the n pages from lo to the frames from pa, all with these flags. */
  ghost predicate StoresRange(g: Geometry, words: map<nat, seq<bv64>>, root: nat, lo: nat, n: nat, pa: nat, flags: bv64)
    requires g.Valid()
  {
    forall v: nat {:trigger Reach(g, words, root, g.top, v)} :: lo <= v < lo + n ==>
      Stored(Reach(g, words, root, g.top, v), pa + (v - lo), flags)
  }

  lemma WordStored(w: bv64, rem: nat, x: Xlat, flags: bv64)
    requires IsWord(w, rem, x) && x.attrs == FlagsToAttr(flags)
    ensures WordFor(w, x.pa - rem, flags)
  {
    hide WordFor, AddressOf, FlagsToAttr, Pack;
    LeafWord(x.pa - rem, flags, BLOCK);
    LeafWord(x.pa - rem, flags, TABLE_OR_PAGE);
  }

  /** After a map, memory says of every page of the range what was asked for. */
  lemma RangeStored(g: Geometry, words: map<nat, seq<bv64>>, mem: Mem, t: Tree, t': Tree, lo: nat, n: nat, pa: nat,
                    flags: bv64)
    requires Holds(g, mem, t', g.top) && Encoded(words, mem) && Addressable(mem.Keys) && WellFormed(g, t, g.top)
    requires Maps(g, t, t', g.top, lo, lo + n, pa, FlagsToAttr(flags))
    ensures StoresRange(g, words, t'.addr, lo, n, pa, flags)
  {
    hide Look, Rep, Distinct, Foot, Reach, WordFor, FlagsToAttr, Encode, WellFormed;
    forall v: nat {:trigger Reach(g, words, t'.addr, g.top, v)} | lo <= v < lo + n
      ensures Stored(Reach(g, words, t'.addr, g.top, v), pa + (v - lo), flags)
    {
      assert MapsPage(Look(g, t, g.top, v), Look(g, t', g.top, v), v, lo, lo + n, pa, FlagsToAttr(flags));
      ReachIs(g, words, mem, t', g.top, v);
      var r := Reach(g, words, t'.addr, g.top, v).value;
      WordStored(r.0, r.1, Look(g, t', g.top, v).value, flags);
    }
  }

  /** After an unmap, memory says nothing of any page of the range. */
  lemma RangeCleared(g: Geometry, words: map<nat, seq<bv64>>, mem: Mem, t: Tree, t': Tree, lo: nat, n: nat)
    requires Holds(g, mem, t', g.top) && Encoded(words, mem) && Addressable(mem.Keys) && WellFormed(g, t, g.top)
    requires Unmaps(g, t, t', g.top, lo, lo + n)
    ensures forall v: nat :: lo <= v < lo + n ==> Reach(g, words, t'.addr, g.top, v) == None
  {
    hide Rep, Distinct, Foot, Reach, Encode, WellFormed;
    forall v: nat | lo <= v < lo + n
      ensures Reach(g, words, t'.addr, g.top, v) == None
    {
      assert Look(g, t', g.top, v) == Cut(Look(g, t, g.top, v), v, lo, lo + n);
      ReachIs(g, words, mem, t', g.top, v);
      if Look(g, t, g.top, v).Some? {
        LookExtent(g, t, g.top, v);
      }
    }
  }

  datatype Status = Ok | OutOfRange | InvalidArgs | Generic | NotFound

  /** arch_aspace_t, with the memory its tables live in.  `base` and `size` bound the addresses callers
      may use, in bytes; `window` is the first page the root table covers. */
  class Aspace {
    const g: Geometry
    const base: nat
    const size: nat
    const window: nat
    const root: nat
    var words: map<nat, seq<bv64>>
    var free: seq<nat>
    ghost var mem: Mem
    ghost var tree: Tree

    /** The tables in use are exactly those reachable from the root. */
    ghost predicate Valid()
      reads this
    {
      && Pool() && Owns(tree, g.top) && FourK(g)
      && tree.addr == root && |tree.slots| == g.topEntries && mem.Keys == Foot(tree)
      && window * g.pageSize <= base && base + size <= (window + Pages()) * g.pageSize
    }

    ghost function Xlate(v: nat): Option<Xlat>
      requires g.Valid() && WellFormed(g, tree, g.top)
      reads `tree
    {
      Look(g, tree, g.top, v)
    }

    function Pages(): nat
      requires g.Valid()
      reads {}
    {
      Times(g.topEntries, g.Span(g.top))
    }

    /** is_valid_vaddr */
    predicate Inside(vaddr: nat) {
      base <= vaddr < base + size
    }

    predicate Unaligned(addr: nat)
      requires g.Valid()
    {
      addr % g.pageSize != 0
    }

    /** The page of vaddr, relative to the root table. */
    function Rel(vaddr: nat): int
      requires g.Valid()
    {
      vaddr / g.pageSize - window
    }

    /** arch_mmu_init_aspace: one zeroed root table. */
    constructor (g: Geometry, base: nat, size: nat, window: nat, root: nat, frames: seq<nat>)
      requires g.Valid() && FourK(g) && NoDup(frames) && root !in frames
      requires root < FRAMES && forall a :: a in frames ==> a < FRAMES
      requires window * g.pageSize <= base && base + size <= (window + Times(g.topEntries, g.Span(g.top))) * g.pageSize
      ensures Valid() && this.g == g && this.base == base && this.size == size && this.window == window
      ensures free == frames && mem.Keys == {root}
      ensures forall v: nat :: Xlate(v) == None
    {
      this.g, this.base, this.size, this.window, this.root := g, base, size, window, root;
      mem, words := map[root := seq(g.topEntries, _ => Invalid)], map[root := seq(g.topEntries, _ => 0)];
      free := frames;
      tree := Tree(root, seq(g.topEntries, _ => Empty));
    }

    /** arch_mmu_map */
    method Map(vaddr: nat, paddr: nat, count: nat, flags: bv64) returns (st: Status)
      requires Valid()
      modifies this
      ensures Valid() && Frames() == old(Frames())
      ensures st == OutOfRange <==> !Inside(vaddr)
      ensures Inside(vaddr) ==> Rel(vaddr) >= 0
      ensures st == InvalidArgs <==>
                && Inside(vaddr)
                && (Unaligned(vaddr) || Unaligned(paddr) || (count > 0 && Rel(vaddr) + count > Pages()))
      ensures st == Generic <==>
                && Inside(vaddr) && !Unaligned(vaddr) && !Unaligned(paddr) && 0 < count <= Pages() - Rel(vaddr)
                && !Enough(Demand(g, old(tree).slots, g.top, Rel(vaddr), count, paddr / g.pageSize), |old(free)|)
      ensures st == Ok && count > 0 ==>
                var d := Demand(g, old(tree).slots, g.top, Rel(vaddr), count, paddr / g.pageSize);
                d.Some? && |free| == |old(free)| - d.value
      ensures st != NotFound
      ensures st == OutOfRange || st == InvalidArgs || count == 0 ==>
                words == old(words) && free == old(free) && tree == old(tree)
      ensures Inside(vaddr) && count > 0 ==>
                Step(g, old(tree), MapCall(Rel(vaddr), count, paddr / g.pageSize, FlagsToAttr(flags), st == Ok), tree)
      ensures st == Ok && count > 0 ==>
                (SeesRange(g, tree, Rel(vaddr), count, paddr / g.pageSize, flags) <==>
                 paddr / g.pageSize + count <= FRAMES && flags & CACHE_MASK != 3)
      ensures st == Ok && count > 0 ==>
                StoresRange(g, words, root, Rel(vaddr), count, paddr / g.pageSize, flags)
    {
      hide Rep, Distinct, WellFormed, Foot, Look, Maps, Demand, SeesRange, FlagsToAttr, StoresRange, Encoded;
      if !Inside(vaddr) {
        return OutOfRange;
      }
      RelNat(vaddr);
      if Unaligned(vaddr) || Unaligned(paddr) {
        return InvalidArgs;
      }
      if count == 0 {
        return Ok;
      }
      var rel: nat := Rel(vaddr);
      if count > Pages() || rel > Pages() - count {
        return InvalidArgs;
      }
      var ok := MapRoot(rel, paddr / g.pageSize, count, FlagsToAttr(flags));
      if ok {
        RangeSeen(g, old(tree), tree, rel, count, paddr / g.pageSize, flags);
        RangeStored(g, words, mem, old(tree), tree, rel, count, paddr / g.pageSize, flags);
      }
      st := if ok then Ok else Generic;
    }

    /** The call on the root table. */
    method MapRoot(rel: nat, pa: nat, count: nat, attrs: Attr) returns (ok: bool)
      requires Valid() && 0 < count && rel + count <= Pages()
      modifies this
      ensures Valid() && Frames() == old(Frames())
      ensures ok <==> Enough(Demand(g, old(tree).slots, g.top, rel, count, pa), |old(free)|)
      ensures ok ==> |free| == |old(free)| - Demand(g, old(tree).slots, g.top, rel, count, pa).value
      ensures Step(g, old(tree), MapCall(rel, count, pa, attrs, ok), tree)
    {
      hide Rep, Distinct, WellFormed, Foot, Look, PathFull, Unmaps, Maps, SameLook, Demand, DemandSlot;
      ghost var t';
      ok, t' := MapPt(root, g.top, rel, pa, count, attrs, tree);
      RepFoot(mem, t', g.top);
      RootMoved(old(mem), tree, mem, t');
      tree := t';
    }

    /** An address callers may use is a page of the root table. */
    lemma RelBound(vaddr: nat)
      requires Valid() && Inside(vaddr)
      ensures 0 <= Rel(vaddr) < Pages()
    {
      RelNat(vaddr);
      Arith.SpanBound(window + Pages(), vaddr, g.pageSize);
    }

    lemma RelNat(vaddr: nat)
      requires g.Valid() && window * g.pageSize <= vaddr
      ensures Rel(vaddr) >= 0
    {
      var p := g.pageSize;
      var q := vaddr / p;
      assert vaddr == q * p + vaddr % p;
      if q < window {
        Arith.MulStep(q, window, p);
      }
    }

    /** arch_mmu_unmap */
    method Unmap(vaddr: nat, count: nat) returns (st: Status)
      requires Valid()
      modifies this
      ensures Valid() && Frames() == old(Frames())
      ensures st == OutOfRange <==> !Inside(vaddr)
      ensures st == InvalidArgs <==> Inside(vaddr) && (Unaligned(vaddr) || Rel(vaddr) + count > Pages())
      ensures st == Ok || st == OutOfRange || st == InvalidArgs
      ensures st != Ok ==> words == old(words) && free == old(free) && tree == old(tree)
      ensures Inside(vaddr) ==> Rel(vaddr) >= 0
      ensures st == Ok ==> Step(g, old(tree), UnmapCall(Rel(vaddr), count), tree)
      ensures st == Ok ==> forall v: nat :: Rel(vaddr) <= v < Rel(vaddr) + count ==> PathFull(g, tree, g.top, v)
      ensures st == Ok ==> forall v: nat :: Rel(vaddr) <= v < Rel(vaddr) + count ==>
                             Reach(g, words, root, g.top, v) == None
    {
      hide Rep, Distinct, WellFormed, Foot, Look, PathFull, Unmaps, Maps, SameLook, Demand, Reach, Encoded;
      if !Inside(vaddr) {
        return OutOfRange;
      }
      RelNat(vaddr);
      if Unaligned(vaddr) {
        return InvalidArgs;
      }
      var rel: nat := Rel(vaddr);
      if count > Pages() || rel > Pages() - count {
        return InvalidArgs;
      }
      UnmapRoot(rel, count);
      RangeCleared(g, words, mem, old(tree), tree, rel, count);
      st := Ok;
    }

    /** The call on the root table. */
    method UnmapRoot(rel: nat, count: nat)
      requires Valid() && rel + count <= Pages()
      modifies this
      ensures Valid() && Frames() == old(Frames()) && Step(g, old(tree), UnmapCall(rel, count), tree)
      ensures forall v: nat :: rel <= v < rel + count ==> PathFull(g, tree, g.top, v)
    {
      hide Rep, Distinct, WellFormed, Foot, Look, PathFull, Unmaps, Maps, SameLook, Demand, DemandSlot;
      ghost var t' := UnmapPt(root, g.top, rel, count, tree);
      RepFoot(mem, t', g.top);
      RootMoved(old(mem), tree, mem, t');
      tree := t';
    }

    /** arch_mmu_query: the physical address behind vaddr and its flags; no flags where decoding them panics. */
    method Query(vaddr: nat) returns (st: Status, paddr: nat, flags: Option<bv64>)
      requires Valid()
      ensures st == OutOfRange <==> !Inside(vaddr)
      ensures Inside(vaddr) ==> Rel(vaddr) >= 0
      ensures Inside(vaddr) ==> (st == Ok <==> Xlate(Rel(vaddr)).Some?) && (st == NotFound <==> Xlate(Rel(vaddr)).None?)
      ensures st == Ok ==> Xlate(Rel(vaddr)).value.off <= Xlate(Rel(vaddr)).value.pa
      ensures st == Ok ==> var y := Seen(Xlate(Rel(vaddr)).value);
                           paddr == y.0 * g.pageSize + vaddr % g.pageSize && flags == y.1
    {
      if !Inside(vaddr) {
        return OutOfRange, 0, None;
      }
      RelBound(vaddr);
      var w, rem := Walk(root, g.top, Rel(vaddr), tree);
      if w.None? {
        return NotFound, 0, None;
      }
      WordSeen(w.value, rem, Xlate(Rel(vaddr)).value);
      return Ok, (FrameOf(w.value) + rem) * g.pageSize + vaddr % g.pageSize, QueryFlags(w.value);
    }

    /** Frames in use for tables and frames on the free list never overlap. */
    ghost predicate Pool()
      reads `mem, `words, `free
    {
      && g.Valid() && NoDup(free) && (forall a :: a in free ==> a !in mem)
      && Encoded(words, mem) && Addressable(Frames())
    }

    ghost function Frames(): set<nat>
      reads `mem, `free
    {
      mem.Keys + AsSet(free)
    }

    ghost predicate Owns(t: Tree, lvl: nat)
      reads `mem
    {
      Holds(g, mem, t, lvl)
    }

    /** The word at index, and what its type bits and its address bits say. */
    method Fetch(a: nat, index: nat) returns (w: bv64)
      requires Pool() && a in mem && index < |mem[a]|
      ensures a in words && index < |words[a]| && w == words[a][index]
      ensures w == 0 <==> mem[a][index].Invalid?
      ensures w & TYPE_MASK == 0 <==> mem[a][index].Invalid?
      ensures w & TYPE_MASK == BLOCK <==> mem[a][index].Block?
      ensures w & TYPE_MASK == TABLE_OR_PAGE <==> mem[a][index].TableOrPage?
      ensures var e := mem[a][index]; e.TableOrPage? && e.attrs == 0 && e.pa in mem ==> FrameOf(w) == e.pa
    {
      EncodeType(mem[a][index]);
      w := words[a][index];
    }

    /** The walk of arch_mmu_query: the word it ends at, and the pages left to go from there. */
    method Walk(root: nat, lvl: nat, v: nat, ghost t: Tree) returns (w: Option<bv64>, rem: nat)
      requires Pool() && Owns(t, lvl) && root == t.addr && v < Times(|t.slots|, g.Span(lvl))
      ensures w.Some? <==> Look(g, t, lvl, v).Some?
      ensures w.Some? ==> IsWord(w.value, rem, Look(g, t, lvl, v).value)
    {
      hide Rep, Distinct, WellFormed, Foot, Encode, FrameOf;
      var table: nat, shift: nat := root, lvl;
      rem := v;
      ghost var u := t;
      SpanBound(|u.slots|, v, g.Span(lvl));
      while true
        invariant Owns(u, shift) && table == u.addr && Div(rem, g.Span(shift)) < |u.slots|
        invariant Look(g, u, shift, rem) == Look(g, t, lvl, v)
        decreases shift
      {
        var s := g.Span(shift);
        var index := Div(rem, s);
        rem := Mod(rem, s);
        SlotHeld(g, mem, u, shift, index);
        var pte := Fetch(table, index);
        if pte & TYPE_MASK == 0 {
          return None, 0;
        }
        if pte & TYPE_MASK == (if shift > 0 then BLOCK else TABLE_OR_PAGE) {
          return Some(pte), rem;
        }
        u := u.slots[index].t;
        table := FrameOf(pte);
        shift := shift - 1;
        SpanBound(g.fanout, rem, g.Span(shift));
      }
    }

    /** page_table_is_clear */
    method IsClear(a: nat) returns (clear: bool)
      requires Pool() && a in mem
      ensures clear <==> forall i :: 0 <= i < |mem[a]| ==> mem[a][i] == Invalid
    {
      for i := 0 to |words[a]|
        invariant forall j :: 0 <= j < i ==> mem[a][j] == Invalid
      {
        var pte := Fetch(a, i);
        if pte != 0 {
          return false;
        }
      }
      return true;
    }

    /** alloc_page_table followed by the memset to invalid descriptors. */
    method AllocTable() returns (a: Option<nat>)
      requires Pool()
      modifies `mem, `words, `free
      ensures Pool() && Frames() == old(Frames())
      ensures a.None? <==> old(free) == []
      ensures a.None? ==> mem == old(mem) && free == old(free)
      ensures a.Some? ==> a.value == old(free)[0] && free == old(free)[1..] && a.value !in old(mem) && a.value < FRAMES
      ensures a.Some? ==> mem == old(mem)[a.value := seq(g.fanout, _ => Invalid)]
    {
      hide Encoded;
      if free == [] {
        return None;
      }
      var p := free[0];
      free := free[1..];
      EncodedNew(words, mem, p, g.fanout);
      mem, words := mem[p := seq(g.fanout, _ => Invalid)], words[p := seq(g.fanout, _ => 0)];
      assert old(free) == [p] + free;
      return Some(p);
    }

    /** free_page_table: only ever called on a table whose descriptors are all invalid. */
    method FreeTable(a: nat)
      requires Pool() && a in mem
      requires forall i :: 0 <= i < |mem[a]| ==> mem[a][i] == Invalid
      modifies `mem, `words, `free
      ensures Pool() && Frames() == old(Frames())
      ensures mem == old(mem) - {a} && free == [a] + old(free)
    {
      mem, words := mem - {a}, words - {a};
      free := [a] + free;
    }

    /** page_table[index] = pte; e is what was put into the word. */
    method WriteEntry(a: nat, index: nat, pte: bv64, ghost e: Pte)
      requires Pool() && a in mem && index < |mem[a]| && pte == Encode(e)
      modifies `mem, `words
      ensures mem == old(mem)[a := old(mem)[a][index := e]]
      ensures Pool() && Frames() == old(Frames())
    {
      EncodedPut(words, mem, a, index, pte, e);
      mem, words := mem[a := mem[a][index := e]], words[a := words[a][index := pte]];
      assert mem.Keys == old(mem).Keys;
    }

    /** arm64_mmu_unmap_pt: unmap the n pages from lo in the table at frame a. */
    method UnmapPt(a: nat, lvl: nat, lo: nat, n: nat, ghost t: Tree) returns (ghost t': Tree)
      requires Pool() && Owns(t, lvl) && a == t.addr && lo + n <= Times(|t.slots|, g.Span(lvl))
      modifies `mem, `words, `free
      ensures Pool() && Frames() == old(Frames())
      ensures UnmapStep(g, old(mem), t, mem, t', lvl, lo, lo + n)
      decreases lvl, 3
    {
      hide Rep, Distinct, WellFormed, Foot, Look, PathFull, Unmaps, Maps, SameLook, Demand, DemandSlot;
      var rel: nat, size: nat := lo, n;
      t' := t;
      UnmapNone(g, mem, t, lvl, lo);
      while size > 0
        invariant rel + size == lo + n && AtEdge(lo, rel, size, g.Span(lvl))
        invariant Pool() && Frames() == old(Frames())
        invariant UnmapStep(g, old(mem), t, mem, t', lvl, lo, rel)
        decreases size
      {
        var chunk;
        chunk, t' := UnmapTurn(a, lvl, rel, size, old(mem), t, lo, t');
        rel := rel + chunk;
        size := size - chunk;
      }
      assert rel == lo + n;
    }

    /** One turn of its loop: up to the end of the slot that rel is in. */
    method UnmapTurn(a: nat, lvl: nat, rel: nat, size: nat, ghost m0: Mem, ghost t0: Tree, ghost lo: nat, ghost t: Tree)
      returns (chunk: nat, ghost t': Tree)
      requires Pool() && a == t0.addr && 0 < size && rel + size <= Times(|t0.slots|, g.Span(lvl))
      requires UnmapStep(g, m0, t0, mem, t, lvl, lo, rel) && lo <= rel && AtEdge(lo, rel, size, g.Span(lvl))
      modifies `mem, `words, `free
      ensures Pool() && Frames() == old(Frames())
      ensures 0 < chunk <= size && AtEdge(lo, rel + chunk, size - chunk, g.Span(lvl))
      ensures UnmapStep(g, m0, t0, mem, t', lvl, lo, rel + chunk)
      decreases lvl, 2
    {
      hide Rep, Distinct, WellFormed, Foot, Look, PathFull, Unmaps, Maps, SameLook, Demand, DemandSlot;
      chunk := Chunk(g, lvl, rel, size);
      SpanBound(|t.slots|, rel, g.Span(lvl));
      t' := UnmapChunk(a, lvl, rel, chunk, t);
      UnmapStepJoin(g, m0, t0, old(mem), t, mem, t', lvl, lo, rel, rel + chunk);
    }

    /** One slot. */
    method UnmapChunk(a: nat, lvl: nat, lo: nat, n: nat, ghost t: Tree) returns (ghost t': Tree)
      requires Pool() && Owns(t, lvl) && a == t.addr
      requires var s := g.Span(lvl); 0 < n && Mod(lo, s) + n <= s && Div(lo, s) < |t.slots|
      modifies `mem, `words, `free
      ensures Pool() && Frames() == old(Frames())
      ensures UnmapStep(g, old(mem), t, mem, t', lvl, lo, lo + n) && OnlySlot(t, t', Div(lo, g.Span(lvl)))
      decreases lvl, 1
    {
      var s := g.Span(lvl);
      var index := Div(lo, s);
      assert SlotRep(mem, mem[a][index], t.slots[index], lvl);
      var pte := Fetch(a, index);
      if lvl > 0 && pte & TYPE_MASK == TABLE_OR_PAGE {
        t' := UnmapTable(a, lvl, lo, n, t);
      } else {
        if pte != 0 {
          WriteEntry(a, index, 0, Invalid);
        } else {
          assert mem[a][index := Invalid] == mem[a] && mem[a := mem[a]] == mem;
        }
        t' := Put(t, index, Empty);
        LeafCleared(g, old(mem), mem, t, lvl, lo, n);
      }
    }

    /** Its branch for a descriptor that points to a next-level table. */
    method UnmapTable(a: nat, lvl: nat, lo: nat, n: nat, ghost t: Tree) returns (ghost t': Tree)
      requires Pool() && Owns(t, lvl) && a == t.addr && lvl > 0
      requires var s := g.Span(lvl); 0 < n && Mod(lo, s) + n <= s && Div(lo, s) < |t.slots| && t.slots[Div(lo, s)].Sub?
      modifies `mem, `words, `free
      ensures Pool() && Frames() == old(Frames())
      ensures UnmapStep(g, old(mem), t, mem, t', lvl, lo, lo + n) && OnlySlot(t, t', Div(lo, g.Span(lvl)))
      decreases lvl, 0
    {
      var s := g.Span(lvl);
      var rem, index := Mod(lo, s), Div(lo, s);
      SubHeld(g, mem, t, lvl, index);
      var pte := Fetch(a, index);
      var next := FrameOf(pte);
      ghost var c' := UnmapPt(next, lvl - 1, rem, n, t.slots[index].t);
      t' := Prune(a, index, next, n == s, old(mem), t, lvl, lo, n, c');
    }

    /** After the recursive call: a sub-table left with no descriptor is unlinked and freed. */
    method Prune(a: nat, index: nat, next: nat, whole: bool, ghost m: Mem, ghost t: Tree, ghost lvl: nat, ghost lo: nat,
                 ghost n: nat, ghost c': Tree)
      returns (ghost t': Tree)
      requires Pool() && SubStep(g, m, mem, t, lvl, lo, n, c') && a == t.addr && index == Div(lo, g.Span(lvl))
      requires next == t.slots[index].t.addr && whole == (n == g.Span(lvl))
      modifies `mem, `words, `free
      ensures Pool() && Frames() == old(Frames())
      ensures UnmapStep(g, m, t, mem, t', lvl, lo, lo + n) && OnlySlot(t, t', index)
    {
      hide Rep, Distinct, WellFormed, Foot, Look, Unmaps, PathFull, Encoded, Addressable, NoDup;
      ghost var m1 := mem;
      SubUnmapped(g, m, mem, t, lvl, lo, n, c');
      var clear := whole;
      if !clear {
        clear := IsClear(next);
      }
      if clear {
        WriteEntry(a, index, 0, Invalid);
        FreeTable(next);
        t' := Put(t, index, Empty);
        SubFreed(g, m, m1, mem, t, lvl, lo, n, c');
      } else {
        t' := Put(t, index, Sub(c'));
        SubKept(g, m, mem, t, lvl, lo, n, c');
      }
    }

    /** arm64_mmu_get_page_table: the table behind slot i, made if there is none. */
    method GetTable(a: nat, lvl: nat, i: nat, ghost t: Tree) returns (next: Option<nat>, ghost t': Tree)
      requires Pool() && Owns(t, lvl) && a == t.addr && lvl > 0 && i < |t.slots|
      modifies `mem, `words, `free
      ensures Pool() && Frames() == old(Frames())
      ensures KeepStep(g, old(mem), t, mem, t', lvl) && OnlySlot(t, t', i)
      ensures next.None? <==> t.slots[i].Leaf? || (t.slots[i].Empty? && old(free) == [])
      ensures next.None? ==> t' == t && free == old(free)
      ensures next.Some? ==> t'.slots[i].Sub? && t'.slots[i].t.addr == next.value
      ensures next.Some? && t.slots[i].Empty? ==> t'.slots[i].t.slots == NoSlots(g) && |free| == |old(free)| - 1
      ensures next.Some? && t.slots[i].Sub? ==> t' == t && free == old(free)
    {
      hide Rep, Distinct, WellFormed, Foot, Look, FrameOf, AddressOf, Pack, Moved, Encoded, Addressable, NoDup;
      t' := t;
      SlotHeld(g, mem, t, lvl, i);
      var pte := Fetch(a, i);
      if pte & TYPE_MASK == 0 {
        next := AllocTable();
        if next.Some? {
          WriteEntry(a, i, Pack(AddressOf(next.value), 0, TABLE_OR_PAGE), TableOrPage(next.value, 0));
          ghost var c := Tree(next.value, NoSlots(g));
          t' := Put(t, i, Sub(c));
          SubAdded(g, old(mem), mem, t, lvl, i, c);
          GrowSub(g, t, lvl, i, c);
        } else {
          SameState(g, mem, t, lvl);
        }
      } else if pte & TYPE_MASK == TABLE_OR_PAGE {
        SameState(g, mem, t, lvl);
        next := Some(FrameOf(pte));
      } else {
        SameState(g, mem, t, lvl);
        next := None;
      }
    }

    /** arm64_mmu_map_pt: map the n pages from lo to the frames from pa in the table at frame a. */
    method MapPt(a: nat, lvl: nat, lo: nat, pa: nat, n: nat, attrs: Attr, ghost t: Tree)
      returns (ok: bool, ghost t': Tree)
      requires Pool() && Owns(t, lvl) && a == t.addr && lo + n <= Times(|t.slots|, g.Span(lvl))
      modifies `mem, `words, `free
      ensures Pool() && Frames() == old(Frames())
      ensures Served(ok, g, old(mem), t, |old(free)|, mem, t', |free|, lvl, lo, n, pa, attrs,
                     Demand(g, t.slots, lvl, lo, n, pa))
      decreases lvl, 5
    {
      hide Rep, Distinct, WellFormed, Foot, Look, PathFull, Unmaps, Maps, SameLook, Demand, DemandSlot;
      var rel: nat, frame: nat, size: nat := lo, pa, n;
      t' := t;
      ProgressStart(g, mem, t, |free|, lvl, lo, n, pa, attrs);
      // written as an equation, the invariant is proved whole rather than clause by clause
      while size > 0
        invariant Pool() && Frames() == old(Frames())
        invariant Progress(g, old(mem), t, |old(free)|, mem, t', |free|, lvl, lo, n, pa, attrs, rel, size, frame)
        decreases size
      {
        var chunk;
        ok, chunk, t' := MapTurn(a, lvl, rel, frame, size, attrs, old(mem), t, |old(free)|, lo, n, pa, t');
        if !ok {
          t' := RollBack(a, lvl, lo, rel - lo, pa, attrs, old(mem), t, t');
          return;
        }
        rel, frame, size := rel + chunk, frame + chunk, size - chunk;
      }
      ok := true;
      ProgressDone(g, old(mem), t, |old(free)|, mem, t', |free|, lvl, lo, n, pa, attrs, rel, frame);
    }

    /** One turn of its loop. */
    method MapTurn(a: nat, lvl: nat, rel: nat, frame: nat, size: nat, attrs: Attr,
                   ghost m0: Mem, ghost t0: Tree, ghost f0: nat, ghost lo: nat, ghost n: nat, ghost pa: nat,
                   ghost t: Tree)
      returns (ok: bool, chunk: nat, ghost t': Tree)
      requires Pool() && a == t0.addr && 0 < size && rel + size <= Times(|t0.slots|, g.Span(lvl))
      requires Progress(g, m0, t0, f0, mem, t, |free|, lvl, lo, n, pa, attrs, rel, size, frame)
      modifies `mem, `words, `free
      ensures Pool() && Frames() == old(Frames()) && 0 < chunk <= size
      ensures ok ==>
                Progress(g, m0, t0, f0, mem, t', |free|, lvl, lo, n, pa, attrs, rel + chunk, size - chunk,
                         frame + chunk)
      ensures !ok ==> MapStep(g, m0, t0, mem, t', lvl, lo, rel, pa, attrs)
                      && !Enough(Demand(g, t0.slots, lvl, lo, n, pa), f0)
      decreases lvl, 2
    {
      hide Rep, Distinct, WellFormed, Foot, Look, PathFull, Unmaps, Maps, SameLook, Demand, DemandSlot;
      chunk := Chunk(g, lvl, rel, size);
      SpanBound(|t.slots|, rel, g.Span(lvl));
      ok, t' := MapChunk(a, lvl, rel, frame, chunk, attrs, t);
      if ok {
        ProgressOn(g, m0, t0, f0, old(mem), t, |old(free)|, mem, t', |free|, lvl, lo, n, pa, attrs, rel, size, frame,
                   chunk);
      } else {
        ProgressFails(g, m0, t0, f0, old(mem), t, |old(free)|, mem, t', |free|, lvl, lo, n, pa, attrs, rel, size,
                      frame, chunk);
      }
    }

    /** The error exit of arm64_mmu_map_pt: unmap the n pages mapped so far. */
    method RollBack(a: nat, lvl: nat, lo: nat, n: nat, ghost pa: nat, ghost attrs: Attr, ghost m0: Mem, ghost t0: Tree,
                    ghost t: Tree)
      returns (ghost t': Tree)
      requires Pool() && a == t.addr && MapStep(g, m0, t0, mem, t, lvl, lo, lo + n, pa, attrs)
      requires lo + n <= Times(|t.slots|, g.Span(lvl))
      modifies `mem, `words, `free
      ensures Pool() && Frames() == old(Frames()) && KeepStep(g, m0, t0, mem, t', lvl)
      decreases lvl, 4
    {
      hide Rep, Distinct, WellFormed, Foot, Look, PathFull, Unmaps, Maps, SameLook, Demand, DemandSlot;
      t' := UnmapPt(a, lvl, lo, n, t);
      RolledBack(g, m0, t0, old(mem), t, mem, t', lvl, lo, lo + n, pa, attrs);
    }

    /** One slot: a single descriptor, or the table below it. */
    method MapChunk(a: nat, lvl: nat, lo: nat, pa: nat, n: nat, attrs: Attr, ghost t: Tree)
      returns (ok: bool, ghost t': Tree)
      requires Pool() && Owns(t, lvl) && a == t.addr
      requires var s := g.Span(lvl); 0 < n && Mod(lo, s) + n <= s && Div(lo, s) < |t.slots|
      modifies `mem, `words, `free
      ensures Pool() && Frames() == old(Frames()) && OnlySlot(t, t', Div(lo, g.Span(lvl)))
      ensures Served(ok, g, old(mem), t, |old(free)|, mem, t', |free|, lvl, lo, n, pa, attrs,
                     DemandSlot(g, t.slots, lvl, lo, n, pa))
      decreases lvl, 1
    {
      hide Rep, Distinct, WellFormed, Foot, Look, Maps, AddressOf, Pack, Demand;
      var s := g.Span(lvl);
      var index := Div(lo, s);
      if Mod(lo, s) != 0 || Mod(pa, s) != 0 || n != s || lvl > g.maxBlock {
        ok, t' := MapTable(a, lvl, lo, pa, n, attrs, t);
      } else {
        ok, t' := MapLeafAt(a, lvl, lo, pa, attrs, t);
      }
    }

    /** Its branch for a block or a page. */
    method MapLeafAt(a: nat, lvl: nat, lo: nat, pa: nat, attrs: Attr, ghost t: Tree) returns (ok: bool, ghost t': Tree)
      requires Pool() && Owns(t, lvl) && a == t.addr
      requires Direct(g, lvl, lo, g.Span(lvl), pa) && Div(lo, g.Span(lvl)) < |t.slots|
      modifies `mem, `words, `free
      ensures Pool() && Frames() == old(Frames()) && OnlySlot(t, t', Div(lo, g.Span(lvl)))
      ensures Served(ok, g, old(mem), t, |old(free)|, mem, t', |free|, lvl, lo, g.Span(lvl), pa, attrs,
                     DemandSlot(g, t.slots, lvl, lo, g.Span(lvl), pa))
    {
      hide Rep, Distinct, WellFormed, Foot, Look, Maps, AddressOf, Pack, Demand, Moved, Encoded, Addressable, NoDup;
      var index := Div(lo, g.Span(lvl));
      SlotHeld(g, mem, t, lvl, index);
      var pte := Fetch(a, index);
      if pte != 0 {
        SameState(g, mem, t, lvl);
        return false, t;
      }
      ghost var e := if lvl > 0 then Block(pa, attrs) else TableOrPage(pa, attrs);
      pte := Pack(AddressOf(pa), attrs, if lvl > 0 then BLOCK else TABLE_OR_PAGE);
      WriteEntry(a, index, pte, e);
      ok, t' := true, Put(t, index, Leaf(pa, attrs));
      LeafSet(g, old(mem), mem, t, lvl, index, Leaf(pa, attrs), e);
      MapLeaf(g, t, lvl, lo, pa, attrs);
    }

    /** Its branch for pages that need a next-level table. */
    method MapTable(a: nat, lvl: nat, lo: nat, pa: nat, n: nat, attrs: Attr, ghost t: Tree)
      returns (ok: bool, ghost t': Tree)
      requires Pool() && Owns(t, lvl) && a == t.addr
      requires var s := g.Span(lvl); 0 < n && Mod(lo, s) + n <= s && Div(lo, s) < |t.slots|
      requires !Direct(g, lvl, lo, n, pa)
      modifies `mem, `words, `free
      ensures Pool() && Frames() == old(Frames()) && OnlySlot(t, t', Div(lo, g.Span(lvl)))
      ensures Served(ok, g, old(mem), t, |old(free)|, mem, t', |free|, lvl, lo, n, pa, attrs,
                     DemandSlot(g, t.slots, lvl, lo, n, pa))
      decreases lvl, 0
    {
      hide Rep, Distinct, WellFormed, Foot, Look, Maps, SameLook, Demand;
      var s := g.Span(lvl);
      var rem, index := Mod(lo, s), Div(lo, s);
      ghost var t1;
      var next;
      next, t1 := GetTable(a, lvl, index, t);
      if next.None? {
        return false, t1;
      }
      ghost var m, f := mem, |free|;
      SubHeld(g, mem, t1, lvl, index);
      ghost var c';
      ok, c' := MapPt(next.value, lvl - 1, rem, pa, n, attrs, t1.slots[index].t);
      t' := Put(t1, index, Sub(c'));
      TableServed(ok, g, old(mem), t, |old(free)|, m, t1, f, mem, c', |free|, lvl, lo, n, pa, attrs);
    }
  }

  // ---------- mapping, a slot at a time ----------

  ghost predicate Enough(demand: Option<nat>, frames: nat)
  {
    demand.Some? && demand.value <= frames
  }

  /** All that a successful mapping of [lo, hi) promises. */
  ghost predicate MapStep(g: Geometry, m: Mem, t: Tree, m': Mem, t': Tree, lvl: nat, lo: nat, hi: nat, pa: nat,
                          attrs: Attr)
  {
    && Holds(g, m, t, lvl) && Holds(g, m', t', lvl) && Moved(m, t, m', t')
    && Maps(g, t, t', lvl, lo, hi, pa, attrs)
  }

  /** All that a failed one promises: tables may come and go, translations do not. */
  ghost predicate KeepStep(g: Geometry, m: Mem, t: Tree, m': Mem, t': Tree, lvl: nat)
  {
    Holds(g, m, t, lvl) && Holds(g, m', t', lvl) && Moved(m, t, m', t') && SameLook(g, t, t', lvl)
  }

  lemma SameState(g: Geometry, m: Mem, t: Tree, lvl: nat)
    requires Holds(g, m, t, lvl)
    ensures KeepStep(g, m, t, m, t, lvl)
  {
  }

  /** What a mapping of the n pages from lo comes to, with f frames free before and f' after: it goes
      through exactly when the demand for tables can be met, and then takes just that many. */
  ghost predicate Served(ok: bool, g: Geometry, m: Mem, t: Tree, f: nat, m': Mem, t': Tree, f': nat,
                         lvl: nat, lo: nat, n: nat, pa: nat, attrs: Attr, demand: Option<nat>)
  {
    && (ok <==> Enough(demand, f))
    && (if ok then MapStep(g, m, t, m', t', lvl, lo, lo + n, pa, attrs) && f' == f - demand.value
        else KeepStep(g, m, t, m', t', lvl))
  }

  /** The state of the loop with [lo, rel) mapped; left pages remain, the next at frame q. */
  ghost predicate Progress(g: Geometry, m0: Mem, t0: Tree, f0: nat, m: Mem, t: Tree, f: nat,
                           lvl: nat, lo: nat, n: nat, pa: nat, attrs: Attr, rel: nat, left: nat, q: nat)
  {
    && lo <= rel && rel + left == lo + n && q == pa + (rel - lo) && f <= f0
    && MapStep(g, m0, t0, m, t, lvl, lo, rel, pa, attrs)
    && Demands(g, t0, f0, t, f, lvl, lo, n, pa, rel, left, q)
  }

  /** The frames used so far and those still needed make up the demand. */
  ghost predicate Demands(g: Geometry, t0: Tree, f0: nat, t: Tree, f: nat, lvl: nat, lo: nat, n: nat, pa: nat,
                          rel: nat, left: nat, q: nat)
    requires g.Valid() && f <= f0
  {
    Demand(g, t0.slots, lvl, lo, n, pa) == Plus(Some(f0 - f), Demand(g, t.slots, lvl, rel, left, q))
  }

  lemma DemandsOn(g: Geometry, t0: Tree, f0: nat, t: Tree, f: nat, t': Tree, f': nat, lvl: nat, lo: nat, n: nat,
                  pa: nat, rel: nat, left: nat, q: nat, c: nat)
    requires g.Valid() && f <= f0 && Demands(g, t0, f0, t, f, lvl, lo, n, pa, rel, left, q) && 0 < left
    requires OnlySlot(t, t', Div(rel, g.Span(lvl))) && c == Chunk(g, lvl, rel, left)
    requires var d := DemandSlot(g, t.slots, lvl, rel, c, q); d.Some? && d.value <= f && f' == f - d.value
    ensures f' <= f0 && Demands(g, t0, f0, t', f', lvl, lo, n, pa, rel + c, left - c, q + c)
  {
    DemandNext(g, t, t', lvl, rel, left, q);
  }

  lemma DemandsMore(g: Geometry, t0: Tree, f0: nat, t: Tree, f: nat, t': Tree, lvl: nat, lo: nat, n: nat,
                    pa: nat, rel: nat, left: nat, q: nat, c: nat)
    requires g.Valid() && f <= f0 && Demands(g, t0, f0, t, f, lvl, lo, n, pa, rel, left, q) && 0 < left
    requires OnlySlot(t, t', Div(rel, g.Span(lvl))) && c == Chunk(g, lvl, rel, left)
    requires !Enough(DemandSlot(g, t.slots, lvl, rel, c, q), f)
    ensures !Enough(Demand(g, t0.slots, lvl, lo, n, pa), f0)
  {
    DemandNext(g, t, t', lvl, rel, left, q);
  }

  lemma ProgressStart(g: Geometry, m: Mem, t: Tree, f: nat, lvl: nat, lo: nat, n: nat, pa: nat, attrs: Attr)
    requires Holds(g, m, t, lvl)
    ensures Progress(g, m, t, f, m, t, f, lvl, lo, n, pa, attrs, lo, n, pa)
  {
  }

  lemma ProgressDone(g: Geometry, m0: Mem, t0: Tree, f0: nat, m: Mem, t: Tree, f: nat,
                     lvl: nat, lo: nat, n: nat, pa: nat, attrs: Attr, rel: nat, q: nat)
    requires Progress(g, m0, t0, f0, m, t, f, lvl, lo, n, pa, attrs, rel, 0, q)
    ensures Served(true, g, m0, t0, f0, m, t, f, lvl, lo, n, pa, attrs, Demand(g, t0.slots, lvl, lo, n, pa))
  {
  }

  /** A slot mapped. */
  lemma ProgressOn(g: Geometry, m0: Mem, t0: Tree, f0: nat, m: Mem, t: Tree, f: nat, m': Mem, t': Tree, f': nat,
                   lvl: nat, lo: nat, n: nat, pa: nat, attrs: Attr, rel: nat, left: nat, q: nat, c: nat)
    requires Progress(g, m0, t0, f0, m, t, f, lvl, lo, n, pa, attrs, rel, left, q) && 0 < left
    requires OnlySlot(t, t', Div(rel, g.Span(lvl))) && c == Chunk(g, lvl, rel, left)
    requires Served(true, g, m, t, f, m', t', f', lvl, rel, c, q, attrs, DemandSlot(g, t.slots, lvl, rel, c, q))
    ensures Progress(g, m0, t0, f0, m', t', f', lvl, lo, n, pa, attrs, rel + c, left - c, q + c)
  {
    hide Rep, Distinct, WellFormed, Moved, Maps, Demand, DemandSlot;
    DemandsOn(g, t0, f0, t, f, t', f', lvl, lo, n, pa, rel, left, q, c);
    MapStepJoin(g, m0, t0, m, t, m', t', lvl, lo, rel, rel + c, pa, attrs, q);
  }

  /** A slot that could not be mapped: what is mapped so far stays, and the frames would not have been enough. */
  lemma ProgressFails(g: Geometry, m0: Mem, t0: Tree, f0: nat, m: Mem, t: Tree, f: nat, m': Mem, t': Tree, f': nat,
                      lvl: nat, lo: nat, n: nat, pa: nat, attrs: Attr, rel: nat, left: nat, q: nat, c: nat)
    requires Progress(g, m0, t0, f0, m, t, f, lvl, lo, n, pa, attrs, rel, left, q) && 0 < left
    requires OnlySlot(t, t', Div(rel, g.Span(lvl))) && c == Chunk(g, lvl, rel, left)
    requires Served(false, g, m, t, f, m', t', f', lvl, rel, c, q, attrs, DemandSlot(g, t.slots, lvl, rel, c, q))
    ensures MapStep(g, m0, t0, m', t', lvl, lo, rel, pa, attrs)
    ensures !Enough(Demand(g, t0.slots, lvl, lo, n, pa), f0)
  {
    DemandsMore(g, t0, f0, t, f, t', lvl, lo, n, pa, rel, left, q, c);
    MapKeepJoin(g, m0, t0, m, t, m', t', lvl, lo, rel, pa, attrs);
  }

  lemma MapStepJoin(g: Geometry, m0: Mem, t0: Tree, m1: Mem, t1: Tree, m2: Mem, t2: Tree,
                    lvl: nat, lo: nat, mid: nat, hi: nat, pa: nat, attrs: Attr, q: nat)
    requires lo <= mid < hi && q == pa + (mid - lo)
    requires MapStep(g, m0, t0, m1, t1, lvl, lo, mid, pa, attrs)
    requires MapStep(g, m1, t1, m2, t2, lvl, mid, hi, q, attrs)
    ensures MapStep(g, m0, t0, m2, t2, lvl, lo, hi, pa, attrs)
  {
    MovedTrans(m0, t0, m1, t1, m2, t2);
    MapsJoin(g, t0, t1, t2, lvl, lo, mid, hi, pa, attrs, q);
  }

  lemma MapKeepJoin(g: Geometry, m0: Mem, t0: Tree, m1: Mem, t1: Tree, m2: Mem, t2: Tree,
                    lvl: nat, lo: nat, hi: nat, pa: nat, attrs: Attr)
    requires MapStep(g, m0, t0, m1, t1, lvl, lo, hi, pa, attrs) && KeepStep(g, m1, t1, m2, t2, lvl)
    ensures MapStep(g, m0, t0, m2, t2, lvl, lo, hi, pa, attrs)
  {
    MovedTrans(m0, t0, m1, t1, m2, t2);
    forall v: nat
      ensures MapsPage(Look(g, t0, lvl, v), Look(g, t2, lvl, v), v, lo, hi, pa, attrs)
    {
      assert MapsPage(Look(g, t0, lvl, v), Look(g, t1, lvl, v), v, lo, hi, pa, attrs);
      assert Look(g, t2, lvl, v) == Look(g, t1, lvl, v);
    }
  }

  /** Unmapping what was mapped so far undoes it. */
  lemma RolledBack(g: Geometry, m0: Mem, t0: Tree, m1: Mem, t1: Tree, m2: Mem, t2: Tree,
                   lvl: nat, lo: nat, hi: nat, pa: nat, attrs: Attr)
    requires lo <= hi
    requires MapStep(g, m0, t0, m1, t1, lvl, lo, hi, pa, attrs) && UnmapStep(g, m1, t1, m2, t2, lvl, lo, hi)
    ensures KeepStep(g, m0, t0, m2, t2, lvl)
  {
    MovedTrans(m0, t0, m1, t1, m2, t2);
    MapUnmap(g, t0, t1, t2, lvl, lo, hi, pa, attrs);
  }

  /** The table behind the slot of lo was there (t1 == t, f == f0) or was made from one frame; what the recursive
      call comes to is what the slot comes to. */
  lemma TableServed(ok: bool, g: Geometry, m0: Mem, t: Tree, f0: nat, m1: Mem, t1: Tree, f: nat, m2: Mem, c': Tree,
                    f': nat, lvl: nat, lo: nat, n: nat, pa: nat, attrs: Attr)
    requires KeepStep(g, m0, t, m1, t1, lvl) && lvl > 0 && OnlySlot(t, t1, Div(lo, g.Span(lvl)))
    requires var s := g.Span(lvl); 0 < n && Mod(lo, s) + n <= s && Div(lo, s) < |t.slots| && t1.slots[Div(lo, s)].Sub?
    requires !Direct(g, lvl, lo, n, pa)
    requires var i := Div(lo, g.Span(lvl));
      || (t.slots[i].Sub? && t1 == t && f == f0)
      || (t.slots[i].Empty? && t1.slots[i].t.slots == NoSlots(g) && f == f0 - 1)
    requires var c, r := t1.slots[Div(lo, g.Span(lvl))].t, Mod(lo, g.Span(lvl));
      Served(ok, g, m1, c, f, m2, c', f', lvl - 1, r, n, pa, attrs, Demand(g, c.slots, lvl - 1, r, n, pa))
    ensures Served(ok, g, m0, t, f0, m2, Put(t1, Div(lo, g.Span(lvl)), Sub(c')), f', lvl, lo, n, pa, attrs,
                   DemandSlot(g, t.slots, lvl, lo, n, pa))
  {
    hide Rep, Distinct, Foot, Look, Maps, SameLook, Moved;
    SubMapped(g, m0, m1, m2, t, t1, lvl, lo, n, pa, attrs, c', ok);
  }

  /** The recursive call on the table behind slot lo / span, seen from its parent. */
  lemma SubMapped(g: Geometry, m0: Mem, m1: Mem, m2: Mem, t: Tree, t1: Tree, lvl: nat, lo: nat, n: nat,
                  pa: nat, attrs: Attr, c': Tree, ok: bool)
    requires KeepStep(g, m0, t, m1, t1, lvl) && lvl > 0
    requires var s := g.Span(lvl); 0 < n && Mod(lo, s) + n <= s && Div(lo, s) < |t.slots| && t1.slots[Div(lo, s)].Sub?
    requires var s := g.Span(lvl); ok ==>
      MapStep(g, m1, t1.slots[Div(lo, s)].t, m2, c', lvl - 1, Mod(lo, s), Mod(lo, s) + n, pa, attrs)
    requires !ok ==> KeepStep(g, m1, t1.slots[Div(lo, g.Span(lvl))].t, m2, c', lvl - 1)
    ensures var t' := Put(t1, Div(lo, g.Span(lvl)), Sub(c'));
      && (ok ==> MapStep(g, m0, t, m2, t', lvl, lo, lo + n, pa, attrs))
      && (!ok ==> KeepStep(g, m0, t, m2, t', lvl))
  {
    hide Rep, Distinct, Foot, Look, Maps, SameLook;
    var i := Div(lo, g.Span(lvl));
    var t' := Put(t1, i, Sub(c'));
    SubHeld(g, m1, t1, lvl, i);
    SubMoved(g, m1, m2, t1, lvl, i, c');
    MovedTrans(m0, t, m1, t1, m2, t');
    MapSub(g, t1, lvl, lo, n, pa, attrs, c', ok);
    SubMappedLook(g, t, t1, t', lvl, lo, lo + n, pa, attrs, ok);
  }

  lemma SubMappedLook(g: Geometry, t: Tree, t1: Tree, t': Tree, lvl: nat, lo: nat, hi: nat, pa: nat, attrs: Attr,
                      ok: bool)
    requires g.Valid() && WellFormed(g, t, lvl) && WellFormed(g, t1, lvl) && WellFormed(g, t', lvl)
    requires SameLook(g, t, t1, lvl)
    requires if ok then Maps(g, t1, t', lvl, lo, hi, pa, attrs) else SameLook(g, t1, t', lvl)
    ensures if ok then Maps(g, t, t', lvl, lo, hi, pa, attrs) else SameLook(g, t, t', lvl)
  {
    forall v: nat
      ensures ok ==> MapsPage(Look(g, t, lvl, v), Look(g, t', lvl, v), v, lo, hi, pa, attrs)
      ensures !ok ==> Look(g, t', lvl, v) == Look(g, t, lvl, v)
    {
      assert Look(g, t1, lvl, v) == Look(g, t, lvl, v);
      if ok {
        assert MapsPage(Look(g, t1, lvl, v), Look(g, t', lvl, v), v, lo, hi, pa, attrs);
      }
    }
  }

  // ---------- unmapping, a slot at a time ----------

  /** All that an unmap of [lo, hi) promises. */
  ghost predicate UnmapStep(g: Geometry, m: Mem, t: Tree, m': Mem, t': Tree, lvl: nat, lo: nat, hi: nat)
  {
    && Holds(g, m, t, lvl) && Holds(g, m', t', lvl) && Moved(m, t, m', t')
    && Unmaps(g, t, t', lvl, lo, hi)
    && forall v: nat :: lo <= v < hi ==> PathFull(g, t', lvl, v)
  }

  /** A walk that began at lo is at the start of a slot, or at its own start or end. */
  predicate AtEdge(lo: nat, rel: nat, size: nat, s: nat)
  {
    rel == lo || size == 0 || (s > 0 && Mod(rel, s) == 0)
  }

  lemma UnmapNone(g: Geometry, m: Mem, t: Tree, lvl: nat, lo: nat)
    requires Holds(g, m, t, lvl)
    ensures UnmapStep(g, m, t, m, t, lvl, lo, lo)
  {
  }

  lemma UnmapStepJoin(g: Geometry, m0: Mem, t0: Tree, m1: Mem, t1: Tree, m2: Mem, t2: Tree,
                      lvl: nat, lo: nat, mid: nat, hi: nat)
    requires UnmapStep(g, m0, t0, m1, t1, lvl, lo, mid) && UnmapStep(g, m1, t1, m2, t2, lvl, mid, hi)
    requires lo <= mid < hi && OnlySlot(t1, t2, Div(mid, g.Span(lvl))) && (mid == lo || Mod(mid, g.Span(lvl)) == 0)
    ensures UnmapStep(g, m0, t0, m2, t2, lvl, lo, hi)
  {
    MovedTrans(m0, t0, m1, t1, m2, t2);
    UnmapsJoin(g, t0, t1, t2, lvl, lo, mid, hi);
    forall v: nat | lo <= v < mid
      ensures PathFull(g, t2, lvl, v)
    {
      InSlot(v, mid, 0, g.Span(lvl));
      PathOther(g, t1, t2, lvl, Div(mid, g.Span(lvl)), v);
    }
  }

  lemma LeafCleared(g: Geometry, m: Mem, m': Mem, t: Tree, lvl: nat, lo: nat, n: nat)
    requires Holds(g, m, t, lvl)
    requires var s := g.Span(lvl); 0 < n && Mod(lo, s) + n <= s && Div(lo, s) < |t.slots| && !t.slots[Div(lo, s)].Sub?
    requires m' == m[t.addr := m[t.addr][Div(lo, g.Span(lvl)) := Invalid]]
    ensures UnmapStep(g, m, t, m', Put(t, Div(lo, g.Span(lvl)), Empty), lvl, lo, lo + n)
  {
    var i := Div(lo, g.Span(lvl));
    LeafSet(g, m, m', t, lvl, i, Empty, Invalid);
    UnmapLeaf(g, t, lvl, lo, n);
    forall v: nat | lo <= v < lo + n
      ensures PathFull(g, Put(t, i, Empty), lvl, v)
    {
      PathInto(g, t, lvl, lo, n, Empty, v, v - lo + Mod(lo, g.Span(lvl)));
    }
  }

  /** After the recursive call on the sub-table of slot lo / span. */
  ghost predicate SubStep(g: Geometry, m: Mem, m': Mem, t: Tree, lvl: nat, lo: nat, n: nat, c': Tree)
  {
    && Holds(g, m, t, lvl) && lvl > 0
    && (var s := g.Span(lvl);
        && 0 < n && Mod(lo, s) + n <= s && Div(lo, s) < |t.slots| && t.slots[Div(lo, s)].Sub?
        && UnmapStep(g, m, t.slots[Div(lo, s)].t, m', c', lvl - 1, Mod(lo, s), Mod(lo, s) + n))
  }

  /** The memory after the recursive call still holds the parent; what the code may conclude from a full
      chunk, or from reading the table, is that the table is empty. */
  lemma SubUnmapped(g: Geometry, m: Mem, m': Mem, t: Tree, lvl: nat, lo: nat, n: nat, c': Tree)
    requires SubStep(g, m, m', t, lvl, lo, n, c')
    ensures var t1 := Put(t, Div(lo, g.Span(lvl)), Sub(c'));
      Holds(g, m', t1, lvl) && Moved(m, t, m', t1)
    ensures t.addr in m' && c'.addr in m' && t.addr != c'.addr && |m'[t.addr]| == |t.slots|
    ensures c'.addr == t.slots[Div(lo, g.Span(lvl))].t.addr
    ensures n == g.Span(lvl) ==> AllEmpty(c')
    ensures AllEmpty(c') <==> forall i :: 0 <= i < |m'[c'.addr]| ==> m'[c'.addr][i] == Invalid
  {
    hide Distinct, Look, Unmaps, PathFull;
    var s := g.Span(lvl);
    SubHeld(g, m, t, lvl, Div(lo, s));
    SubMoved(g, m, m', t, lvl, Div(lo, s), c');
    SubHeld(g, m', Put(t, Div(lo, s), Sub(c')), lvl, Div(lo, s));
    EmptyHeld(g, m', c', lvl - 1);
    if n == s {
      WholeTable(g, t.slots[Div(lo, s)].t, c', lvl - 1);
    }
  }

  lemma SubKept(g: Geometry, m: Mem, m': Mem, t: Tree, lvl: nat, lo: nat, n: nat, c': Tree)
    requires SubStep(g, m, m', t, lvl, lo, n, c') && !AllEmpty(c')
    ensures UnmapStep(g, m, t, m', Put(t, Div(lo, g.Span(lvl)), Sub(c')), lvl, lo, lo + n)
  {
    var s := g.Span(lvl);
    SubHeld(g, m, t, lvl, Div(lo, s));
    SubMoved(g, m, m', t, lvl, Div(lo, s), c');
    UnmapSub(g, t, lvl, lo, n, c', Sub(c'));
    forall v: nat | lo <= v < lo + n
      ensures PathFull(g, Put(t, Div(lo, s), Sub(c')), lvl, v)
    {
      PathInto(g, t, lvl, lo, n, Sub(c'), v, v - lo + Mod(lo, s));
    }
  }

  lemma SubReleased(g: Geometry, m: Mem, m1: Mem, m2: Mem, t: Tree, lvl: nat, i: nat, c': Tree)
    requires Holds(g, m, t, lvl) && lvl > 0 && i < |t.slots| && t.slots[i].Sub?
    requires Moved(m, t.slots[i].t, m1, c') && Holds(g, m1, c', lvl - 1) && AllEmpty(c')
    requires t.addr in m1 && |m1[t.addr]| == |t.slots|
    requires m2 == m1[t.addr := m1[t.addr][i := Invalid]] - {c'.addr}
    ensures Holds(g, m2, Put(t, i, Empty), lvl) && Moved(m, t, m2, Put(t, i, Empty))
  {
    var t1 := Put(t, i, Sub(c'));
    SubHeld(g, m, t, lvl, i);
    SubMoved(g, m, m1, t, lvl, i, c');
    SubDropped(g, m1, m2, t1, lvl, i);
    assert Put(t1, i, Empty) == Put(t, i, Empty);
    MovedTrans(m, t, m1, t1, m2, Put(t, i, Empty));
  }

  lemma SubFreed(g: Geometry, m: Mem, m1: Mem, m2: Mem, t: Tree, lvl: nat, lo: nat, n: nat, c': Tree)
    requires SubStep(g, m, m1, t, lvl, lo, n, c') && AllEmpty(c') && t.addr in m1 && |m1[t.addr]| == |t.slots|
    requires m2 == m1[t.addr := m1[t.addr][Div(lo, g.Span(lvl)) := Invalid]] - {c'.addr}
    ensures UnmapStep(g, m, t, m2, Put(t, Div(lo, g.Span(lvl)), Empty), lvl, lo, lo + n)
  {
    var i := Div(lo, g.Span(lvl));
    SubReleased(g, m, m1, m2, t, lvl, i, c');
    SubHeld(g, m, t, lvl, i);
    UnmapSub(g, t, lvl, lo, n, c', Empty);
    EmptyPaths(g, t, lvl, lo, n);
  }

  /** Paths into an emptied slot meet no empty table. */
  lemma EmptyPaths(g: Geometry, t: Tree, lvl: nat, lo: nat, n: nat)
    requires g.Valid() && WellFormed(g, t, lvl)
    requires var s := g.Span(lvl); Mod(lo, s) + n <= s && Div(lo, s) < |t.slots|
    ensures var t' := Put(t, Div(lo, g.Span(lvl)), Empty);
      WellFormed(g, t', lvl) && forall v: nat :: lo <= v < lo + n ==> PathFull(g, t', lvl, v)
  {
    var i := Div(lo, g.Span(lvl));
    LookPut(g, t, lvl, i, Empty);
    forall v: nat | lo <= v < lo + n
      ensures PathFull(g, Put(t, i, Empty), lvl, v)
    {
      PathInto(g, t, lvl, lo, n, Empty, v, v - lo + Mod(lo, g.Span(lvl)));
    }
  }

  /** A table unmapped from end to end holds no descriptor, which is why the code may free it unread. */
  lemma WholeTable(g: Geometry, c: Tree, c': Tree, lvl: nat)
    requires g.Valid() && WellFormed(g, c, lvl) && WellFormed(g, c', lvl) && |c'.slots| == |c.slots| == g.fanout
    requires Unmaps(g, c, c', lvl, 0, Times(g.fanout, g.Span(lvl)))
    requires forall v: nat :: 0 <= v < Times(g.fanout, g.Span(lvl)) ==> PathFull(g, c', lvl, v)
    ensures AllEmpty(c')
  {
    forall v: nat | v < Times(|c'.slots|, g.Span(lvl))
      ensures Look(g, c', lvl, v).None? && PathFull(g, c', lvl, v)
    {
      assert Look(g, c', lvl, v) == Cut(Look(g, c, lvl, v), v, 0, Times(g.fanout, g.Span(lvl)));
      if Look(g, c, lvl, v).Some? {
        LookExtent(g, c, lvl, v);
      }
    }
    BareTree(g, c', lvl);
  }

  /** The whole memory is the root's tree. */
  lemma RootMoved(m: Mem, t: Tree, m': Mem, t': Tree)
    requires Moved(m, t, m', t') && m.Keys == Foot(t) && Foot(t') <= m'.Keys
    ensures m'.Keys == Foot(t')
  {
    assert m'.Keys - Foot(t') == {};
  }
}
