/** The write-back block cache of lib/bcache/bcache.c, as values: slots, the two lists and the device. */
module Bcache {
  import opened Wrappers
  import opened Lists
  import opened Octets

  type Block = seq<Byte>

  datatype Slot = Slot(blocknum: nat, refs: nat, dirty: bool, data: Block)

  /** size is the block size; free and lru hold slot numbers, head first. */
  datatype Store = Store(size: nat, slots: seq<Slot>, free: seq<nat>, lru: seq<nat>, dev: seq<Block>)

  /** Each slot is on exactly one list, once. */
  ghost predicate Placed(st: Store)
  {
    && NoDup(st.free) && NoDup(st.lru)
    && (forall i :: i in st.free || i in st.lru <==> 0 <= i < |st.slots|)
    && (forall i :: i in st.free ==> i !in st.lru)
  }

  /** No block has two slots. */
  ghost predicate Keyed(st: Store)
    requires Placed(st)
  {
    && (forall i :: i in st.lru ==> st.slots[i].blocknum < |st.dev|)
    && (forall i, j :: i in st.lru && j in st.lru && i != j ==> st.slots[i].blocknum != st.slots[j].blocknum)
  }

  ghost predicate Sized(st: Store)
  {
    && (forall i :: 0 <= i < |st.slots| ==> |st.slots[i].data| == st.size)
    && (forall b :: 0 <= b < |st.dev| ==> |st.dev[b]| == st.size)
  }

  ghost predicate Ok(st: Store)
  {
    && Placed(st) && Keyed(st) && Sized(st)
    && (forall i :: i in st.free ==> st.slots[i].refs == 0 && !st.slots[i].dirty)
  }

  /** Clean slots nobody holds equal the device. */
  ghost predicate Coherent(st: Store)
    requires Ok(st)
  {
    forall i :: i in st.lru && st.slots[i].refs == 0 && !st.slots[i].dirty ==>
                  st.slots[i].data == st.dev[st.slots[i].blocknum]
  }

  // ---------- the block array the cache stands for ----------

  /** The slot of block b, searching q from its head. */
  function Find(slots: seq<Slot>, q: seq<nat>, b: nat): Option<nat>
  {
    if q == [] then None
    else if q[0] < |slots| && slots[q[0]].blocknum == b then Some(q[0])
    else Find(slots, q[1..], b)
  }

  function Home(st: Store, b: nat): Option<nat>
  {
    Find(st.slots, st.lru, b)
  }

  function View(st: Store, b: nat): Block
    requires b < |st.dev|
  {
    match Home(st, b)
    case Some(i) => if i < |st.slots| then st.slots[i].data else []
    case None => st.dev[b]
  }

  /** What a reader of every block would see. */
  function Blocks(st: Store): (v: seq<Block>)
    ensures |v| == |st.dev|
  {
    seq(|st.dev|, b requires 0 <= b < |st.dev| => View(st, b))
  }

  ghost predicate Owns(st: Store, i: nat, b: nat)
    requires Placed(st)
  {
    i in st.lru && st.slots[i].blocknum == b
  }

  lemma {:induction false} FindIs(slots: seq<Slot>, q: seq<nat>, b: nat)
    requires forall i :: i in q ==> i < |slots|
    ensures match Find(slots, q, b)
            case Some(i) => i in q && slots[i].blocknum == b
            case None => forall i :: i in q ==> slots[i].blocknum != b
  {
    if q != [] {
      assert q[0] in q;
    }
    if q != [] && slots[q[0]].blocknum != b {
      assert forall i :: i in q[1..] ==> i in q;
      FindIs(slots, q[1..], b);
      assert q == [q[0]] + q[1..];
    }
  }

  lemma HomeIs(st: Store, b: nat)
    requires Ok(st)
    ensures match Home(st, b)
            case Some(i) => Owns(st, i, b)
            case None => forall i :: i in st.lru ==> st.slots[i].blocknum != b
    ensures forall i: nat :: Owns(st, i, b) ==> Home(st, b) == Some(i)
  {
    FindIs(st.slots, st.lru, b);
  }

  lemma ViewOwned(st: Store, i: nat, b: nat)
    requires Ok(st) && Owns(st, i, b)
    ensures View(st, b) == st.slots[i].data && Home(st, b) == Some(i)
  {
    HomeIs(st, b);
  }

  lemma ViewDevice(st: Store, b: nat)
    requires Ok(st) && b < |st.dev| && forall i :: i in st.lru ==> st.slots[i].blocknum != b
    ensures View(st, b) == st.dev[b] && Home(st, b) == None
  {
    HomeIs(st, b);
  }

  // ---------- the moves ----------

  /** list_delete then list_add_tail. */
  function ToTail(q: seq<nat>, i: nat): seq<nat>
  {
    Without(q, i) + [i]
  }

  function Touch(st: Store, i: nat): Store
  {
    st.(lru := ToTail(st.lru, i))
  }

  /** Write slot i back. */
  function Cleaned(st: Store, i: nat): Store
    requires i < |st.slots|
  {
    var s := st.slots[i];
    if s.dirty && s.blocknum < |st.dev| then
      st.(dev := st.dev[s.blocknum := s.data], slots := st.slots[i := s.(dirty := false)])
    else st
  }

  /** Slot i, from whichever list it was on, now holds s and is the most recently used. */
  function Claim(st: Store, i: nat, s: Slot): Store
    requires i < |st.slots|
  {
    st.(free := Without(st.free, i), lru := ToTail(st.lru, i), slots := st.slots[i := s])
  }

  function SetSlot(st: Store, i: nat, s: Slot): Store
    requires i < |st.slots|
  {
    st.(slots := st.slots[i := s])
  }

  /** Same view of every block, and coherence not lost. */
  ghost predicate Keeps(s: Store, t: Store)
    requires Ok(s)
  {
    Ok(t) && |t.dev| == |s.dev| && t.size == s.size && (Coherent(s) ==> Coherent(t) && Blocks(t) == Blocks(s))
  }

  /** How often block b has been got and not put back. */
  function Pins(st: Store, b: nat): nat
  {
    match Home(st, b)
    case Some(i) => if i < |st.slots| then st.slots[i].refs else 0
    case None => 0
  }

  /** Slots somebody holds are not evicted: they keep block, contents and count, and so does every pin count. */
  ghost predicate PinsStay(s: Store, t: Store)
  {
    && |t.slots| == |s.slots| && (forall b :: Pins(t, b) == Pins(s, b))
    && (forall i :: i in s.lru && i < |s.slots| && s.slots[i].refs > 0 ==> i in t.lru && t.slots[i] == s.slots[i])
  }

  lemma ToTailIs(q: seq<nat>, i: nat)
    requires NoDup(q)
    ensures NoDup(ToTail(q, i)) && forall j :: j in ToTail(q, i) <==> j in q || j == i
  {
    WithoutIs(q, i);
    NoDupAdd(Without(q, i), i);
  }

  lemma TouchKeeps(st: Store, i: nat)
    requires Ok(st) && i in st.lru
    ensures Ok(Touch(st, i)) && (Coherent(Touch(st, i)) <==> Coherent(st))
    ensures Blocks(Touch(st, i)) == Blocks(st)
    ensures forall b :: Home(Touch(st, i), b) == Home(st, b)
  {
    hide Find, Home;
    var t := Touch(st, i);
    ToTailIs(st.lru, i);
    forall b: nat
      ensures Home(t, b) == Home(st, b)
    {
      HomeIs(st, b);
      HomeIs(t, b);
    }
  }

  lemma CleanedOk(st: Store, i: nat)
    requires Ok(st) && i in st.lru
    ensures Ok(Cleaned(st, i)) && (Coherent(st) ==> Coherent(Cleaned(st, i)))
  {
  }

  /** Writing a slot back moves nothing in the view. */
  lemma CleanedView(st: Store, i: nat, b: nat)
    requires Ok(st) && i in st.lru && b < |st.dev|
    ensures View(Cleaned(st, i), b) == View(st, b) && Home(Cleaned(st, i), b) == Home(st, b)
  {
    var t := Cleaned(st, i);
    CleanedOk(st, i);
    HomeIs(st, b);
    HomeIs(t, b);
    assert Owns(st, i, st.slots[i].blocknum);
  }

  lemma CleanedKeeps(st: Store, i: nat)
    requires Ok(st) && i in st.lru
    ensures Keeps(st, Cleaned(st, i)) && Blocks(Cleaned(st, i)) == Blocks(st)
    ensures forall b: nat :: b < |st.dev| ==> Home(Cleaned(st, i), b) == Home(st, b)
  {
    CleanedOk(st, i);
    forall b: nat | b < |st.dev|
      ensures View(Cleaned(st, i), b) == View(st, b) && Home(Cleaned(st, i), b) == Home(st, b)
    {
      CleanedView(st, i, b);
    }
  }

  /** A slot that can be reused without losing anything: unheld, and clean. */
  predicate Spare(st: Store, i: nat)
  {
    i < |st.slots| && st.slots[i].refs == 0 && !st.slots[i].dirty
  }

  ghost predicate Fresh(st: Store, s: Slot)
  {
    && s.blocknum < |st.dev| && |s.data| == st.size
    && forall j :: j in st.lru && j < |st.slots| ==> st.slots[j].blocknum != s.blocknum
  }

  lemma ClaimOk(st: Store, i: nat, s: Slot)
    requires Ok(st) && Spare(st, i) && Fresh(st, s)
    ensures Ok(Claim(st, i, s))
  {
    WithoutIs(st.free, i);
    ToTailIs(st.lru, i);
  }

  /** Reusing a slot changes the view of the new block only. */
  lemma ClaimView(st: Store, i: nat, s: Slot, b: nat)
    requires Ok(st) && Coherent(st) && Spare(st, i) && Fresh(st, s) && b < |st.dev|
    ensures View(Claim(st, i, s), b) == if b == s.blocknum then s.data else View(st, b)
  {
    var t := Claim(st, i, s);
    ClaimOk(st, i, s);
    ToTailIs(st.lru, i);
    if b == s.blocknum {
      ViewOwned(t, i, b);
    } else {
      HomeIs(st, b);
      HomeIs(t, b);
    }
  }

  lemma ClaimKeeps(st: Store, i: nat, s: Slot)
    requires Ok(st) && Spare(st, i) && Fresh(st, s)
    ensures Ok(Claim(st, i, s)) && Home(Claim(st, i, s), s.blocknum) == Some(i)
    ensures Coherent(st) ==> Blocks(Claim(st, i, s)) == Blocks(st)[s.blocknum := s.data]
    ensures Coherent(st) && (s.dirty || s.data == st.dev[s.blocknum]) ==> Coherent(Claim(st, i, s))
  {
    var t := Claim(st, i, s);
    ClaimOk(st, i, s);
    ToTailIs(st.lru, i);
    ViewOwned(t, i, s.blocknum);
    if Coherent(st) {
      forall b: nat | b < |st.dev|
        ensures View(t, b) == if b == s.blocknum then s.data else View(st, b)
      {
        ClaimView(st, i, s, b);
      }
    }
  }

  /** Changing a cached slot in place changes the view of its block only. */
  lemma SetSlotIs(st: Store, i: nat, s: Slot)
    requires Ok(st) && i in st.lru && s.blocknum == st.slots[i].blocknum && |s.data| == st.size
    ensures Ok(SetSlot(st, i, s)) && Blocks(SetSlot(st, i, s)) == Blocks(st)[s.blocknum := s.data]
    ensures forall b :: Home(SetSlot(st, i, s), b) == Home(st, b)
    ensures Coherent(st) && (s.refs > 0 || s.dirty || s.data == st.dev[s.blocknum]) ==> Coherent(SetSlot(st, i, s))
    ensures Coherent(SetSlot(st, i, s)) ==> s.refs > 0 || s.dirty || s.data == st.dev[s.blocknum]
    ensures st.slots[i].refs > 0 && Coherent(SetSlot(st, i, s)) ==> Coherent(st)
  {
    var t := SetSlot(st, i, s);
    assert Ok(t);
    forall b: nat
      ensures Home(t, b) == Home(st, b)
    {
      HomeIs(st, b);
      HomeIs(t, b);
    }
    assert Owns(st, i, s.blocknum);
    forall b: nat | b < |st.dev|
      ensures View(t, b) == if b == s.blocknum then s.data else View(st, b)
    {
      HomeIs(st, b);
    }
  }

  // ---------- which slot a miss takes ----------

  /** The first slot of q nobody holds. */
  function FirstUnheld(slots: seq<Slot>, q: seq<nat>): Option<nat>
  {
    if q == [] then None
    else if q[0] < |slots| && slots[q[0]].refs == 0 then Some(q[0])
    else FirstUnheld(slots, q[1..])
  }

  /** A free slot if there is one, else the least recently used slot nobody holds. */
  function Victim(st: Store): Option<nat>
  {
    if st.free != [] then Some(st.free[0]) else FirstUnheld(st.slots, st.lru)
  }

  lemma {:induction false} FirstUnheldIs(slots: seq<Slot>, q: seq<nat>)
    requires forall i :: i in q ==> i < |slots|
    ensures match FirstUnheld(slots, q)
            case Some(i) => i in q && slots[i].refs == 0
            case None => forall i :: i in q ==> slots[i].refs > 0
  {
    if q != [] {
      assert q[0] in q;
      if slots[q[0]].refs != 0 {
        assert forall i :: i in q[1..] ==> i in q;
        FirstUnheldIs(slots, q[1..]);
        assert q == [q[0]] + q[1..];
      }
    }
  }

  /** A miss finds no slot exactly when every slot is cached and held. */
  lemma VictimIs(st: Store)
    requires Ok(st)
    ensures Victim(st).None? <==> (forall i :: 0 <= i < |st.slots| ==> i in st.lru && st.slots[i].refs > 0)
    ensures Victim(st).Some? ==> Victim(st).value < |st.slots| && st.slots[Victim(st).value].refs == 0
  {
    FirstUnheldIs(st.slots, st.lru);
    if st.free != [] {
      assert st.free[0] in st.free;
    }
  }

  /** What alloc_block leaves behind, before the caller fills the slot in. */
  function Taken(st: Store, i: nat): Store
    requires i < |st.slots|
  {
    var c := Cleaned(st, i);
    Claim(c, i, c.slots[i])
  }

  lemma {:induction false} WithoutAbsent(q: seq<nat>, i: nat)
    requires i !in q
    ensures Without(q, i) == q
  {
    if q != [] {
      assert q[0] in q;
      WithoutAbsent(q[1..], i);
      assert q == [q[0]] + q[1..];
    }
  }

  /** The slot at the head of the free list is clean and in no other list. */
  lemma FreeHead(st: Store)
    requires Ok(st) && st.free != []
    ensures var i: nat := st.free[0];
            i in st.free && i !in st.lru && i < |st.slots| && Cleaned(st, i) == st && Without(st.lru, i) == st.lru
  {
    var i: nat := st.free[0];
    assert i in st.free;
    WithoutAbsent(st.lru, i);
  }

  lemma LruInside(st: Store)
    requires Ok(st)
    ensures forall i :: i in st.lru ==> i < |st.slots|
  {
  }

  /** What a miss on block b leaves behind. */
  function Filled(st: Store, i: nat, b: nat, dirty: bool, data: Block): Store
    requires i < |st.slots|
  {
    Claim(Cleaned(st, i), i, Slot(b, 0, dirty, data))
  }

  lemma CleanedFree(st: Store, i: nat)
    requires Ok(st) && i < |st.slots|
    ensures i in st.free ==> Cleaned(st, i) == st
    ensures i !in st.free ==> i in st.lru
    ensures Ok(Cleaned(st, i)) && (Coherent(st) ==> Coherent(Cleaned(st, i)))
    ensures Blocks(Cleaned(st, i)) == Blocks(st)
  {
    if i in st.lru {
      CleanedKeeps(st, i);
    }
  }

  /** A miss: what is evicted is not lost, and only block b may look different. */
  lemma FilledKeeps(st: Store, i: nat, b: nat, dirty: bool, data: Block)
    requires Ok(st) && Victim(st) == Some(i) && i < |st.slots| && b < |st.dev| && Home(st, b) == None
             && |data| == st.size
    ensures Ok(Filled(st, i, b, dirty, data)) && Home(Filled(st, i, b, dirty, data), b) == Some(i)
    ensures Coherent(st) ==> Blocks(Filled(st, i, b, dirty, data)) == Blocks(st)[b := data]
    ensures Coherent(st) && (dirty || data == st.dev[b]) ==> Coherent(Filled(st, i, b, dirty, data))
  {
    VictimIs(st);
    CleanedFree(st, i);
    HomeIs(st, b);
    var c := Cleaned(st, i);
    assert c.lru == st.lru && c.size == st.size;
    ClaimKeeps(c, i, Slot(b, 0, dirty, data));
    assert i in st.lru ==> st.slots[i].blocknum != b;
    assert c.dev[b] == st.dev[b];
  }

  lemma FilledPins(st: Store, i: nat, b: nat, dirty: bool, data: Block)
    requires Ok(st) && Victim(st) == Some(i) && i < |st.slots| && b < |st.dev| && Home(st, b) == None
             && |data| == st.size
    ensures PinsStay(st, Filled(st, i, b, dirty, data))
  {
    hide Find, Home, Victim, Coherent, Blocks;
    var t := Filled(st, i, b, dirty, data);
    VictimIs(st);
    FilledKeeps(st, i, b, dirty, data);
    ToTailIs(st.lru, i);
    forall k: nat
      ensures Pins(t, k) == Pins(st, k)
    {
      HomeIs(st, k);
      HomeIs(t, k);
    }
  }

  // ---------- flush ----------

  /** The first k slots of the lru list written back. */
  function FlushedTo(st: Store, k: nat): (t: Store)
    requires k <= |st.lru| && forall j :: 0 <= j < |st.lru| ==> st.lru[j] < |st.slots|
    ensures t.lru == st.lru && |t.slots| == |st.slots|
    decreases k
  {
    if k == 0 then st else Cleaned(FlushedTo(st, k - 1), st.lru[k - 1])
  }

  /** t is st with the first k slots clean and, where they were dirty, on the device. */
  ghost predicate WrittenBack(st: Store, t: Store, k: nat)
    requires Ok(st) && k <= |st.lru|
  {
    && Ok(t) && t.free == st.free && t.lru == st.lru && t.size == st.size
    && |t.slots| == |st.slots| && |t.dev| == |st.dev|
    && (forall i :: i in st.lru[..k] ==>
                      && i < |st.slots| && t.slots[i] == st.slots[i].(dirty := false)
                      && t.dev[st.slots[i].blocknum] ==
                         if st.slots[i].dirty then st.slots[i].data else st.dev[st.slots[i].blocknum])
    && (forall i :: 0 <= i < |st.slots| && i !in st.lru[..k] ==> t.slots[i] == st.slots[i])
    && (forall b :: 0 <= b < |st.dev| && (forall i :: i in st.lru[..k] ==> st.slots[i].blocknum != b) ==>
                      t.dev[b] == st.dev[b])
  }

  lemma {:induction false} FlushedIs(st: Store, k: nat)
    requires Ok(st) && k <= |st.lru| && forall j :: 0 <= j < |st.lru| ==> st.lru[j] < |st.slots|
    ensures WrittenBack(st, FlushedTo(st, k), k) && Blocks(FlushedTo(st, k)) == Blocks(st)
    ensures Coherent(st) ==> Coherent(FlushedTo(st, k))
    decreases k
  {
    hide Ok, Blocks, Coherent, Cleaned;
    if k > 0 {
      FlushedIs(st, k - 1);
      var t, i := FlushedTo(st, k - 1), st.lru[k - 1];
      CleanedKeeps(t, i);
      FlushStep(st, t, k);
    }
  }

  lemma FlushStep(st: Store, t: Store, k: nat)
    requires Ok(st) && 0 < k <= |st.lru| && WrittenBack(st, t, k - 1) && st.lru[k - 1] < |st.slots|
    ensures WrittenBack(st, Cleaned(t, st.lru[k - 1]), k)
  {
    hide Ok;
    var i := st.lru[k - 1];
    assert i in st.lru && st.lru[..k] == st.lru[..k - 1] + [i];
    assert i < |st.slots| && st.slots[i].blocknum < |st.dev| by {
      LruKeyed(st, k, 0);
    }
    forall j | 0 <= j < k - 1
      ensures && st.lru[j] < |st.slots| && st.lru[j] != i && st.slots[st.lru[j]].blocknum < |st.dev|
              && st.slots[st.lru[j]].blocknum != st.slots[i].blocknum
    {
      LruKeyed(st, k, j);
    }
    assert i !in st.lru[..k - 1];
    CleanedOk(t, i);
  }

  lemma LruKeyed(st: Store, k: nat, j: nat)
    requires Ok(st) && j < k <= |st.lru|
    ensures && st.lru[k - 1] < |st.slots| && st.slots[st.lru[k - 1]].blocknum < |st.dev| && st.lru[j] < |st.slots|
    ensures st.slots[st.lru[j]].blocknum < |st.dev|
    ensures j != k - 1 ==> && st.lru[j] != st.lru[k - 1]
                           && st.slots[st.lru[j]].blocknum != st.slots[st.lru[k - 1]].blocknum
  {
    assert st.lru[k - 1] in st.lru && st.lru[j] in st.lru;
  }

  /** A flush makes the device equal to the view exactly when the slots already clean equalled it. */
  lemma FlushedDevice(st: Store, t: Store)
    requires Ok(st) && WrittenBack(st, t, |st.lru|) && Blocks(t) == Blocks(st)
    ensures t.dev == Blocks(st) <==>
            (forall i :: i in st.lru && !st.slots[i].dirty ==> st.slots[i].data == st.dev[st.slots[i].blocknum])
  {
    assert st.lru[..|st.lru|] == st.lru;
    forall b: nat | b < |st.dev|
      ensures t.dev[b] == View(st, b) <==>
              (forall i: nat :: Owns(st, i, b) && !st.slots[i].dirty ==> st.slots[i].data == st.dev[b])
    {
      HomeIs(st, b);
    }
    assert t.dev == Blocks(st) <==> forall b: nat :: b < |st.dev| ==> t.dev[b] == View(st, b);
    forall i | i in st.lru
      ensures Owns(st, i, st.slots[i].blocknum)
    {
    }
  }
}
