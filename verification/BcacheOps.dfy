/** The operations of the block cache as steps, and what every run of them keeps. */
module BcacheOps {
  import opened Wrappers
  import opened Lists
  import opened Octets
  import opened Bcache

  /** Write is the client storing through the pointer it got; the others are the calls of bcache.h. */
  datatype Op =
    | Read(block: nat)
    | Get(block: nat)
    | Put(block: nat)
    | MarkDirty(block: nat)
    | Zero(block: nat)
    | Write(block: nat, data: Block)
    | Flush

  // ---------- the steps ----------

  /** find_block: a hit moves the slot to the tail. */
  function Looked(st: Store, b: nat): Store
  {
    match Home(st, b)
    case Some(i) => Touch(st, i)
    case None => st
  }

  /** A slot for block b exists or can be had. */
  predicate Room(st: Store, b: nat)
  {
    Home(st, b).Some? || Victim(st).Some?
  }

  /** find_or_fill_block. */
  function DoFill(st: Store, b: nat): Store
  {
    match Home(st, b)
    case Some(i) => Touch(st, i)
    case None =>
      match Victim(st)
      case Some(i) => if i < |st.slots| && b < |st.dev| then Filled(st, i, b, false, st.dev[b]) else st
      case None => st
  }

  /** Change the slot of block b, if it has one. */
  function Alter(st: Store, b: nat, f: Slot -> Slot): Store
  {
    match Home(st, b)
    case Some(i) => if i < |st.slots| then SetSlot(st, i, f(st.slots[i])) else st
    case None => st
  }

  function DoGet(st: Store, b: nat): Store
  {
    Alter(DoFill(st, b), b, (s: Slot) => s.(refs := s.refs + 1))
  }

  function DoPut(st: Store, b: nat): Store
  {
    Alter(Looked(st, b), b, (s: Slot) => s.(refs := if s.refs > 0 then s.refs - 1 else 0))
  }

  function DoMarkDirty(st: Store, b: nat): Store
  {
    Alter(Looked(st, b), b, (s: Slot) => s.(dirty := true))
  }

  function DoZero(st: Store, b: nat): Store
  {
    match Home(st, b)
    case Some(i) => Alter(Touch(st, i), b, (s: Slot) => s.(data := Zeros(st.size), dirty := true))
    case None =>
      match Victim(st)
      case Some(i) => if i < |st.slots| then Filled(st, i, b, true, Zeros(st.size)) else st
      case None => st
  }

  function DoWrite(st: Store, b: nat, d: Block): Store
  {
    Alter(st, b, (s: Slot) => s.(data := d))
  }

  function DoFlush(st: Store): Store
  {
    if forall j :: 0 <= j < |st.lru| ==> st.lru[j] < |st.slots| then FlushedTo(st, |st.lru|) else st
  }

  function Next(st: Store, op: Op): Store
  {
    match op
    case Read(b) => DoFill(st, b)
    case Get(b) => DoGet(st, b)
    case Put(b) => DoPut(st, b)
    case MarkDirty(b) => DoMarkDirty(st, b)
    case Zero(b) => DoZero(st, b)
    case Write(b, d) => DoWrite(st, b, d)
    case Flush => DoFlush(st)
  }

  /** What the source asserts of its caller; Write needs a buffer that has been got. */
  predicate Enabled(st: Store, op: Op)
  {
    match op
    case Read(b) => b < |st.dev| && Room(st, b)
    case Get(b) => b < |st.dev| && Room(st, b)
    case Put(b) => Pins(st, b) > 0
    case MarkDirty(b) => true
    case Zero(b) => b < |st.dev|
    case Write(b, d) => Pins(st, b) > 0 && |d| == st.size
    case Flush => true
  }

  /** The last put of a block comes after it was marked dirty, unless it still equals the device. */
  predicate Careful(st: Store, op: Op)
  {
    op.Put? && Pins(st, op.block) == 1 && op.block < |st.dev| ==>
      Dirty(st, op.block) || View(st, op.block) == st.dev[op.block]
  }

  predicate Dirty(st: Store, b: nat)
  {
    match Home(st, b)
    case Some(i) => i < |st.slots| && st.slots[i].dirty
    case None => false
  }

  /** The plain block array: only a client's store and a zero that found a slot change it. */
  function Apply(v: seq<Block>, st: Store, op: Op): seq<Block>
  {
    match op
    case Write(b, d) => if b < |v| then v[b := d] else v
    case Zero(b) => if b < |v| && Room(st, b) then v[b := Zeros(st.size)] else v
    case _ => v
  }

  /** t stands for v, with at most the pins of block b changed, by d. */
  ghost predicate Stands(st: Store, t: Store, v: seq<Block>, b: nat, d: int)
    requires Ok(st)
  {
    && Ok(t) && t.size == st.size && |t.dev| == |st.dev| && |t.slots| == |st.slots|
    && (Coherent(st) ==> Blocks(t) == v)
    && (forall c :: Pins(t, c) == if c == b then Pins(st, c) + d else Pins(st, c))
  }

  // ---------- what each step keeps ----------

  lemma LookedKeeps(st: Store, b: nat)
    requires Ok(st)
    ensures Stands(st, Looked(st, b), Blocks(st), 0, 0)
    ensures Coherent(Looked(st, b)) <==> Coherent(st)
    ensures Home(Looked(st, b), b) == Home(st, b)
    ensures Looked(st, b).dev == st.dev && Looked(st, b).slots == st.slots
  {
    HomeIs(st, b);
    if Home(st, b).Some? {
      TouchKeeps(st, Home(st, b).value);
    }
  }

  lemma FillKeeps(st: Store, b: nat)
    requires Ok(st) && b < |st.dev| && Room(st, b)
    ensures Stands(st, DoFill(st, b), Blocks(st), 0, 0)
    ensures Coherent(st) ==> Coherent(DoFill(st, b))
    ensures Home(DoFill(st, b), b).Some?
    ensures PinsStay(st, DoFill(st, b))
  {
    hide Coherent, Find, Home, View;
    HomeIs(st, b);
    if Home(st, b).Some? {
      TouchKeeps(st, Home(st, b).value);
      ToTailIs(st.lru, Home(st, b).value);
    } else {
      VictimIs(st);
      var i := Victim(st).value;
      FilledKeeps(st, i, b, false, st.dev[b]);
      FilledPins(st, i, b, false, st.dev[b]);
      ViewDevice(st, b);
      assert Blocks(st)[b] == st.dev[b];
    }
  }

  /** Changing the slot of block b in place, with its block number kept. */
  lemma AlterKeeps(st: Store, b: nat, f: Slot -> Slot, i: nat)
    requires Ok(st) && Home(st, b) == Some(i) && i < |st.slots|
    requires f(st.slots[i]).blocknum == st.slots[i].blocknum && |f(st.slots[i]).data| == st.size
    ensures b < |st.dev|
    ensures Stands(st, Alter(st, b, f), Blocks(st)[b := f(st.slots[i]).data], b, f(st.slots[i]).refs - st.slots[i].refs)
    ensures Blocks(st)[b] == st.slots[i].data
    ensures Coherent(st) && (f(st.slots[i]).refs > 0 || f(st.slots[i]).dirty || f(st.slots[i]).data == st.dev[b]) ==>
              Coherent(Alter(st, b, f))
    ensures Coherent(Alter(st, b, f)) ==>
              f(st.slots[i]).refs > 0 || f(st.slots[i]).dirty || f(st.slots[i]).data == st.dev[b]
  {
    HomeIs(st, b);
    ViewOwned(st, i, b);
    SetSlotIs(st, i, f(st.slots[i]));
    var t := Alter(st, b, f);
    forall c
      ensures Pins(t, c) == if c == b then Pins(st, c) + f(st.slots[i]).refs - st.slots[i].refs else Pins(st, c)
    {
      HomeIs(st, c);
    }
  }

  lemma GetKeeps(st: Store, b: nat)
    requires Ok(st) && Enabled(st, Get(b))
    ensures Stands(st, DoGet(st, b), Blocks(st), b, 1)
    ensures Coherent(st) ==> Coherent(DoGet(st, b))
  {
    FillKeeps(st, b);
    var t := DoFill(st, b);
    HomeIs(t, b);
    AlterKeeps(t, b, (s: Slot) => s.(refs := s.refs + 1), Home(t, b).value);
  }

  /** Putting a block back: the slots stay coherent exactly when the client was careful. */
  lemma PutKeeps(st: Store, b: nat)
    requires Ok(st) && Enabled(st, Put(b))
    ensures Stands(st, DoPut(st, b), Blocks(st), b, -1)
    ensures Coherent(st) ==> (Coherent(DoPut(st, b)) <==> Careful(st, Put(b)))
  {
    LookedKeeps(st, b);
    HomeIs(st, b);
    var t, i := Looked(st, b), Home(st, b).value;
    ViewOwned(st, i, b);
    AlterKeeps(t, b, (s: Slot) => s.(refs := if s.refs > 0 then s.refs - 1 else 0), i);
  }

  lemma MarkDirtyKeeps(st: Store, b: nat)
    requires Ok(st)
    ensures Stands(st, DoMarkDirty(st, b), Blocks(st), b, 0)
    ensures Coherent(st) ==> Coherent(DoMarkDirty(st, b))
    ensures Home(st, b).Some? ==> Dirty(DoMarkDirty(st, b), b)
  {
    LookedKeeps(st, b);
    var t := Looked(st, b);
    if Home(st, b).Some? {
      HomeIs(st, b);
      var i := Home(st, b).value;
      AlterKeeps(t, b, (s: Slot) => s.(dirty := true), i);
      HomeIs(DoMarkDirty(st, b), b);
    }
  }

  lemma ZeroKeeps(st: Store, b: nat)
    requires Ok(st) && b < |st.dev|
    ensures Stands(st, DoZero(st, b), if Room(st, b) then Blocks(st)[b := Zeros(st.size)] else Blocks(st), b, 0)
    ensures Coherent(st) ==> Coherent(DoZero(st, b))
  {
    HomeIs(st, b);
    if Home(st, b).Some? {
      LookedKeeps(st, b);
      var i := Home(st, b).value;
      AlterKeeps(Touch(st, i), b, (s: Slot) => s.(data := Zeros(st.size), dirty := true), i);
    } else if Victim(st).Some? {
      VictimIs(st);
      FilledKeeps(st, Victim(st).value, b, true, Zeros(st.size));
      FilledPins(st, Victim(st).value, b, true, Zeros(st.size));
    }
  }

  lemma WriteKeeps(st: Store, b: nat, d: Block)
    requires Ok(st) && Enabled(st, Write(b, d))
    ensures b < |st.dev| && Stands(st, DoWrite(st, b, d), Blocks(st)[b := d], b, 0)
    ensures Coherent(st) ==> Coherent(DoWrite(st, b, d))
  {
    HomeIs(st, b);
    AlterKeeps(st, b, (s: Slot) => s.(data := d), Home(st, b).value);
  }

  lemma LruBound(st: Store)
    requires Ok(st)
    ensures forall j :: 0 <= j < |st.lru| ==> st.lru[j] < |st.slots|
  {
    assert forall j :: 0 <= j < |st.lru| ==> st.lru[j] in st.lru;
  }

  /** A flush cleans every slot, keeps the view, and writes every dirty block out. */
  lemma FlushKeeps(st: Store)
    requires Ok(st)
    ensures Stands(st, DoFlush(st), Blocks(st), 0, 0) && Blocks(DoFlush(st)) == Blocks(st)
    ensures Coherent(st) ==> Coherent(DoFlush(st))
    ensures forall b :: !Dirty(DoFlush(st), b)
    ensures DoFlush(st).dev == Blocks(st) <==>
            (forall i :: i in st.lru && !st.slots[i].dirty ==> st.slots[i].data == st.dev[st.slots[i].blocknum])
  {
    hide Coherent, Find, Home, View;
    LruBound(st);
    var t := DoFlush(st);
    FlushedIs(st, |st.lru|);
    FlushedDevice(st, t);
    assert st.lru[..|st.lru|] == st.lru;
    forall b
      ensures Pins(t, b) == Pins(st, b) && !Dirty(t, b)
    {
      HomeIs(st, b);
      HomeIs(t, b);
    }
  }

  /** With nothing held, a coherent cache flushes to a device equal to the view. */
  lemma FlushSettles(st: Store)
    requires Ok(st) && Coherent(st) && forall b :: Pins(st, b) == 0
    ensures DoFlush(st).dev == Blocks(st)
  {
    FlushKeeps(st);
    forall i | i in st.lru
      ensures st.slots[i].refs == 0
    {
      HomeIs(st, st.slots[i].blocknum);
      assert Owns(st, i, st.slots[i].blocknum);
      assert Pins(st, st.slots[i].blocknum) == 0;
    }
  }

  /** Every step acts on the plain block array, and a careful client keeps the slots coherent. */
  lemma NextKeeps(st: Store, op: Op)
    requires Ok(st) && Coherent(st) && Enabled(st, op)
    ensures Ok(Next(st, op)) && |Next(st, op).dev| == |st.dev|
    ensures Blocks(Next(st, op)) == Apply(Blocks(st), st, op)
    ensures Careful(st, op) ==> Coherent(Next(st, op))
  {
    match op
    case Read(b) => FillKeeps(st, b);
    case Get(b) => GetKeeps(st, b);
    case Put(b) => PutKeeps(st, b);
    case MarkDirty(b) => MarkDirtyKeeps(st, b);
    case Zero(b) => ZeroKeeps(st, b);
    case Write(b, d) => WriteKeeps(st, b, d);
    case Flush => FlushKeeps(st);
  }

  // ---------- whole runs ----------

  ghost predicate Takes(s: Store, op: Op, t: Store)
  {
    Ok(s) && Enabled(s, op) && Careful(s, op) && t == Next(s, op)
  }

  /** trace[k] is the store before ops[k]; the last entry is where the run ends. */
  ghost predicate IsRun(trace: seq<Store>, ops: seq<Op>)
  {
    && |trace| == |ops| + 1
    && forall k :: 0 <= k < |ops| ==> Takes(trace[k], ops[k], trace[k + 1])
  }

  /** vs are the plain block arrays beside a run. */
  ghost predicate Beside(trace: seq<Store>, ops: seq<Op>, vs: seq<seq<Block>>)
    requires IsRun(trace, ops)
  {
    && |vs| == |trace| && vs[0] == Blocks(trace[0])
    && forall k :: 0 <= k < |ops| ==> Applies(vs[k], trace[k], ops[k], vs[k + 1])
  }

  ghost predicate Applies(v: seq<Block>, st: Store, op: Op, w: seq<Block>)
  {
    w == Apply(v, st, op)
  }

  /** In every careful run the cache shows what the plain block array holds. */
  lemma {:induction false} RunAgrees(trace: seq<Store>, ops: seq<Op>, vs: seq<seq<Block>>, k: nat)
    requires IsRun(trace, ops) && Beside(trace, ops, vs) && k < |trace|
    requires Ok(trace[0]) && Coherent(trace[0])
    ensures Ok(trace[k]) && Coherent(trace[k]) && Blocks(trace[k]) == vs[k]
    decreases k
  {
    if k > 0 {
      RunAgrees(trace, ops, vs, k - 1);
      assert Takes(trace[k - 1], ops[k - 1], trace[k - 1 + 1]);
      assert Applies(vs[k - 1], trace[k - 1], ops[k - 1], vs[k - 1 + 1]);
      NextKeeps(trace[k - 1], ops[k - 1]);
    }
  }

  /** Slot i is still cached in t, for the same block. */
  ghost predicate Stays(st: Store, t: Store, i: nat)
  {
    i in t.lru && i < |t.slots| && i < |st.slots| && t.slots[i].blocknum == st.slots[i].blocknum
  }

  lemma LookedStays(st: Store, b: nat, i: nat)
    requires Ok(st) && i in st.lru
    ensures Stays(st, Looked(st, b), i)
  {
    HomeIs(st, b);
    if Home(st, b).Some? {
      ToTailIs(st.lru, Home(st, b).value);
    }
  }

  lemma FillStays(st: Store, b: nat, i: nat)
    requires Ok(st) && b < |st.dev| && Room(st, b) && i in st.lru && st.slots[i].refs > 0
    ensures Stays(st, DoFill(st, b), i) && DoFill(st, b).slots[i] == st.slots[i]
  {
    FillKeeps(st, b);
  }

  lemma ZeroStays(st: Store, b: nat, i: nat)
    requires Ok(st) && b < |st.dev| && i in st.lru && st.slots[i].refs > 0
    ensures Stays(st, DoZero(st, b), i)
  {
    HomeIs(st, b);
    if Home(st, b).Some? {
      LookedStays(st, b, i);
    } else if Victim(st).Some? {
      VictimIs(st);
      FilledPins(st, Victim(st).value, b, true, Zeros(st.size));
    }
  }

  lemma FlushStays(st: Store, i: nat)
    requires Ok(st) && i in st.lru
    ensures Stays(st, DoFlush(st), i) && DoFlush(st).slots[i].data == st.slots[i].data
  {
    LruBound(st);
    FlushedIs(st, |st.lru|);
    assert st.lru[..|st.lru|] == st.lru;
  }

  lemma AlterStays(st: Store, t: Store, b: nat, f: Slot -> Slot, i: nat)
    requires i < |st.slots| && Stays(st, t, i) && forall s :: f(s).blocknum == s.blocknum
    ensures Stays(st, Alter(t, b, f), i)
  {
  }

  /** No step evicts a slot somebody holds. */
  lemma HeldStays(st: Store, op: Op, i: nat)
    requires Ok(st) && Enabled(st, op) && i in st.lru && st.slots[i].refs > 0
    ensures Stays(st, Next(st, op), i)
  {
    hide DoFill, Looked, DoZero, DoFlush, Alter, Stays;
    match op
    case Read(b) => FillStays(st, b, i);
    case Get(b) =>
      FillStays(st, b, i);
      AlterStays(st, DoFill(st, b), b, (s: Slot) => s.(refs := s.refs + 1), i);
    case Put(b) =>
      LookedStays(st, b, i);
      AlterStays(st, Looked(st, b), b, (s: Slot) => s.(refs := if s.refs > 0 then s.refs - 1 else 0), i);
    case MarkDirty(b) =>
      LookedStays(st, b, i);
      AlterStays(st, Looked(st, b), b, (s: Slot) => s.(dirty := true), i);
    case Zero(b) => ZeroStays(st, b, i);
    case Write(b, d) => AlterStays(st, st, b, (s: Slot) => s.(data := d), i);
    case Flush => FlushStays(st, i);
  }

  // ---------- facts the code needs ----------

  lemma NextOk(st: Store, op: Op)
    requires Ok(st) && Enabled(st, op)
    ensures Ok(Next(st, op))
  {
    match op
    case Read(b) => FillKeeps(st, b);
    case Get(b) => GetKeeps(st, b);
    case Put(b) => PutKeeps(st, b);
    case MarkDirty(b) => MarkDirtyKeeps(st, b);
    case Zero(b) => ZeroKeeps(st, b);
    case Write(b, d) => WriteKeeps(st, b, d);
    case Flush => FlushKeeps(st);
  }

  lemma Hit(st: Store, b: nat)
    requires Ok(st) && Home(st, b).Some?
    ensures var i := Home(st, b).value; i in st.lru && i < |st.slots| && st.slots[i].blocknum == b
    ensures |st.slots[Home(st, b).value].data| == st.size
    ensures Looked(st, b).slots == st.slots && Home(Looked(st, b), b) == Home(st, b)
  {
    HomeIs(st, b);
    LookedKeeps(st, b);
  }

  /** The slot a fill ends with holds what a reader should see. */
  lemma FillShows(st: Store, b: nat)
    requires Ok(st) && Enabled(st, Read(b))
    ensures var t := DoFill(st, b); Home(t, b).Some? && Home(t, b).value in t.lru && Home(t, b).value < |t.slots|
    ensures var t := DoFill(st, b); Coherent(st) ==> t.slots[Home(t, b).value].data == Blocks(st)[b]
  {
    FillKeeps(st, b);
    var t := DoFill(st, b);
    Hit(t, b);
    ViewOwned(t, Home(t, b).value, b);
    assert Blocks(t)[b] == View(t, b);
  }

  lemma GetShows(st: Store, b: nat)
    requires Ok(st) && Enabled(st, Get(b))
    ensures Home(DoGet(st, b), b) == Home(DoFill(st, b), b)
  {
    hide DoFill, Ok, Home;
    NextOk(st, Read(b));
    FillShows(st, b);
    var t := DoFill(st, b);
    Hit(t, b);
    var s := t.slots[Home(t, b).value];
    SetSlotIs(t, Home(t, b).value, s.(refs := s.refs + 1));
  }

  /** From the slot alloc_block hands over to the slot filled in. */
  lemma TakenFilled(st: Store, i: nat, b: nat, dirty: bool, data: Block)
    requires Ok(st) && Victim(st) == Some(i) && Home(st, b) == None && b < |st.dev|
    ensures i < |st.slots| && |Taken(st, i).slots| == |st.slots| && |Taken(st, i).dev| == |st.dev|
    ensures Taken(st, i).slots[i].refs == 0 && !Taken(st, i).slots[i].dirty && Taken(st, i).dev[b] == st.dev[b]
    ensures SetSlot(Taken(st, i), i, Slot(b, 0, dirty, data)) == Filled(st, i, b, dirty, data)
  {
    VictimIs(st);
    CleanedFree(st, i);
    HomeIs(st, b);
    var c := Cleaned(st, i);
    assert c.slots[i := c.slots[i]][i := Slot(b, 0, dirty, data)] == c.slots[i := Slot(b, 0, dirty, data)];
  }

  // ---------- what a careless put costs ----------

  /** One slot, two blocks: stored into, put back unmarked, then evicted. */
  function CarelessStart(): Store
  {
    Store(1, [Slot(0, 1, false, [7])], [], [0], [[0], [0]])
  }

  function CarelessEnd(): Store
  {
    Store(1, [Slot(0, 0, false, [7])], [], [0], [[0], [0]])
  }

  lemma CarelessPut()
    ensures var s := CarelessStart(); Ok(s) && Coherent(s) && Enabled(s, Put(0)) && !Careful(s, Put(0))
    ensures Next(CarelessStart(), Put(0)) == CarelessEnd() && View(CarelessEnd(), 0) == [7]
  {
    var s := CarelessStart();
    assert Home(s, 0) == Some(0);
    assert Without([0], 0) == [];
  }

  lemma CarelessLoss()
    ensures Enabled(CarelessEnd(), Read(1)) && View(Next(CarelessEnd(), Read(1)), 0) == [0]
  {
    var t := CarelessEnd();
    assert Without([0], 0) == [];
    assert Home(t, 1) == None && Victim(t) == Some(0);
    var u := Next(t, Read(1));
    assert u == Store(1, [Slot(1, 0, false, [0])], [], [0], [[0], [0]]);
    assert Home(u, 0) == None;
  }
}
