/** The replacement order of lib/bcache/bcache.c: what is evicted is the block used longest ago. */
module BcacheLru {
  import opened Wrappers
  import opened Lists
  import opened Octets
  import opened Bcache
  import opened BcacheOps

  // ---------- use, as the list of operations tells it ----------

  /** Operation op is a use of block b: a read, a get, a put, a mark or a zero. */
  predicate Uses(op: Op, b: nat)
  {
    !op.Write? && !op.Flush? && op.block == b
  }

  /** The number of the last of the first k operations that used block b; -1 if there is none. */
  function LastUse(ops: seq<Op>, k: nat, b: nat): int
    requires k <= |ops|
  {
    if k == 0 then -1 else if Uses(ops[k - 1], b) then k - 1 else LastUse(ops, k - 1, b)
  }

  lemma {:induction false} LastUseBefore(ops: seq<Op>, k: nat, b: nat)
    requires k <= |ops|
    ensures LastUse(ops, k, b) < k
  {
    if k > 0 {
      LastUseBefore(ops, k - 1, b);
    }
  }

  ghost predicate Cached(st: Store, b: nat)
  {
    Home(st, b).Some?
  }

  /** A run of any operations the source allows, from a cache that holds nothing. */
  ghost predicate IsHistory(trace: seq<Store>, ops: seq<Op>)
  {
    && |trace| == |ops| + 1 && Ok(trace[0]) && trace[0].lru == []
    && forall k :: 0 <= k < |ops| ==> Follows(trace[k], ops[k], trace[k + 1])
  }

  ghost predicate Follows(s: Store, op: Op, t: Store)
  {
    Enabled(s, op) && t == Next(s, op)
  }

  lemma {:induction false} HistoryOk(trace: seq<Store>, ops: seq<Op>, k: nat)
    requires IsHistory(trace, ops) && k < |trace|
    ensures Ok(trace[k])
  {
    if k > 0 {
      HistoryOk(trace, ops, k - 1);
      assert Follows(trace[k - 1], ops[k - 1], trace[k - 1 + 1]);
      NextOk(trace[k - 1], ops[k - 1]);
    }
  }

  // ---------- the cached blocks in list order ----------

  /** The blocks on the lru list, head first. */
  ghost function Order(st: Store): (q: seq<nat>)
    requires Ok(st)
    ensures |q| == |st.lru|
  {
    LruBound(st);
    seq(|st.lru|, i requires 0 <= i < |st.lru| => st.slots[st.lru[i]].blocknum)
  }

  lemma OrderIs(st: Store, b: nat)
    requires Ok(st)
    ensures b in Order(st) <==> Cached(st, b)
    ensures NoDup(Order(st))
  {
    LruBound(st);
    HomeIs(st, b);
    if Cached(st, b) {
      var p :| 0 <= p < |st.lru| && st.lru[p] == Home(st, b).value;
      assert Order(st)[p] == b;
    }
    if b in Order(st) {
      var p :| 0 <= p < |st.lru| && Order(st)[p] == b;
      assert st.lru[p] in st.lru;
    }
    forall i, j | 0 <= i < j < |st.lru|
      ensures Order(st)[i] != Order(st)[j]
    {
      assert st.lru[i] in st.lru && st.lru[j] in st.lru && st.lru[i] != st.lru[j];
    }
  }

  /** Slots renamed or moved make no difference as long as the blocks stay where they are. */
  lemma OrderSame(s: Store, t: Store)
    requires Ok(s) && Ok(t) && t.lru == s.lru && |t.slots| == |s.slots|
    requires forall i :: i in s.lru ==> i < |s.slots| && t.slots[i].blocknum == s.slots[i].blocknum
    ensures Order(t) == Order(s)
  {
    LruBound(s);
  }

  /** q without the block at position p, and b at the end. */
  function Moved(q: seq<nat>, p: nat, b: nat): seq<nat>
    requires p < |q|
  {
    q[..p] + q[p + 1..] + [b]
  }

  /** Where slot i is on the list. */
  lemma PlaceOf(st: Store, i: nat) returns (p: nat)
    requires Ok(st) && i in st.lru
    ensures p < |st.lru| && st.lru[p] == i < |st.slots|
    ensures ToTail(st.lru, i) == st.lru[..p] + st.lru[p + 1..] + [i]
  {
    LruBound(st);
    p :| 0 <= p < |st.lru| && st.lru[p] == i;
    WithoutAt(st.lru, p);
  }

  /** Slot i has gone from its place to the end of the list. */
  ghost predicate LastNow(q: seq<nat>, r: seq<nat>, i: nat)
  {
    exists p: nat :: p < |q| && q[p] == i && r == q[..p] + q[p + 1..] + [i]
  }

  lemma FoundLast(st: Store, b: nat)
    requires Ok(st)
    ensures match Home(st, b)
            case Some(i) => && i < |st.slots| && st.slots[i].blocknum == b && LastNow(st.lru, ToTail(st.lru, i), i)
            case None => forall i :: i in st.lru ==> i < |st.slots| && st.slots[i].blocknum != b
  {
    HomeIs(st, b);
    if Home(st, b).Some? {
      var p := PlaceOf(st, Home(st, b).value);
    }
  }

  /** What alloc_block does to the lists. */
  lemma TakenLast(st: Store)
    requires Ok(st) && Victim(st).Some?
    ensures Victim(st).value < |st.slots|
    ensures var i, t := Victim(st).value, Taken(st, Victim(st).value);
            && (st.free != [] ==> i == st.free[0] && t.free == st.free[1..] && t.lru == st.lru + [i])
            && (st.free == [] ==> && LastNow(st.lru, t.lru, i) && t.free == []
                                  && exists p: nat :: FirstIdle(st, p) && st.lru[p] == i)
  {
    hide FirstIdle;
    VictimIs(st);
    VictimAt(st);
    var i := Victim(st).value;
    if st.free != [] {
      FreeHead(st);
    } else {
      var p: nat :| p < |st.lru| && st.lru[p] == i && FirstIdle(st, p);
      assert i in st.lru;
      var p' := PlaceOf(st, i);
    }
  }

  /** A hit on block b: from wherever it was to the end. */
  lemma TouchOrder(st: Store, i: nat, b: nat)
    requires Ok(st) && Owns(st, i, b)
    ensures Ok(Touch(st, i))
    ensures exists p: nat :: HitAt(st, b, p, Order(Touch(st, i)))
  {
    hide Ok, Coherent, Blocks, Home;
    TouchKeeps(st, i);
    var t := Touch(st, i);
    var p := PlaceOf(st, i);
    TakenOrder(st, t, p, i, b);
    assert Order(st)[p] == b;
    assert HitAt(st, b, p, Order(t));
  }

  /** The slot taken by a miss: the first free one, or else the first that nobody holds. */
  lemma VictimAt(st: Store)
    requires Ok(st) && Victim(st).Some?
    ensures st.free != [] ==> Victim(st).value == st.free[0]
    ensures st.free == [] ==>
              exists p: nat :: p < |st.lru| && st.lru[p] == Victim(st).value && FirstIdle(st, p)
  {
    if st.free == [] {
      LruBound(st);
      FirstUnheldAt(st.slots, st.lru);
      var p: nat :| p < |st.lru| && st.lru[p] == Victim(st).value && FirstFree(st.slots, st.lru, p);
      assert FirstIdle(st, p);
    }
  }

  ghost predicate FirstFree(slots: seq<Slot>, q: seq<nat>, p: nat)
  {
    && p < |q| && (forall j :: 0 <= j < |q| ==> q[j] < |slots|) && slots[q[p]].refs == 0
    && forall j :: 0 <= j < p ==> slots[q[j]].refs > 0
  }

  ghost predicate FirstIdle(st: Store, p: nat)
  {
    FirstFree(st.slots, st.lru, p)
  }

  lemma {:induction false} FirstUnheldAt(slots: seq<Slot>, q: seq<nat>)
    requires forall j :: 0 <= j < |q| ==> q[j] < |slots|
    requires FirstUnheld(slots, q).Some?
    ensures exists p: nat :: p < |q| && q[p] == FirstUnheld(slots, q).value && FirstFree(slots, q, p)
  {
    if slots[q[0]].refs == 0 {
      assert FirstFree(slots, q, 0);
    } else {
      FirstUnheldAt(slots, q[1..]);
      var p: nat :| p < |q[1..]| && q[1..][p] == FirstUnheld(slots, q[1..]).value && FirstFree(slots, q[1..], p);
      assert q[p + 1] == FirstUnheld(slots, q).value;
      assert forall j :: 0 < j < p + 1 ==> q[j] == q[1..][j - 1];
      assert FirstFree(slots, q, p + 1);
    }
  }

  /** A miss on block b: the new block goes to the end, in a free slot or in place of the first that nobody holds. */
  lemma FilledOrder(st: Store, b: nat, dirty: bool, data: Block)
    requires Ok(st) && Victim(st).Some? && Victim(st).value < |st.slots| && b < |st.dev| && Home(st, b) == None
    requires |data| == st.size
    ensures Ok(Filled(st, Victim(st).value, b, dirty, data))
    ensures st.free != [] ==> Order(Filled(st, Victim(st).value, b, dirty, data)) == Order(st) + [b]
    ensures st.free == [] ==>
              exists p: nat :: EvictsAt(st, b, p, Order(Filled(st, Victim(st).value, b, dirty, data)))
  {
    hide Ok, Coherent, Blocks, Home, Victim, Filled, FirstIdle;
    var i := Victim(st).value;
    FilledKeeps(st, i, b, dirty, data);
    FilledParts(st, i, b, dirty, data);
    VictimAt(st);
    var t := Filled(st, i, b, dirty, data);
    if st.free != [] {
      FreeHead(st);
      AddedOrder(st, t, i, b);
    } else {
      var p: nat :| p < |st.lru| && st.lru[p] == i && FirstIdle(st, p);
      assert i in st.lru;
      var p' := PlaceOf(st, i);
      SamePlace(st, p, p');
      TakenOrder(st, t, p, i, b);
      assert EvictsAt(st, b, p, Order(t));
    }
  }

  lemma SamePlace(st: Store, p: nat, p': nat)
    requires Ok(st) && p < |st.lru| && p' < |st.lru| && st.lru[p] == st.lru[p']
    ensures p == p'
  {
  }

  lemma FilledParts(st: Store, i: nat, b: nat, dirty: bool, data: Block)
    requires i < |st.slots|
    ensures var t := Filled(st, i, b, dirty, data);
            && t.lru == ToTail(st.lru, i) && |t.slots| == |st.slots| && t.slots[i].blocknum == b
            && forall j :: 0 <= j < |st.slots| && j != i ==> t.slots[j].blocknum == st.slots[j].blocknum
  {
  }

  lemma AddedOrder(st: Store, t: Store, i: nat, b: nat)
    requires Ok(st) && Ok(t) && t.lru == st.lru + [i] && |t.slots| == |st.slots| && i < |st.slots| && i !in st.lru
    requires t.slots[i].blocknum == b
    requires forall j :: 0 <= j < |st.slots| && j != i ==> t.slots[j].blocknum == st.slots[j].blocknum
    ensures Order(t) == Order(st) + [b]
  {
    hide Ok;
    LruBound(st);
    forall k | 0 <= k < |st.lru|
      ensures Order(t)[k] == Order(st)[k]
    {
      assert t.lru[k] == st.lru[k] && st.lru[k] in st.lru;
    }
  }

  lemma TakenOrder(st: Store, t: Store, p: nat, i: nat, b: nat)
    requires Ok(st) && Ok(t) && p < |st.lru| && st.lru[p] == i && |t.slots| == |st.slots|
    requires t.lru == st.lru[..p] + st.lru[p + 1..] + [i] && i < |st.slots| && t.slots[i].blocknum == b
    requires forall j :: 0 <= j < |st.slots| && j != i ==> t.slots[j].blocknum == st.slots[j].blocknum
    ensures Order(t) == Moved(Order(st), p, b)
  {
    LruBound(st);
    forall k | 0 <= k < |st.lru|
      ensures Order(t)[k] == Moved(Order(st), p, b)[k]
    {
      assert t.lru[k] == if k < p then st.lru[k] else if k < |st.lru| - 1 then st.lru[k + 1] else i;
      assert NoDup(st.lru);
    }
  }

  // ---------- what a step does to the order ----------

  /** The block of op goes to the end from position p. */
  ghost predicate HitAt(st: Store, b: nat, p: nat, q: seq<nat>)
    requires Ok(st)
  {
    p < |st.lru| && Order(st)[p] == b && q == Moved(Order(st), p, b)
  }

  /** It goes to the end in place of the block at position p, the first that nobody holds. */
  ghost predicate EvictsAt(st: Store, b: nat, p: nat, q: seq<nat>)
    requires Ok(st)
  {
    p < |st.lru| && FirstIdle(st, p) && q == Moved(Order(st), p, b)
  }

  /** How the order changes with op. */
  ghost predicate Reorders(st: Store, op: Op, q: seq<nat>)
    requires Ok(st)
  {
    if op.Write? || op.Flush? then q == Order(st)
    else if Cached(st, op.block) then exists p: nat :: HitAt(st, op.block, p, q)
    else if op.Put? || op.MarkDirty? || !Room(st, op.block) then q == Order(st)
    else if st.free != [] then q == Order(st) + [op.block]
    else exists p: nat :: EvictsAt(st, op.block, p, q)
  }

  lemma FillOrder(st: Store, b: nat)
    requires Ok(st) && b < |st.dev| && Room(st, b)
    ensures Ok(DoFill(st, b)) && Reorders(st, Read(b), Order(DoFill(st, b)))
  {
    hide Coherent, Blocks, HitAt, EvictsAt;
    HomeIs(st, b);
    if Home(st, b).Some? {
      TouchOrder(st, Home(st, b).value, b);
    } else {
      VictimIs(st);
      FilledOrder(st, b, false, st.dev[b]);
    }
  }

  lemma LookOrder(st: Store, b: nat)
    requires Ok(st)
    ensures Ok(Looked(st, b)) && Reorders(st, MarkDirty(b), Order(Looked(st, b)))
  {
    hide Coherent, Blocks, HitAt, EvictsAt;
    HomeIs(st, b);
    if Home(st, b).Some? {
      TouchOrder(st, Home(st, b).value, b);
    }
  }

  /** A change to a slot that keeps its block number. */
  lemma AlterOrder(st: Store, b: nat, f: Slot -> Slot)
    requires Ok(st) && Ok(Alter(st, b, f)) && forall s :: f(s).blocknum == s.blocknum
    ensures Order(Alter(st, b, f)) == Order(st)
  {
    LruBound(st);
    OrderSame(st, Alter(st, b, f));
  }

  lemma AlteredOrder(st: Store, t: Store, op: Op, f: Slot -> Slot)
    requires Ok(st) && Ok(t) && !op.Write? && !op.Flush? && Ok(Alter(t, op.block, f))
    requires Reorders(st, op, Order(t)) && forall s :: f(s).blocknum == s.blocknum
    ensures Reorders(st, op, Order(Alter(t, op.block, f)))
  {
    hide Reorders;
    AlterOrder(t, op.block, f);
  }

  lemma ZeroOrder(st: Store, b: nat)
    requires Ok(st) && b < |st.dev|
    ensures Ok(DoZero(st, b)) && Reorders(st, Zero(b), Order(DoZero(st, b)))
  {
    hide Coherent, Blocks, HitAt, EvictsAt;
    ZeroKeeps(st, b);
    HomeIs(st, b);
    if Home(st, b).Some? {
      var i := Home(st, b).value;
      TouchOrder(st, i, b);
      AlterOrder(Touch(st, i), b, (s: Slot) => s.(data := Zeros(st.size), dirty := true));
    } else if Victim(st).Some? {
      VictimIs(st);
      FilledOrder(st, b, true, Zeros(st.size));
    }
  }

  lemma FlushOrder(st: Store)
    requires Ok(st)
    ensures Ok(DoFlush(st)) && Order(DoFlush(st)) == Order(st)
  {
    LruBound(st);
    FlushedIs(st, |st.lru|);
    assert st.lru[..|st.lru|] == st.lru;
    OrderSame(st, DoFlush(st));
  }

  lemma NextOrder(st: Store, op: Op)
    requires Ok(st) && Enabled(st, op)
    ensures Ok(Next(st, op)) && Reorders(st, op, Order(Next(st, op)))
  {
    hide Ok, DoFill, Looked, DoZero, DoFlush, Alter, Order, Reorders;
    NextOk(st, op);
    match op
    case Read(b) => FillOrder(st, b);
    case Get(b) =>
      FillOrder(st, b);
      LikeRead(st, op, Order(DoFill(st, b)));
      AlteredOrder(st, DoFill(st, b), op, (s: Slot) => s.(refs := s.refs + 1));
    case Put(b) =>
      LookOrder(st, b);
      LikeMark(st, op, Order(Looked(st, b)));
      AlteredOrder(st, Looked(st, b), op, (s: Slot) => s.(refs := if s.refs > 0 then s.refs - 1 else 0));
    case MarkDirty(b) =>
      LookOrder(st, b);
      AlteredOrder(st, Looked(st, b), op, (s: Slot) => s.(dirty := true));
    case Zero(b) => ZeroOrder(st, b);
    case Write(b, d) =>
      AlterOrder(st, b, (s: Slot) => s.(data := d));
      Unmoved(st, op);
    case Flush =>
      FlushOrder(st);
      Unmoved(st, op);
  }

  lemma LikeRead(st: Store, op: Op, q: seq<nat>)
    requires Ok(st) && op.Get? && Reorders(st, Read(op.block), q)
    ensures Reorders(st, op, q)
  {
  }

  lemma LikeMark(st: Store, op: Op, q: seq<nat>)
    requires Ok(st) && op.Put? && Reorders(st, MarkDirty(op.block), q)
    ensures Reorders(st, op, q)
  {
  }

  lemma Unmoved(st: Store, op: Op)
    requires Ok(st) && (op.Write? || op.Flush?)
    ensures Reorders(st, op, Order(st))
  {
  }

  // ---------- over whole runs ----------

  /** In the order of their last use. */
  ghost predicate ByUse(q: seq<nat>, ops: seq<Op>, k: nat)
    requires k <= |ops|
  {
    forall i, j :: 0 <= i < j < |q| ==> LastUse(ops, k, q[i]) < LastUse(ops, k, q[j])
  }

  lemma LastUseStep(ops: seq<Op>, k: nat, b: nat)
    requires 0 < k <= |ops|
    ensures LastUse(ops, k, b) == if Uses(ops[k - 1], b) then k - 1 else LastUse(ops, k - 1, b)
    ensures LastUse(ops, k - 1, b) < k - 1
  {
    LastUseBefore(ops, k - 1, b);
  }

  lemma UnusedByUse(q: seq<nat>, ops: seq<Op>, k: nat)
    requires 0 < k <= |ops| && ByUse(q, ops, k - 1) && forall x :: x in q ==> !Uses(ops[k - 1], x)
    ensures ByUse(q, ops, k)
  {
    hide LastUse;
    forall i, j | 0 <= i < j < |q|
      ensures LastUse(ops, k, q[i]) < LastUse(ops, k, q[j])
    {
      assert q[i] in q && q[j] in q;
      LastUseStep(ops, k, q[i]);
      LastUseStep(ops, k, q[j]);
    }
  }

  /** The block just used goes last. */
  lemma UsedByUse(q: seq<nat>, b: nat, ops: seq<Op>, k: nat)
    requires 0 < k <= |ops| && ByUse(q, ops, k - 1) && b !in q && Uses(ops[k - 1], b)
    ensures ByUse(q + [b], ops, k)
  {
    hide LastUse;
    forall x | x in q
      ensures !Uses(ops[k - 1], x)
    {
    }
    UnusedByUse(q, ops, k);
    forall i | 0 <= i < |q|
      ensures LastUse(ops, k, q[i]) < LastUse(ops, k, b)
    {
      assert q[i] in q;
      LastUseStep(ops, k, q[i]);
      LastUseStep(ops, k, b);
    }
  }

  lemma CutByUse(q: seq<nat>, p: nat, ops: seq<Op>, k: nat)
    requires k <= |ops| && p < |q| && ByUse(q, ops, k)
    ensures ByUse(q[..p] + q[p + 1..], ops, k)
  {
    hide LastUse;
    var r := q[..p] + q[p + 1..];
    forall i, j | 0 <= i < j < |r|
      ensures LastUse(ops, k, r[i]) < LastUse(ops, k, r[j])
    {
      assert r[i] == q[if i < p then i else i + 1] && r[j] == q[if j < p then j else j + 1];
    }
  }

  /** A block moved to the end that is nowhere else. */
  lemma MovedByUse(q: seq<nat>, p: nat, b: nat, ops: seq<Op>, k: nat)
    requires 0 < k <= |ops| && p < |q| && ByUse(q, ops, k - 1) && NoDup(q) && (q[p] == b || b !in q)
    requires Uses(ops[k - 1], b)
    ensures ByUse(Moved(q, p, b), ops, k)
  {
    hide LastUse, ByUse;
    CutByUse(q, p, ops, k - 1);
    UsedByUse(q[..p] + q[p + 1..], b, ops, k);
  }

  lemma StepByUse(s: Store, op: Op, q: seq<nat>, ops: seq<Op>, k: nat)
    requires Ok(s) && 0 < k <= |ops| && op == ops[k - 1] && ByUse(Order(s), ops, k - 1) && Reorders(s, op, q)
    requires op.Put? || op.MarkDirty? || op.Zero? || Enabled(s, op)
    ensures ByUse(q, ops, k)
  {
    hide Ok, Order, ByUse, Moved;
    if op.Write? || op.Flush? {
      UnusedByUse(q, ops, k);
    } else {
      OrderIs(s, op.block);
      if Cached(s, op.block) {
        var p: nat :| HitAt(s, op.block, p, q);
        MovedByUse(Order(s), p, op.block, ops, k);
      } else if op.Put? || op.MarkDirty? || !Room(s, op.block) {
        UnusedByUse(q, ops, k);
      } else if s.free != [] {
        UsedByUse(Order(s), op.block, ops, k);
      } else {
        var p: nat :| EvictsAt(s, op.block, p, q);
        MovedByUse(Order(s), p, op.block, ops, k);
      }
    }
  }

  /** At every point of a run the lru list is in the order of last use. */
  lemma {:induction false} RunByUse(trace: seq<Store>, ops: seq<Op>, k: nat)
    requires IsHistory(trace, ops) && k < |trace|
    ensures Ok(trace[k]) && ByUse(Order(trace[k]), ops, k)
  {
    hide Next, Order, Reorders;
    if k > 0 {
      RunByUse(trace, ops, k - 1);
      assert Follows(trace[k - 1], ops[k - 1], trace[k - 1 + 1]);
      NextOrder(trace[k - 1], ops[k - 1]);
      StepByUse(trace[k - 1], ops[k - 1], Order(trace[k]), ops, k);
    }
  }

  /** A block leaves the cache only when a miss finds no free slot; it is one that nobody holds, and of those the
      one whose last use is the oldest. */
  lemma OldestEvicted(trace: seq<Store>, ops: seq<Op>, k: nat, e: nat, c: nat)
    requires IsHistory(trace, ops) && k < |ops| && Cached(trace[k], e) && !Cached(trace[k + 1], e)
    ensures trace[k].free == [] && (ops[k].Read? || ops[k].Get? || ops[k].Zero?) && !Cached(trace[k], ops[k].block)
    ensures Pins(trace[k], e) == 0
    ensures Cached(trace[k], c) && Pins(trace[k], c) == 0 && c != e ==> LastUse(ops, k, e) < LastUse(ops, k, c)
  {
    hide Next, Order, LastUse, Ok, Cached;
    RunByUse(trace, ops, k);
    assert Follows(trace[k], ops[k], trace[k + 1]);
    NextOrder(trace[k], ops[k]);
    OrderIs(trace[k], e);
    OrderIs(trace[k + 1], e);
    var p := EvictedAt(trace[k], ops[k], Order(trace[k + 1]), e);
    IdleOldest(trace[k], p, c);
  }

  /** Who is no longer on the list was the first that nobody holds. */
  lemma EvictedAt(s: Store, op: Op, q: seq<nat>, e: nat) returns (p: nat)
    requires Ok(s) && Reorders(s, op, q) && e in Order(s) && e !in q && Enabled(s, op)
    ensures s.free == [] && (op.Read? || op.Get? || op.Zero?) && !Cached(s, op.block)
    ensures p < |s.lru| && FirstIdle(s, p) && Order(s)[p] == e
  {
    hide Ok, Order, Cached, FirstIdle;
    p := 0;
    if !op.Write? && !op.Flush? {
      if Cached(s, op.block) {
        var h: nat :| HitAt(s, op.block, h, q);
        OnlyMoved(Order(s), h, op.block, e);
      } else if !op.Put? && !op.MarkDirty? && Room(s, op.block) && s.free == [] {
        var h: nat :| EvictsAt(s, op.block, h, q);
        OnlyMoved(Order(s), h, op.block, e);
        p := h;
      }
    }
  }

  lemma OnlyMoved(q: seq<nat>, p: nat, b: nat, e: nat)
    requires p < |q| && e in q && e !in Moved(q, p, b)
    ensures q[p] == e && e != b
  {
    hide Moved;
    var i: nat :| i < |q| && q[i] == e;
    StillThere(q, p, b, i);
  }

  lemma StillThere(q: seq<nat>, p: nat, b: nat, i: nat)
    requires p < |q| && i < |q|
    ensures b in Moved(q, p, b) && (i != p ==> q[i] in Moved(q, p, b))
  {
    assert Moved(q, p, b)[|q| - 1] == b;
    if i != p {
      assert Moved(q, p, b)[if i < p then i else i - 1] == q[i];
    }
  }

  /** Every other block that nobody holds comes after the first such block. */
  lemma IdleOldest(s: Store, p: nat, c: nat)
    requires Ok(s) && p < |s.lru| && FirstIdle(s, p)
    ensures Pins(s, Order(s)[p]) == 0
    ensures Cached(s, c) && Pins(s, c) == 0 && c != Order(s)[p] ==>
              exists j :: p < j < |s.lru| && Order(s)[j] == c
  {
    LruBound(s);
    assert s.lru[p] in s.lru && Owns(s, s.lru[p], Order(s)[p]);
    HomeIs(s, Order(s)[p]);
    if Cached(s, c) && Pins(s, c) == 0 && c != Order(s)[p] {
      HomeIs(s, c);
      var j :| 0 <= j < |s.lru| && s.lru[j] == Home(s, c).value;
      assert Order(s)[j] == c;
    }
  }

  /** A miss that finds no free slot evicts somebody, and caches its block. */
  lemma MissEvicts(trace: seq<Store>, ops: seq<Op>, k: nat) returns (e: nat)
    requires IsHistory(trace, ops) && k < |ops| && (ops[k].Read? || ops[k].Get? || ops[k].Zero?)
    requires !Cached(trace[k], ops[k].block) && trace[k].free == [] && Room(trace[k], ops[k].block)
    ensures Cached(trace[k], e) && !Cached(trace[k + 1], e) && Cached(trace[k + 1], ops[k].block)
  {
    hide Next, Order, LastUse, Ok, Cached;
    HistoryOk(trace, ops, k);
    assert Follows(trace[k], ops[k], trace[k + 1]);
    NextOrder(trace[k], ops[k]);
    var s, q, b := trace[k], Order(trace[k + 1]), ops[k].block;
    var p: nat :| EvictsAt(s, b, p, q);
    e := Order(s)[p];
    OrderIs(s, e);
    OrderIs(s, b);
    OrderIs(trace[k + 1], e);
    OrderIs(trace[k + 1], b);
    assert e in Order(s);
    MovedOut(Order(s), p, b);
  }

  lemma MovedOut(q: seq<nat>, p: nat, b: nat)
    requires p < |q| && NoDup(q) && b !in q
    ensures b in Moved(q, p, b) && q[p] !in Moved(q, p, b)
  {
    assert Moved(q, p, b)[|q| - 1] == b;
    assert q[p] in q;
  }
}
