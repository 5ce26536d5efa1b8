/** The functions of lib/bcache/bcache.c on a cache object, proved against the steps of BcacheOps. */
module BcacheCode {
  import opened Wrappers
  import opened Lists
  import opened Octets
  import opened Bcache
  import opened BcacheOps
  import opened BcacheLru

  class Cache {
    const blockSize: nat
    var slots: seq<Slot>
    var freeList: seq<nat>
    var lruList: seq<nat>
    var dev: seq<Block>

    function Snap(): Store
      reads this
    {
      Store(blockSize, slots, freeList, lruList, dev)
    }

    ghost predicate Valid()
      reads this
    {
      Ok(Snap())
    }

    /** raw is whatever the allocator left in the slots and their buffers. */
    constructor (disk: seq<Block>, size: nat, raw: seq<Slot>)
      requires forall b :: 0 <= b < |disk| ==> |disk[b]| == size
      requires forall i :: 0 <= i < |raw| ==> |raw[i].data| == size
      ensures Valid() && Coherent(Snap()) && dev == disk && blockSize == size && |slots| == |raw|
      ensures Blocks(Snap()) == disk && lruList == []
    {
      blockSize, dev, slots, freeList, lruList := size, disk, raw, [], [];
      new;
      var i: nat := 0;
      while i < |slots|
        invariant i <= |slots| == |raw| && lruList == [] && dev == disk && |freeList| == i
        invariant NoDup(freeList) && forall j :: j in freeList <==> 0 <= j < i
        invariant forall j :: 0 <= j < |slots| ==> |slots[j].data| == size
        invariant forall j :: 0 <= j < i ==> slots[j].refs == 0 && !slots[j].dirty
      {
        slots := slots[i := slots[i].(refs := 0, dirty := false)];
        NoDupAdd(freeList, i);
        freeList := [i] + freeList;
        i := i + 1;
      }
    }

    /** flush_block, with the device accepting the write. */
    method FlushBlock(i: nat)
      requires Valid() && i in lruList && slots[i].dirty
      modifies this
      ensures Snap() == Cleaned(old(Snap()), i) && Valid()
    {
      CleanedOk(Snap(), i);
      var s := slots[i];
      dev := dev[s.blocknum := s.data];
      slots := slots[i := s.(dirty := false)];
    }

    method FindBlock(b: nat) returns (r: Option<nat>)
      requires Valid()
      modifies this
      ensures r == Home(old(Snap()), b) && Snap() == Looked(old(Snap()), b) && Valid()
      ensures r.None? ==> lruList == old(lruList) && forall i :: i in lruList ==> slots[i].blocknum != b
      ensures r.Some? ==> && r.value < |slots| && slots[r.value].blocknum == b
                          && LastNow(old(lruList), lruList, r.value)
      ensures slots == old(slots) && freeList == old(freeList) && dev == old(dev)
    {
      hide LastNow, View, Blocks, Coherent;
      FoundLast(Snap(), b);
      LookedKeeps(Snap(), b);
      HomeIs(Snap(), b);
      var k: nat := 0;
      while k < |lruList|
        invariant k <= |lruList| && Snap() == old(Snap())
        invariant Home(Snap(), b) == Find(slots, lruList[k..], b)
      {
        var i := lruList[k];
        assert i in lruList;
        if slots[i].blocknum == b {
          lruList := Without(lruList, i) + [i];
          return Some(i);
        }
        assert lruList[k..][1..] == lruList[k + 1..];
        k := k + 1;
      }
      return None;
    }

    /** alloc_block: the slot is still to be given its block. */
    method AllocBlock() returns (r: Option<nat>)
      requires Valid()
      modifies this
      ensures r == Victim(old(Snap()))
      ensures r.Some? ==> r.value < |old(slots)| && Snap() == Taken(old(Snap()), r.value)
      ensures r.None? ==> Snap() == old(Snap())
      ensures r.Some? && old(freeList) != [] ==>
                && r.value == old(freeList)[0] && freeList == old(freeList)[1..]
                && lruList == old(lruList) + [r.value]
      ensures r.Some? && old(freeList) == [] ==>
                && LastNow(old(lruList), lruList, r.value) && freeList == []
                && exists p: nat :: FirstIdle(old(Snap()), p) && old(lruList)[p] == r.value
    {
      hide Ok, FirstIdle, LastNow;
      if Victim(Snap()).Some? {
        TakenLast(Snap());
      }
      VictimIs(Snap());
      LruInside(Snap());
      if freeList != [] {
        var i: nat := freeList[0];
        FreeHead(Snap());
        freeList := freeList[1..];
        slots := slots[i := slots[i].(refs := 0)];
        lruList := lruList + [i];
        return Some(i);
      }
      var k: nat := 0;
      while k < |lruList|
        invariant k <= |lruList| && Snap() == old(Snap())
        invariant Victim(Snap()) == FirstUnheld(slots, lruList[k..])
      {
        var i := lruList[k];
        assert i in lruList;
        if slots[i].refs == 0 {
          if slots[i].dirty {
            FlushBlock(i);
          }
          lruList := Without(lruList, i) + [i];
          return Some(i);
        }
        assert lruList[k..][1..] == lruList[k + 1..];
        k := k + 1;
      }
      return None;
    }

    /** find_or_fill_block, with the device answering the read. */
    method FindOrFill(b: nat) returns (i: nat)
      requires Valid() && b < |dev| && Room(Snap(), b)
      modifies this
      ensures Snap() == DoFill(old(Snap()), b) && Valid() && Home(Snap(), b) == Some(i)
    {
      hide FirstIdle, LastNow, Find;
      ghost var was := Snap();
      NextOk(was, Read(b));
      var r := FindBlock(b);
      if r.None? {
        TakenFilled(was, Victim(was).value, b, false, dev[b]);
        FilledKeeps(was, Victim(was).value, b, false, dev[b]);
        r := AllocBlock();
        i := r.value;
        slots := slots[i := slots[i].(blocknum := b)];
        slots := slots[i := slots[i].(data := dev[b])];
        assert slots == Taken(was, i).slots[i := Slot(b, 0, false, was.dev[b])];
      } else {
        Hit(was, b);
        i := r.value;
      }
    }

    method ReadBlock(b: nat) returns (buf: Block)
      requires Valid() && Enabled(Snap(), Read(b))
      modifies this
      ensures Snap() == Next(old(Snap()), Read(b)) && Valid()
      ensures old(Coherent(Snap())) ==> buf == old(Blocks(Snap()))[b]
    {
      FillShows(Snap(), b);
      var i := FindOrFill(b);
      buf := slots[i].data;
    }

    /** The pointer handed out is the number of the slot. */
    method GetBlock(b: nat) returns (i: nat)
      requires Valid() && Enabled(Snap(), Get(b))
      modifies this
      ensures Snap() == Next(old(Snap()), Get(b)) && Valid()
      ensures Home(Snap(), b) == Some(i) && i < |slots|
      ensures old(Coherent(Snap())) ==> slots[i].data == old(Blocks(Snap()))[b]
    {
      NextOk(Snap(), Get(b));
      FillShows(Snap(), b);
      GetShows(Snap(), b);
      i := FindOrFill(b);
      slots := slots[i := slots[i].(refs := slots[i].refs + 1)];
    }

    method PutBlock(b: nat)
      requires Valid() && Enabled(Snap(), Put(b))
      modifies this
      ensures Snap() == Next(old(Snap()), Put(b)) && Valid()
    {
      hide LastNow, Find;
      NextOk(Snap(), Put(b));
      Hit(Snap(), b);
      var r := FindBlock(b);
      var i := r.value;
      slots := slots[i := slots[i].(refs := slots[i].refs - 1)];
    }

    method MarkBlockDirty(b: nat) returns (ok: bool)
      requires Valid()
      modifies this
      ensures Snap() == Next(old(Snap()), MarkDirty(b)) && Valid()
      ensures ok <==> old(Home(Snap(), b)).Some?
    {
      hide LastNow, Find;
      ghost var was := Snap();
      NextOk(was, MarkDirty(b));
      var r := FindBlock(b);
      if r.None? {
        return false;
      }
      Hit(was, b);
      slots := slots[r.value := slots[r.value].(dirty := true)];
      return true;
    }

    method ZeroBlock(b: nat) returns (ok: bool)
      requires Valid() && b < |dev|
      modifies this
      ensures Snap() == Next(old(Snap()), Zero(b)) && Valid()
      ensures ok <==> old(Room(Snap(), b))
    {
      hide Ok, FirstIdle, LastNow, Victim, Find;
      ghost var was := Snap();
      NextOk(was, Zero(b));
      var r := FindBlock(b);
      if r.None? {
        r := AllocBlock();
        if r.None? {
          return false;
        }
        TakenFilled(was, r.value, b, true, Zeros(blockSize));
        slots := slots[r.value := slots[r.value].(blocknum := b)];
      } else {
        Hit(was, b);
      }
      ghost var mid := slots;
      var s := slots[r.value].(data := Zeros(blockSize));
      slots := slots[r.value := s];
      slots := slots[r.value := s.(dirty := true)];
      assert slots == mid[r.value := s.(dirty := true)];
      return true;
    }

    /** bcache_flush, with the device accepting every write. */
    method FlushAll()
      requires Valid()
      modifies this
      ensures Snap() == Next(old(Snap()), Flush) && Valid()
    {
      ghost var was := Snap();
      LruBound(was);
      NextOk(was, Flush);
      var k: nat := 0;
      while k < |lruList|
        invariant k <= |lruList| && lruList == was.lru
        invariant Snap() == FlushedTo(was, k) && Valid()
      {
        FlushOne(k, was);
        k := k + 1;
      }
    }

    /** One turn of the flush loop. */
    method FlushOne(k: nat, ghost was: Store)
      requires Ok(was) && k < |was.lru| && forall j :: 0 <= j < |was.lru| ==> was.lru[j] < |was.slots|
      requires Valid() && Snap() == FlushedTo(was, k)
      modifies this
      ensures Valid() && Snap() == FlushedTo(was, k + 1)
    {
      var i := lruList[k];
      assert i in lruList;
      if slots[i].dirty {
        FlushBlock(i);
      }
    }
  }
}
