/** The default byte-level read and write of lib/bio/bio.c over the block hooks of a device. */
module BioCode {
  import opened Arith
  import opened Lists
  import opened Octets
  import opened Align
  import opened Bio

  datatype Result = Done(bytes: nat) | Failed | Overrun

  /** The calls one transfer makes to the driver: for a partial first block, for the middle from a block on, and
      for a partial last block. */
  datatype Call = HeadRead | HeadWrite | Middle(block: nat) | TailRead | TailWrite

  /** n blocks of bs bytes. */
  function Bytes(n: nat, bs: nat): nat
  {
    if n == 0 then 0 else Bytes(n - 1, bs) + bs
  }

  lemma {:induction false} BytesIs(n: nat, bs: nat)
    ensures Bytes(n, bs) == n * bs
  {
    if n > 0 {
      BytesIs(n - 1, bs);
      assert n * bs == (n - 1) * bs + bs;
    }
  }

  lemma {:induction false} BytesAdd(a: nat, b: nat, bs: nat)
    ensures Bytes(a + b, bs) == Bytes(a, bs) + Bytes(b, bs)
  {
    if b > 0 {
      BytesAdd(a, b - 1, bs);
    }
  }

  /** A power of two below 2^32 divides 2^32. */
  lemma SizeDivides(shift: nat)
    requires shift < 32
    ensures 0 < Pow2(shift) < WORD && WORD % Pow2(shift) == 0
  {
    assert Pow2(32) == WORD by {
      assert Pow2(8) == 256;
      assert Pow2(16) == 0x1_0000 by { assert Pow2(12) == 4096; }
      assert Pow2(24) == 0x100_0000 by { assert Pow2(20) == 0x10_0000; }
      assert Pow2(28) == 0x1000_0000;
    }
    Pow2Divides(shift, 32);
    Pow2Grows(shift, 32);
  }

  class BlockDevice {
    const blockShift: nat
    const blockSize: nat
    const blockCount: nat
    var image: seq<Byte>

    ghost predicate Valid()
      reads this
    {
      && blockShift < 32 && blockSize == Pow2(blockShift) && blockCount < WORD
      && |image| == Bytes(blockCount, blockSize) && |image| < SIGNED
    }

    constructor (shift: nat, img: seq<Byte>, count: nat)
      requires shift < 32 && count < WORD && |img| == Bytes(count, Pow2(shift)) && |img| < SIGNED
      ensures Valid() && blockShift == shift && blockCount == count && image == img
    {
      blockShift, blockSize, blockCount, image := shift, Pow2(shift), count, img;
    }

    /** bio_read_block of n blocks at byte position pos; works is the driver's answer. */
    method ReadBlock(block: nat, n: nat, works: bool, ghost pos: nat, ghost size: nat) returns (ok: bool, d: seq<Byte>)
      requires Valid() && pos == Bytes(block, blockSize) && size == Bytes(n, blockSize) && pos + size <= |image|
      ensures ok == works && (ok ==> d == image[pos..pos + size])
    {
      if !works {
        return false, [];
      }
      return true, image[Bytes(block, blockSize)..Bytes(block, blockSize) + Bytes(n, blockSize)];
    }

    method WriteBlock(block: nat, n: nat, d: seq<Byte>, works: bool, ghost pos: nat) returns (ok: bool)
      requires Valid() && pos == Bytes(block, blockSize) && |d| == Bytes(n, blockSize) && pos + |d| <= |image|
      modifies this
      ensures Valid() && ok == works
      ensures image == if ok then Patch(old(image), pos, d) else old(image)
    {
      if !works {
        return false;
      }
      image := Patch(image, Bytes(block, blockSize), d);
      return true;
    }

    /** Where a transfer stands: done bytes have been moved and len are left, from block on. */
    ghost predicate At(from: nat, done: nat, len: nat, total: nat, block: nat)
      reads this
    {
      Valid() && done + len == total && from + total <= |image| && (len > 0 ==> from + done == Bytes(block, blockSize))
    }

    /** Block `block` begins at byte pos, and inBlock is a place in it. */
    ghost predicate Starts(block: nat, inBlock: nat, pos: nat)
      reads this
    {
      && Valid() && inBlock < blockSize && pos == Bytes(block, blockSize)
      && pos + blockSize <= |image|
    }

    /** The block an access starts in, as the code computes it, and the place inside the block. */
    method Split(offset: nat, len: nat) returns (block: nat, inBlock: nat, ghost pos: nat)
      requires Valid() && len > 0 && Landing(offset) + len <= |image|
      ensures Starts(block, inBlock, pos) && pos + inBlock == Landing(offset) && inBlock == offset % blockSize
    {
      SizeDivides(blockShift);
      block, inBlock := offset % WORD / blockSize, offset % blockSize;
      pos := Bytes(block, blockSize);
      BytesIs(block, blockSize);
      LandingBlock(offset, blockSize);
      WholeBlock(blockSize, blockCount, block, inBlock);
    }

    /** The first block, when the access starts inside it. */
    method ReadHead(start: nat, inBlock: nat, len: nat, works: bool, ghost pos: nat)
      returns (ok: bool, d: seq<Byte>, block: nat)
      requires Starts(start, inBlock, pos) && len > 0 && pos + inBlock + len <= |image|
      ensures ok ==> |d| == HeadLen(inBlock, len, blockSize) && d == image[pos + inBlock..pos + inBlock + |d|]
                     && At(pos + inBlock, |d|, len - |d|, len, block)
      ensures works ==> ok
    {
      block, d := start, [];
      if inBlock != 0 {
        var temp;
        ok, temp := ReadBlock(block, 1, works, pos, blockSize);
        if !ok {
          return;
        }
        var n := Min(blockSize - inBlock, len);
        d := temp[inBlock..inBlock + n];
        SubSlice(image, pos, blockSize, inBlock, n);
        block := block + 1;
      }
      ok := true;
    }

    /** Whole blocks in the middle, one at a time through the bounce buffer. */
    method ReadEach(ghost from: nat, total: nat, done: seq<Byte>, first: nat, works: Call -> bool)
      returns (ok: bool, d: seq<Byte>, block: nat)
      requires |done| <= total && At(from, |done|, total - |done|, total, first)
      requires done == image[from..from + |done|]
      ensures ok ==> |done| <= |d| <= total && total - |d| < blockSize
                     && At(from, |d|, total - |d|, total, block) && d == image[from..from + |d|]
      ensures (forall c :: works(c)) ==> ok
    {
      d, block := done, first;
      while total - |d| >= blockSize
        invariant |done| <= |d| <= total && At(from, |d|, total - |d|, total, block) && d == image[from..from + |d|]
        decreases total - |d|
      {
        ghost var pos := from + |d|;
        var temp;
        ok, temp := ReadBlock(block, 1, works(Middle(block)), pos, blockSize);
        if !ok {
          return;
        }
        JoinSlices(image, from, pos, blockSize);
        d := d + temp;
        block := block + 1;
      }
      ok := true;
    }

    /** How many whole blocks, and bytes, of len the middle transfer moves. */
    method CountBlocks(ghost first: nat, len: nat) returns (num: nat, size: nat)
      requires Valid()
      ensures size == Bytes(num, blockSize) && size <= len && (len - size > blockSize <==> len >= WORD)
      ensures Bytes(first + num, blockSize) == Bytes(first, blockSize) + size
    {
      SizeDivides(blockShift);
      num := len % WORD / blockSize;
      size := Bytes(num, blockSize);
      BytesIs(num, blockSize);
      BytesAdd(first, num, blockSize);
      ManyFacts(blockSize, len);
    }

    /** Whole blocks in the middle, in one call; the count is taken from the low 32 bits of the length. */
    method ReadMany(ghost from: nat, total: nat, done: seq<Byte>, first: nat, works: bool)
      returns (ok: bool, d: seq<Byte>, block: nat)
      requires |done| <= total && At(from, |done|, total - |done|, total, first)
      requires done == image[from..from + |done|]
      ensures ok ==> |done| <= |d| <= total && At(from, |d|, total - |d|, total, block) && d == image[from..from + |d|]
      ensures ok ==> (total - |d| > blockSize <==> total - |done| >= WORD)
      ensures works ==> ok
    {
      var len := total - |done|;
      var num, size := CountBlocks(first, len);
      d, block := done, first;
      if num > 0 {
        ghost var pos := from + |done|;
        var data;
        ok, data := ReadBlock(block, num, works, pos, size);
        if !ok {
          return;
        }
        JoinSlices(image, from, pos, size);
        d := d + data;
        block := block + num;
      }
      ok := true;
    }

    /** The last block, when the access ends inside it; more than a block left would run past the buffer. */
    method ReadTail(ghost from: nat, total: nat, done: seq<Byte>, block: nat, works: bool)
      returns (r: Result, d: seq<Byte>)
      requires |done| <= total && At(from, |done|, total - |done|, total, block)
      requires done == image[from..from + |done|]
      ensures r.Done? ==> r.bytes == total && d == image[from..from + total]
      ensures r.Overrun? ==> total - |done| > blockSize
      ensures works && total - |done| <= blockSize ==> r.Done?
      ensures works && total - |done| > blockSize ==> r.Overrun?
    {
      d := done;
      var len := total - |done|;
      if len > 0 {
        ghost var pos := from + |done|;
        WholeBlock(blockSize, blockCount, block, 0);
        var ok, temp := ReadBlock(block, 1, works, pos, blockSize);
        if !ok {
          return Failed, d;
        }
        if len > blockSize {
          return Overrun, d;
        }
        SubSlice(image, pos, blockSize, 0, len);
        assert temp[..len] == temp[0..len];
        JoinSlices(image, from, pos, len);
        d := d + temp[..len];
      }
      return Done(total), d;
    }

    /** bio_default_read of a range the caller has trimmed. bounce: the buffer is not aligned as the driver wants;
        works: how the driver answers each of its calls. */
    method DefaultRead(offset: nat, len: nat, bounce: bool, works: Call -> bool) returns (r: Result, d: seq<Byte>)
      requires Valid() && len > 0 && offset + len <= |image|
      ensures r.Done? ==> r.bytes == len && d == image[Landing(offset)..Landing(offset) + len]
      ensures (forall c :: works(c)) ==>
                if !bounce && len - HeadLen(offset % blockSize, len, blockSize) >= WORD then r.Overrun? else r.Done?
    {
      hide Landing, Bytes;
      LandingIs(offset);
      ghost var from := Landing(offset);
      var first, inBlock, pos := Split(offset, len);
      var ok, block;
      ok, d, block := ReadHead(first, inBlock, len, works(HeadRead), pos);
      if !ok {
        return Failed, d;
      }
      if bounce {
        ok, d, block := ReadEach(from, len, d, block, works);
      } else {
        ok, d, block := ReadMany(from, len, d, block, works(Middle(block)));
      }
      if !ok {
        return Failed, d;
      }
      r, d := ReadTail(from, len, d, block, works(TailRead));
    }

    /** So far the image has the first `done` bytes of buf, and nothing else has changed. */
    ghost predicate Wrote(was: seq<Byte>, from: nat, buf: seq<Byte>, done: nat)
      reads this
    {
      Valid() && done <= |buf| && from + |buf| <= |was| && image == Patch(was, from, buf[..done])
    }

    /** Read-modify-write of the part of one block that starts at `inside`. */
    method Update(block: nat, inside: nat, d: seq<Byte>, readable: bool, writable: bool, ghost pos: nat)
      returns (ok: bool)
      requires Valid() && pos == Bytes(block, blockSize) && pos + blockSize <= |image| && inside + |d| <= blockSize
      modifies this
      ensures Valid() && ok == (readable && writable)
      ensures image == if ok then Patch(old(image), pos + inside, d) else old(image)
    {
      var temp;
      ok, temp := ReadBlock(block, 1, readable, pos, blockSize);
      if !ok {
        return;
      }
      BlockPatch(image, pos, blockSize, inside, d);
      temp := Patch(temp, inside, d);
      ok := WriteBlock(block, 1, temp, writable, pos);
    }

    method WriteHead(start: nat, inBlock: nat, buf: seq<Byte>, readable: bool, writable: bool, ghost pos: nat)
      returns (ok: bool, done: nat, block: nat)
      requires Starts(start, inBlock, pos) && buf != [] && pos + inBlock + |buf| <= |image|
      modifies this
      ensures Wrote(old(image), pos + inBlock, buf, done)
      ensures ok ==> At(pos + inBlock, done, |buf| - done, |buf|, block) && done == HeadLen(inBlock, |buf|, blockSize)
      ensures readable && writable ==> ok
    {
      block, done := start, 0;
      assert Patch(image, pos + inBlock, []) == image;
      if inBlock != 0 {
        var n := Min(blockSize - inBlock, |buf|);
        ok := Update(block, inBlock, buf[..n], readable, writable, pos);
        if !ok {
          return;
        }
        done := n;
        block := block + 1;
      }
      ok := true;
    }

    /** Write the next num whole blocks of buf. */
    method PutBlocks(ghost was: seq<Byte>, ghost from: nat, buf: seq<Byte>, start: nat, block: nat, num: nat, size: nat,
                     works: bool)
      returns (ok: bool)
      requires Wrote(was, from, buf, start) && start + size <= |buf| && size == Bytes(num, blockSize)
      requires from + start == Bytes(block, blockSize)
      modifies this
      ensures ok == works && Wrote(was, from, buf, if ok then start + size else start)
    {
      PatchNext(was, from, buf, start, size);
      ok := WriteBlock(block, num, buf[start..start + size], works, from + start);
    }

    method WriteEach(ghost was: seq<Byte>, ghost from: nat, buf: seq<Byte>, start: nat, first: nat, works: Call -> bool)
      returns (ok: bool, done: nat, block: nat)
      requires Wrote(was, from, buf, start) && At(from, start, |buf| - start, |buf|, first)
      modifies this
      ensures Wrote(was, from, buf, done)
      ensures ok ==> At(from, done, |buf| - done, |buf|, block) && |buf| - done < blockSize
      ensures (forall c :: works(c)) ==> ok
    {
      done, block := start, first;
      while |buf| - done >= blockSize
        invariant Wrote(was, from, buf, done) && At(from, done, |buf| - done, |buf|, block)
        decreases |buf| - done
      {
        ok := PutBlocks(was, from, buf, done, block, 1, blockSize, works(Middle(block)));
        if !ok {
          return;
        }
        done := done + blockSize;
        block := block + 1;
      }
      ok := true;
    }

    method WriteMany(ghost was: seq<Byte>, ghost from: nat, buf: seq<Byte>, start: nat, first: nat, works: bool)
      returns (ok: bool, done: nat, block: nat)
      requires Wrote(was, from, buf, start) && At(from, start, |buf| - start, |buf|, first)
      modifies this
      ensures Wrote(was, from, buf, done)
      ensures ok ==> At(from, done, |buf| - done, |buf|, block)
      ensures ok ==> (|buf| - done > blockSize <==> |buf| - start >= WORD)
      ensures works ==> ok
    {
      var len := |buf| - start;
      var num, size := CountBlocks(first, len);
      done, block := start, first;
      if num > 0 {
        ok := PutBlocks(was, from, buf, start, block, num, size, works);
        if !ok {
          return;
        }
        done := done + size;
        block := block + num;
      }
      ok := true;
    }

    method WriteTail(ghost was: seq<Byte>, ghost from: nat, buf: seq<Byte>, start: nat, block: nat,
                     readable: bool, writable: bool)
      returns (r: Result, ghost done: nat)
      requires Wrote(was, from, buf, start) && At(from, start, |buf| - start, |buf|, block)
      modifies this
      ensures Wrote(was, from, buf, done)
      ensures r.Done? ==> r.bytes == done == |buf|
      ensures r.Overrun? ==> |buf| - start > blockSize
      ensures readable && writable && |buf| - start <= blockSize ==> r.Done?
      ensures readable && |buf| - start > blockSize ==> r.Overrun?
    {
      done := start;
      var len := |buf| - start;
      if len > 0 {
        WholeBlock(blockSize, blockCount, block, 0);
        if len > blockSize {
          return if readable then Overrun else Failed, done;
        }
        PatchNext(was, from, buf, start, len);
        var ok := Update(block, 0, buf[start..start + len], readable, writable, from + start);
        if !ok {
          return Failed, done;
        }
        done := |buf|;
      }
      return Done(|buf|), done;
    }

    /** bio_default_write of a range the caller has trimmed: on every outcome the image has a prefix of buf at the
        landing place and is otherwise as it was. */
    method DefaultWrite(offset: nat, buf: seq<Byte>, bounce: bool, works: Call -> bool)
      returns (r: Result, ghost done: nat)
      requires Valid() && buf != [] && offset + |buf| <= |image|
      modifies this
      ensures Valid() && done <= |buf| && Landing(offset) + |buf| <= |old(image)|
      ensures image == Patch(old(image), Landing(offset), buf[..done])
      ensures r.Done? ==> r.bytes == done == |buf|
      ensures (forall c :: works(c)) ==>
                if !bounce && |buf| - HeadLen(offset % blockSize, |buf|, blockSize) >= WORD then r.Overrun? else r.Done?
    {
      LandingIs(offset);
      ghost var was, from := image, Landing(offset);
      var first, inBlock, pos := Split(offset, |buf|);
      var ok, n, block := WriteHead(first, inBlock, buf, works(HeadRead), works(HeadWrite), pos);
      if !ok {
        return Failed, n;
      }
      if bounce {
        ok, n, block := WriteEach(was, from, buf, n, block, works);
      } else {
        ok, n, block := WriteMany(was, from, buf, n, block, works(Middle(block)));
      }
      if !ok {
        return Failed, n;
      }
      r, done := WriteTail(was, from, buf, n, block, works(TailRead), works(TailWrite));
    }

    /** What an access of n bytes that lie on the device comes to with a driver that does not fail. */
    function Outcome(offset: int, n: nat, bounce: bool): Result
      requires Valid() && (n > 0 ==> offset >= 0)
      reads this
    {
      SizeDivides(blockShift);
      if n > 0 && !bounce && n - HeadLen(offset % blockSize, n, blockSize) >= WORD then Overrun else Done(n)
    }

    /** bio_read: what is on the device of [offset, offset + len). */
    method Read(offset: int, len: nat, bounce: bool, works: Call -> bool) returns (r: Result, d: seq<Byte>)
      requires Valid() && -SIGNED <= offset < SIGNED && len < WORD64
      requires 0 <= offset < |image| ==> offset + len < SIGNED
      ensures r.Done? ==> r.bytes == Clip(|image|, offset, len)
      ensures r.Done? && r.bytes == 0 ==> d == []
      ensures r.Done? && r.bytes > 0 ==> d == image[Landing(offset)..Landing(offset) + r.bytes]
      ensures r.Done? && r.bytes > 0 && offset < WORD ==> d == image[offset..offset + r.bytes]
      ensures (forall c :: works(c)) ==> r == Outcome(offset, Clip(|image|, offset, len), bounce)
    {
      TrimIs(|image|, offset, len);
      var n := Trim(|image|, offset, len);
      if n == 0 {
        return Done(0), [];
      }
      LandingIs(offset);
      r, d := DefaultRead(offset, n, bounce, works);
    }

    /** bio_write: the part of buf that fits on the device. */
    method Write(offset: int, buf: seq<Byte>, bounce: bool, works: Call -> bool) returns (r: Result, ghost done: nat)
      requires Valid() && -SIGNED <= offset < SIGNED && |buf| < WORD64
      requires 0 <= offset < |image| ==> offset + |buf| < SIGNED
      modifies this
      ensures Valid() && done <= Clip(|image|, offset, |buf|) && |image| == |old(image)|
      ensures r.Done? ==> r.bytes == done == Clip(|image|, offset, |buf|)
      ensures done == 0 ==> image == old(image)
      ensures done > 0 ==> Landing(offset) + done <= |image| && image == Patch(old(image), Landing(offset), buf[..done])
      ensures done > 0 && offset < WORD ==> image == Patch(old(image), offset, buf[..done])
      ensures (forall c :: works(c)) ==> r == Outcome(offset, Clip(|image|, offset, |buf|), bounce)
    {
      TrimIs(|image|, offset, |buf|);
      var n := Trim(|image|, offset, |buf|);
      if n == 0 {
        return Done(0), 0;
      }
      LandingIs(offset);
      r, done := DefaultWrite(offset, buf[..n], bounce, works);
      assert buf[..n][..done] == buf[..done];
      assert Patch(old(image), Landing(offset), []) == old(image);
    }
  }

  /** A subdevice: blocks [start, start + count) of its parent, which are bytes [base, base + size). */
  class Subdevice {
    const parent: BlockDevice
    const start: nat
    const count: nat
    ghost const base: nat
    const size: nat

    ghost predicate Valid()
      reads this, parent
    {
      && parent.Valid() && start + count <= parent.blockCount
      && base == Bytes(start, parent.blockSize) && size == Bytes(count, parent.blockSize)
      && base + size <= |parent.image|
    }

    constructor (dev: BlockDevice, from: nat, blocks: nat)
      requires dev.Valid() && from + blocks <= dev.blockCount
      ensures Valid() && parent == dev && start == from && count == blocks
    {
      BytesAdd(from, blocks, dev.blockSize);
      BytesAdd(from + blocks, dev.blockCount - from - blocks, dev.blockSize);
      parent, start, count := dev, from, blocks;
      base, size := Bytes(from, dev.blockSize), Bytes(blocks, dev.blockSize);
    }

    /** bio_read of a subdevice through subdev_read. */
    method Read(offset: int, len: nat, bounce: bool, works: Call -> bool) returns (r: Result, d: seq<Byte>)
      requires Valid() && -SIGNED <= offset < SIGNED && len < WORD64
      requires 0 <= offset < size ==> offset + len < SIGNED
      ensures r.Done? ==> r.bytes == Clip(size, offset, len)
      ensures r.Done? && r.bytes > 0 ==>
                && offset >= 0 && Landing(base + offset) + r.bytes <= base + size
                && d == parent.image[Landing(base + offset)..Landing(base + offset) + r.bytes]
      ensures r.Done? && r.bytes > 0 && base + offset < WORD ==>
                d == parent.image[base..base + size][offset..offset + r.bytes]
      ensures (forall c :: works(c)) ==> r == parent.Outcome(base + offset, Clip(size, offset, len), bounce)
    {
      hide Bytes, Trim, Landing;
      TrimIs(size, offset, len);
      var n := Trim(size, offset, len);
      if n == 0 {
        return Done(0), [];
      }
      var at := offset + Bytes(start, parent.blockSize);
      r, d := parent.Read(at, n, bounce, works);
      LandsBelow(base, size, offset, n);
      if r.Done? && at < WORD {
        LandingIs(at);
        SubSlice(parent.image, base, size, offset, r.bytes);
      }
    }

    /** bio_write of a subdevice through subdev_write: the parent changes where the forwarded offset lands, which
        is inside the window whenever that is not before it. */
    method Write(offset: int, buf: seq<Byte>, bounce: bool, works: Call -> bool) returns (r: Result, ghost done: nat)
      requires Valid() && -SIGNED <= offset < SIGNED && |buf| < WORD64
      requires 0 <= offset < size ==> offset + |buf| < SIGNED
      modifies parent
      ensures Valid() && done <= Clip(size, offset, |buf|) <= |buf|
      ensures r.Done? ==> r.bytes == done == Clip(size, offset, |buf|)
      ensures done == 0 ==> parent.image == old(parent.image)
      ensures done > 0 ==> && offset >= 0 && Landing(base + offset) + done <= base + size <= |old(parent.image)|
                           && parent.image == Patch(old(parent.image), Landing(base + offset), buf[..done])
      ensures done > 0 && base <= Landing(base + offset) ==> SameOutside(old(parent.image), parent.image, base, size)
      ensures (forall c :: works(c)) ==> r == parent.Outcome(base + offset, Clip(size, offset, |buf|), bounce)
    {
      hide Bytes, Trim, Landing, Patch;
      TrimIs(size, offset, |buf|);
      var n := Trim(size, offset, |buf|);
      if n == 0 {
        return Done(0), 0;
      }
      ghost var was := parent.image;
      var at := offset + Bytes(start, parent.blockSize);
      r, done := parent.Write(at, buf[..n], bounce, works);
      assert buf[..n][..done] == buf[..done];
      LandsBelow(base, size, offset, n);
      if done > 0 {
        PatchIs(was, Landing(at), buf[..done]);
      }
    }
  }

  /** A window of one 512-byte block at byte 2^32 of its parent: the write to its first byte lands at byte 0 of
      the parent. */
  method EscapingWrite(dev: BlockDevice, works: Call -> bool) returns (r: Result)
    requires dev.Valid() && dev.blockShift == 9 && dev.blockCount == 0x80_0001
    modifies dev
    ensures WORD + 512 == |dev.image| == |old(dev.image)|
    ensures r.Done? ==> dev.image[0] == 7
    ensures (forall c :: works(c)) ==> r == Done(1)
  {
    assert Pow2(9) == 512 by {
      assert Pow2(4) == 16;
    }
    BytesIs(0x80_0001, 512);
    BytesIs(0x80_0000, 512);
    BytesIs(1, 512);
    var ok, sub := Publish(dev, 0x80_0000, 1);
    assert sub.base == WORD && sub.size == 512;
    ghost var done;
    r, done := sub.Write(0, [7], true, works);
  }

  /** bio_publish_subdevice without erase geometry: accepted exactly when the blocks exist on the parent. */
  method Publish(dev: BlockDevice, start: nat, count: nat) returns (ok: bool, sub: Subdevice?)
    requires dev.Valid() && start < WORD && count < WORD
    ensures ok <==> start + count <= dev.blockCount
    ensures ok ==> sub != null && sub.Valid() && sub.parent == dev && sub.start == start && sub.count == count
  {
    PublishesIs(dev.blockCount, start, count);
    var end := (start + count) % WORD;
    if end < start || end > dev.blockCount {
      return false, null;
    }
    sub := new Subdevice(dev, start, count);
    ok := true;
  }

  /** The bytes handled in the first block, for an access that starts inBlock bytes into it. */
  function HeadLen(inBlock: nat, len: nat, bs: nat): nat
    requires inBlock < bs
  {
    if inBlock == 0 then 0 else Min(bs - inBlock, len)
  }

  lemma ManyFacts(bs: nat, len: nat)
    requires 0 < bs < WORD && WORD % bs == 0
    ensures var size := len % WORD / bs * bs;
            size <= len && (len - size > bs <==> len >= WORD)
  {
    var e := len % WORD;
    assert len == len / WORD * WORD + e;
    assert e == e / bs * bs + e % bs;
  }

  /** A block that holds a byte of the image lies inside the image. */
  lemma {:induction false} WholeBlock(bs: nat, count: nat, block: nat, inside: nat)
    requires bs > 0 && inside < bs && Bytes(block, bs) + inside < Bytes(count, bs)
    ensures Bytes(block, bs) + bs <= Bytes(count, bs)
    decreases count
  {
    if block >= count {
      BytesAdd(count, block - count, bs);
    } else if block < count - 1 {
      BytesAdd(block + 1, count - 1 - block, bs);
    }
  }
}
