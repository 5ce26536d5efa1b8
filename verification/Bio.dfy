/** Byte access to a block device, lib/bio/bio.c and lib/bio/subdev.c: ranges, windows and the flat image. */
module Bio {
  import opened Arith
  import opened Lists
  import opened Octets

  const WORD: int := 0x1_0000_0000
  const SIGNED: int := 0x8000_0000_0000_0000
  const WORD64: int := 0x1_0000_0000_0000_0000

  /** The image with d written at `at`. */
  function Patch(img: seq<Byte>, at: nat, d: seq<Byte>): (r: seq<Byte>)
    requires at + |d| <= |img|
    ensures |r| == |img|
  {
    img[..at] + d + img[at + |d|..]
  }

  /** A write changes the bytes of its range and no other. */
  lemma PatchIs(img: seq<Byte>, at: nat, d: seq<Byte>)
    requires at + |d| <= |img|
    ensures Patch(img, at, d)[at..at + |d|] == d
    ensures forall i :: 0 <= i < |img| && !(at <= i < at + |d|) ==> Patch(img, at, d)[i] == img[i]
  {
  }

  /** Writing on from where a write stopped. */
  lemma PatchMore(img: seq<Byte>, at: nat, d: seq<Byte>, e: seq<Byte>)
    requires at + |d| + |e| <= |img|
    ensures Patch(Patch(img, at, d), at + |d|, e) == Patch(img, at, d + e)
  {
  }

  /** Read a block, change some of it, write it back: only that part of the image changes. */
  lemma BlockPatch(img: seq<Byte>, pos: nat, bs: nat, inside: nat, d: seq<Byte>)
    requires pos + bs <= |img| && inside + |d| <= bs
    ensures Patch(img, pos, Patch(img[pos..pos + bs], inside, d)) == Patch(img, pos + inside, d)
  {
  }

  /** The first n bytes of buf written at `at`, then the next m. */
  lemma PatchNext(img: seq<Byte>, at: nat, buf: seq<Byte>, n: nat, m: nat)
    requires n + m <= |buf| && at + |buf| <= |img|
    ensures Patch(Patch(img, at, buf[..n]), at + n, buf[n..n + m]) == Patch(img, at, buf[..n + m])
  {
    assert buf[..n] + buf[n..n + m] == buf[..n + m];
    PatchMore(img, at, buf[..n], buf[n..n + m]);
  }

  // ---------- bio_trim_range and bio_trim_block_range ----------

  /** What is left of [offset, offset + len) on a device of total bytes. */
  function Clip(total: nat, offset: int, len: nat): nat
  {
    if offset < 0 || offset >= total then 0 else if len <= total - offset then len else total - offset
  }

  /** bio_trim_range: the sum is formed in 64 bits and compared as a signed number. */
  function Trim(total: nat, offset: int, len: nat): nat
  {
    if offset < 0 || offset >= total || len == 0 then 0
    else
      var sum := (offset + len) % WORD64;
      var signed := if sum >= SIGNED then sum - WORD64 else sum;
      if signed > total then total - offset else len
  }

  /** It trims exactly when the end of the range is a representable offset. */
  lemma TrimIs(total: nat, offset: int, len: nat)
    requires total < SIGNED && -SIGNED <= offset < SIGNED && len < WORD64
    ensures Trim(total, offset, len) == Clip(total, offset, len) <==>
            offset < 0 || offset >= total || offset + len < SIGNED
  {
    if 0 <= offset < total && len > 0 {
      if offset + len < WORD64 {
        SlotOf(offset + len, 0, offset + len, WORD64);
      } else {
        SlotOf(offset + len, 1, offset + len - WORD64, WORD64);
      }
    }
  }

  function ClipBlocks(count: nat, block: nat, n: nat): nat
  {
    if block > count then 0 else if n <= count - block then n else count - block
  }

  /** bio_trim_block_range, in 32 bits. */
  function TrimBlocks(count: nat, block: nat, n: nat): nat
  {
    if block > count || n == 0 then 0 else if (block + n) % WORD > count then count - block else n
  }

  lemma TrimBlocksIs(count: nat, block: nat, n: nat)
    requires count < WORD && block < WORD && n < WORD
    ensures TrimBlocks(count, block, n) == ClipBlocks(count, block, n) <==> block > count || block + n < WORD
  {
    if block + n < WORD {
      SlotOf(block + n, 0, block + n, WORD);
    } else {
      SlotOf(block + n, 1, block + n - WORD, WORD);
    }
  }

  // ---------- where an access really lands ----------

  /** The first block is computed from the low 32 bits of the offset. */
  function Landing(offset: nat): nat
  {
    offset % WORD
  }

  /** A block size divides 2^32, so the low 32 bits keep the place inside the block. */
  lemma LandingBlock(offset: nat, bs: nat)
    requires bs > 0 && WORD % bs == 0
    ensures offset % WORD / bs * bs + offset % bs == Landing(offset)
  {
    var q, e := offset / WORD, offset % WORD;
    assert offset == q * WORD + e;
    var k := WORD / bs;
    assert WORD == k * bs;
    var b, r := e / bs, e % bs;
    assert e == b * bs + r;
    assert q * WORD == q * k * bs by {
      assert q * (k * bs) == q * k * bs;
    }
    assert (q * k + b) * bs == q * k * bs + b * bs;
    SlotOf(offset, q * k + b, r, bs);
  }

  lemma LandingIs(offset: nat)
    ensures Landing(offset) <= offset && (Landing(offset) == offset <==> offset < WORD)
  {
    assert offset == offset / WORD * WORD + offset % WORD;
  }

  /** Some image of this size tells the bytes at x from the bytes at y. */
  lemma Apart(size: nat, x: nat, y: nat, len: nat) returns (img: seq<Byte>)
    requires x < y && y + len <= size && len > 0
    ensures |img| == size && img[x..x + len] != img[y..y + len]
  {
    img := seq(size, i => if i == y then 1 else 0);
    assert img[y..y + len][0] == 1;
    assert img[x..x + len][0] == 0;
  }

  /** The default read returns the right bytes on every image exactly when the offset is below 2^32. */
  lemma ReadExact(size: nat, offset: nat, len: nat)
    requires offset + len <= size && len > 0
    ensures (forall img: seq<Byte> :: |img| == size ==>
               Landing(offset) <= offset && img[Landing(offset)..Landing(offset) + len] == img[offset..offset + len])
            <==> offset < WORD
  {
    LandingIs(offset);
    if offset >= WORD {
      var img := Apart(size, Landing(offset), offset, len);
    }
  }

  /** The default write changes the right bytes on every image exactly when the offset is below 2^32. */
  lemma WriteExact(size: nat, offset: nat, len: nat)
    requires offset + len <= size && len > 0
    ensures (forall img: seq<Byte>, d: seq<Byte> :: |img| == size && |d| == len ==>
               Landing(offset) <= offset && Patch(img, Landing(offset), d) == Patch(img, offset, d))
            <==> offset < WORD
  {
    LandingIs(offset);
    if offset >= WORD {
      var img: seq<Byte>, d: seq<Byte> := seq(size, _ => 0), seq(len, _ => 1);
      assert Patch(img, Landing(offset), d)[Landing(offset)] == 1;
      assert Patch(img, offset, d)[Landing(offset)] == 0;
    }
  }

  // ---------- subdevices ----------

  /** The plain bounds check of bio_publish_subdevice, in 32 bits. */
  predicate Publishes(parentBlocks: nat, start: nat, count: nat)
  {
    (start + count) % WORD >= start && (start + count) % WORD <= parentBlocks
  }

  lemma PublishesIs(parentBlocks: nat, start: nat, count: nat)
    requires parentBlocks < WORD && start < WORD && count < WORD
    ensures Publishes(parentBlocks, start, count) <==> start + count <= parentBlocks
  {
    if start + count < WORD {
      SlotOf(start + count, 0, start + count, WORD);
    } else {
      SlotOf(start + count, 1, start + count - WORD, WORD);
    }
  }

  /** Nothing outside the window [base, base + size) differs. */
  ghost predicate SameOutside(was: seq<Byte>, now: seq<Byte>, base: nat, size: nat)
  {
    |now| == |was| && forall i :: 0 <= i < |was| && !(base <= i < base + size) ==> now[i] == was[i]
  }

  /** What a subdevice at byte `base` forwards never lands past its window. */
  lemma LandsBelow(base: nat, size: nat, offset: nat, len: nat)
    requires offset + len <= size
    ensures Landing(base + offset) + len <= base + size
  {
    LandingIs(base + offset);
  }

  /** A write through a subdevice leaves everything outside its window alone, on every image and for every data,
      exactly when the landing place is not before the window. */
  lemma WindowWrites(total: nat, base: nat, size: nat, offset: nat, len: nat)
    requires len > 0 && offset + len <= size && base + size <= total
    ensures (forall was: seq<Byte>, d: seq<Byte> :: |was| == total && |d| == len ==>
               && Landing(base + offset) + |d| <= |was|
               && SameOutside(was, Patch(was, Landing(base + offset), d), base, size))
            <==> base <= Landing(base + offset)
  {
    hide Landing, Patch;
    LandsBelow(base, size, offset, len);
    var at := Landing(base + offset);
    if at < base {
      var was: seq<Byte>, d: seq<Byte> := seq(total, _ => 0), seq(len, _ => 1);
      PatchIs(was, at, d);
      assert d[0] == Patch(was, at, d)[at..at + len][0] == Patch(was, at, d)[at];
      assert !SameOutside(was, Patch(was, at, d), base, size);
    } else {
      forall was: seq<Byte>, d: seq<Byte> | |was| == total && |d| == len
        ensures SameOutside(was, Patch(was, at, d), base, size)
      {
        PatchIs(was, at, d);
      }
    }
  }

  /** A read through a subdevice tells only what is in its window exactly under the same condition. */
  lemma WindowReads(total: nat, base: nat, size: nat, offset: nat, len: nat)
    requires len > 0 && offset + len <= size && base + size <= total
    ensures (forall a: seq<Byte>, b: seq<Byte> ::
               |a| == total && |b| == total && a[base..base + size] == b[base..base + size] ==>
                 && Landing(base + offset) + len <= total
                 && a[Landing(base + offset)..Landing(base + offset) + len] ==
                    b[Landing(base + offset)..Landing(base + offset) + len])
            <==> base <= Landing(base + offset)
  {
    hide Landing;
    LandsBelow(base, size, offset, len);
    var at := Landing(base + offset);
    if at < base {
      var a: seq<Byte>, b: seq<Byte> := seq(total, _ => 0), seq(total, i => if i == at then 1 else 0);
      assert a[base..base + size] == b[base..base + size];
      assert a[at..at + len][0] == 0 && b[at..at + len][0] == 1;
    } else {
      forall a: seq<Byte>, b: seq<Byte>
        | |a| == total && |b| == total && a[base..base + size] == b[base..base + size]
        ensures a[at..at + len] == b[at..at + len]
      {
        SameInside(a, b, base, size, at, len);
      }
    }
  }

  lemma SameInside(a: seq<Byte>, b: seq<Byte>, base: nat, size: nat, at: nat, len: nat)
    requires base <= at && at + len <= base + size <= |a| && |b| == |a|
    requires a[base..base + size] == b[base..base + size]
    ensures a[at..at + len] == b[at..at + len]
  {
    SubSlice(a, base, size, at - base, len);
    SubSlice(b, base, size, at - base, len);
  }

  /** A trimmed block access stays on a (sub)device of count blocks exactly when its end fits in 32 bits. */
  lemma BlocksInside(count: nat, block: nat, n: nat)
    requires count < WORD && block < WORD && n < WORD
    ensures (TrimBlocks(count, block, n) > 0 ==> block + TrimBlocks(count, block, n) <= count) <==>
            block > count || block + n < WORD
  {
    TrimBlocksIs(count, block, n);
    if block + n >= WORD {
      SlotOf(block + n, 1, block + n - WORD, WORD);
    }
  }
}
