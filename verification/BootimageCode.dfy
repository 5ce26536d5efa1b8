/** The boot image builder of tools/bootimage.c, and the validator and lookup of lib/bootimage/bootimage.c. */
module BootimageCode {
  import opened Wrappers
  import opened Lists
  import opened Octets
  import opened Bootimage

  datatype Status = Success | BadLen | InvalidArgs | ChecksumFail | NotFound | LeavesImage

  /** The additions a run of the builder stands for grow one by one. */
  lemma {:induction false} EndPrefix(adds: seq<Add>, a: Add, n: nat)
    requires n <= |adds|
    ensures End(adds + [a], n) == End(adds, n)
  {
    if n > 0 {
      EndPrefix(adds, a, n - 1);
    }
  }

  lemma EntryPrefix(adds: seq<Add>, a: Add, i: nat, sha: Hash)
    requires i < |adds|
    ensures EntryOf(adds + [a], i, sha) == EntryOf(adds, i, sha)
  {
    EndPrefix(adds, a, i);
  }

  lemma EndMore(adds: seq<Add>, a: Add)
    ensures End(adds, |adds|) <= End(adds + [a], |adds| + 1)
  {
    EndPrefix(adds, a, |adds|);
    EndGrows(adds + [a], |adds|, |adds| + 1);
  }

  lemma TotalMore(adds: seq<Add>, a: Add)
    ensures Total(adds) <= Total(adds + [a])
  {
    EndMore(adds, a);
    PageUpMono(End(adds, |adds|), End(adds + [a], |adds| + 1));
  }

  lemma AddsOkPrefix(adds: seq<Add>, a: Add)
    requires AddsOk(adds + [a])
    ensures AddsOk(adds) && AddOk(a)
  {
    TotalMore(adds, a);
    var more := adds + [a];
    assert forall i :: 0 <= i < |adds| ==> more[i] == adds[i];
    assert more[|adds|] == a;
  }

  lemma PageUpMono(x: nat, y: nat)
    requires x <= y
    ensures PageUp(x) <= PageUp(y)
  {
  }

  lemma {:induction false} FlatCons(b: Bytes, bs: seq<Bytes>)
    ensures Flat([b] + bs) == b + Flat(bs)
    decreases |bs|
  {
    var all := [b] + bs;
    if bs == [] {
      assert all[..0] == [];
    } else {
      var n := |bs| - 1;
      FlatCons(b, bs[..n]);
      assert all[..|all| - 1] == [b] + bs[..n];
      Assoc(b, Flat(bs[..n]), bs[n]);
    }
  }

  function Encoded(es: seq<Entry>): (b: seq<Bytes>)
    requires AllOk(es)
    ensures |b| == |es|
  {
    seq(|es|, i requires 0 <= i < |es| => Encode(es[i]))
  }

  /** The page is the header entry followed by the table. */
  lemma PageCons(e: Entry, t: seq<Entry>)
    requires EntryOk(e) && AllOk(t)
    ensures AllOk([e] + t) && PageOf([e] + t) == Encode(e) + PageOf(t)
  {
    var es := [e] + t;
    assert AllOk(es);
    assert Encoded(es) == [Encode(e)] + Encoded(t);
    FlatCons(Encode(e), Encoded(t));
  }

  /** The builder's arrays: entries, and for files their bytes, place and length. */
  datatype Arrays = Arrays(entry: seq<Entry>, data: seq<Bytes>, offset: seq<nat>, length: seq<nat>)

  predicate Sized(r: Arrays)
  {
    |r.entry| == |r.data| == |r.offset| == |r.length| == ENTRIES
  }

  /** Slot i + 2 holds addition i. */
  ghost predicate SlotOk(adds: seq<Add>, i: nat, sha: Hash, r: Arrays)
    requires i < |adds| <= ENTRIES - 2 && Sized(r)
  {
    && r.entry[i + 2] == EntryOf(adds, i, sha)
    && (adds[i].AddText? ==> r.offset[i + 2] == 0)
    && (adds[i].AddFile? ==> && r.offset[i + 2] == PageUp(End(adds, i))
                             && r.data[i + 2] == adds[i].data && r.length[i + 2] == |adds[i].data|)
  }

  ghost predicate Holds(adds: seq<Add>, sha: Hash, r: Arrays)
  {
    && Sized(r) && |adds| <= ENTRIES - 2
    && (forall i: nat :: i < |adds| ==> SlotOk(adds, i, sha, r))
    && (forall j :: |adds| + 2 <= j < ENTRIES ==> r.entry[j] == Empty && r.offset[j] == 0)
    && r.offset[0] == 0 && r.offset[1] == 0
  }

  function SetSlot(r: Arrays, n: nat, e: Entry, d: Bytes, o: nat, l: nat): Arrays
    requires Sized(r) && n < ENTRIES
  {
    Arrays(r.entry[n := e], r.data[n := d], r.offset[n := o], r.length[n := l])
  }

  lemma SlotKept(adds: seq<Add>, a: Add, sha: Hash, r: Arrays, t: Arrays, i: nat)
    requires i < |adds| < ENTRIES - 2 && Sized(r) && Sized(t) && SlotOk(adds, i, sha, r)
    requires t.entry[i + 2] == r.entry[i + 2] && t.offset[i + 2] == r.offset[i + 2]
    requires t.data[i + 2] == r.data[i + 2] && t.length[i + 2] == r.length[i + 2]
    ensures SlotOk(adds + [a], i, sha, t)
  {
    EntryPrefix(adds, a, i, sha);
    EndPrefix(adds, a, i);
  }

  lemma HoldsMore(adds: seq<Add>, a: Add, sha: Hash, r: Arrays, e: Entry, d: Bytes, o: nat, l: nat)
    requires Holds(adds, sha, r) && |adds| < ENTRIES - 2
    requires SlotOk(adds + [a], |adds|, sha, SetSlot(r, |adds| + 2, e, d, o, l))
    ensures Holds(adds + [a], sha, SetSlot(r, |adds| + 2, e, d, o, l))
  {
    var t := SetSlot(r, |adds| + 2, e, d, o, l);
    forall i: nat | i < |adds| + 1
      ensures SlotOk(adds + [a], i, sha, t)
    {
      if i < |adds| {
        assert SlotOk(adds, i, sha, r);
        SlotKept(adds, a, sha, r, t, i);
      }
    }
  }

  class Builder {
    const sha: Hash
    var r: Arrays
    var count: nat
    var nextOffset: nat
    ghost var adds: seq<Add>

    /** While no offset has passed 32 bits, the arrays hold the additions. */
    ghost predicate Valid()
      reads this
    {
      && IsHash(sha) && Sized(r) && AllOk(r.entry) && count == 2 + |adds| && |adds| <= ENTRIES - 2
      && nextOffset < WORD
      && (AddsOk(adds) ==> Holds(adds, sha, r) && nextOffset == End(adds, |adds|))
    }

    constructor (hash: Hash)
      requires IsHash(hash)
      ensures Valid() && adds == [] && sha == hash
    {
      sha := hash;
      var e := seq(ENTRIES, _ => Empty);
      r := Arrays(e[0 := File(TYPE_BOOT_IMAGE, 0, PAGE, Magic(), Zeros(32))][1 := Info(0, 0)],
                  seq(ENTRIES, _ => []), seq(ENTRIES, _ => 0), seq(ENTRIES, _ => 0));
      count, nextOffset, adds := 2, PAGE, [];
    }

    /** bootimage_add_string: refused when the table is full or the string too long. */
    method AddString(kind: nat, s: Bytes) returns (ok: bool)
      requires Valid() && kind < WORD
      modifies this
      ensures Valid() && ok == (|old(adds)| < ENTRIES - 2 && |s| <= 59)
      ensures adds == if ok then old(adds) + [AddText(kind, s)] else old(adds)
    {
      var n := count;
      if count == ENTRIES || |s| > 59 {
        return false;
      }
      ghost var a := AddText(kind, s);
      if AddsOk(adds + [a]) {
        AddsOkPrefix(adds, a);
        EndPrefix(adds, a, |adds|);
        HoldsMore(adds, a, sha, r, Text(kind, s), r.data[n], 0, r.length[n]);
      }
      count := count + 1;
      r := SetSlot(r, n, Text(kind, s), r.data[n], r.offset[n], r.length[n]);
      adds := adds + [a];
      return true;
    }

    /** bootimage_add_filedata: on the next page boundary, in 32-bit arithmetic. */
    method AddFileData(t: nat, data: Bytes) returns (ok: bool)
      requires Valid() && t < WORD && |data| < WORD
      modifies this
      ensures Valid() && ok == (|old(adds)| < ENTRIES - 2)
      ensures adds == if ok then old(adds) + [AddFile(t, data)] else old(adds)
    {
      hide AddsOk, Holds, AllOk, FileIn, Aligned, End;
      var n := count;
      if count == ENTRIES {
        return false;
      }
      var a := AddFile(t, data);
      var at := Aligned(nextOffset);
      FileStep(adds, a, sha, r, nextOffset, at);
      count := count + 1;
      r := FileIn(r, n, a, at, sha);
      nextOffset := (at + |data|) % WORD;
      adds := adds + [a];
      return true;
    }

    /** bootimage_done: the image size, the entry count and the hash of the other entries go into the first two. */
    method Done()
      requires Valid()
      modifies this
      ensures Valid() && adds == old(adds) && r.data == old(r.data) && r.offset == old(r.offset)
      ensures AddsOk(adds) ==> AllOk(Table(adds, sha)) && r.entry == [Header(adds, sha)] + Table(adds, sha)
    {
      var size := nextOffset;
      if size % 4096 != 0 {
        size := (size + (4096 - size % 4096)) % WORD;
      }
      if AddsOk(adds) {
        SizeIs(nextOffset, size);
      }
      Sealed(adds, sha, r, size);
      r := Seal(r, size, count, sha);
    }

    /** bootimage_done has been called since the last addition. */
    ghost predicate Finished()
      reads this
    {
      AddsOk(adds) && AllOk(Table(adds, sha)) && r.entry == [Header(adds, sha)] + Table(adds, sha)
    }

    /** What has been written when the loop is at entry n. */
    ghost predicate Upto(page: Bytes, n: nat, off: nat, out: Bytes)
      reads this
    {
      AddsOk(adds) ==> WrittenTo(adds, page, Reached(adds, n), off, out)
    }

    /** One turn of the write loop. */
    method WriteEntry(ghost page: Bytes, n: nat, off: nat, out: Bytes) returns (ok: bool, next: nat, more: Bytes)
      requires Valid() && 1 <= n < ENTRIES && Upto(page, n, off, out)
      ensures ok ==> Upto(page, n + 1, next, more)
      ensures AddsOk(adds) ==> ok
    {
      next, more := off, out;
      if r.offset[n] == 0 {
        if AddsOk(adds) {
          Skips(adds, sha, r, page, n, off, out);
        }
        return true, off, out;
      }
      if AddsOk(adds) {
        Reaches(adds, sha, r, page, n, off, out);
      }
      if r.offset[n] < off || r.offset[n] - off > 4095 {
        return false, off, out;
      }
      var s: nat := r.offset[n] - off;
      return true, (r.offset[n] + r.length[n]) % WORD, out + Zeros(s) + r.data[n];
    }

    /** bootimage_write, with every write to the file succeeding. */
    method Write() returns (ok: bool, out: Bytes)
      requires Valid()
      ensures Finished() ==> ok && Built(out, adds, sha)
    {
      hide WrittenTo, Built, Holds, End, Body, AddsOk, Encode, Table, Header, Zeros;
      var off: nat := 4096;
      out := PageOf(r.entry);
      ghost var page := out;
      var n: nat := 1;
      NoneWritten(adds, page);
      while n < ENTRIES
        invariant 1 <= n <= ENTRIES && Upto(page, n, off, out)
      {
        ok, off, out := WriteEntry(page, n, off, out);
        if !ok {
          return;
        }
        n := n + 1;
      }
      if Finished() {
        AllWritten(adds, page, off, out);
        Closed(adds, sha, r.entry, page, off, out);
      }
      if off % 4096 != 0 {
        out := out + Zeros(4096 - off % 4096);
      }
      ok := true;
    }
  }

  /** How many additions have been written once the loop is at entry n. */
  function Reached(adds: seq<Add>, n: nat): (k: nat)
    ensures k <= |adds|
  {
    if n < 2 then 0 else if n - 2 <= |adds| then n - 2 else |adds|
  }

  ghost predicate WrittenTo(adds: seq<Add>, page: Bytes, k: nat, off: nat, out: Bytes)
    requires k <= |adds|
  {
    off == End(adds, k) && out == page + Body(adds, k)
  }

  lemma NoneWritten(adds: seq<Add>, page: Bytes)
    ensures WrittenTo(adds, page, Reached(adds, 1), 4096, page)
  {
    assert page + [] == page;
  }

  lemma AllWritten(adds: seq<Add>, page: Bytes, off: nat, out: Bytes)
    requires |adds| + 2 <= ENTRIES && WrittenTo(adds, page, Reached(adds, ENTRIES), off, out)
    ensures off == End(adds, |adds|) && out == page + Body(adds, |adds|)
  {
  }

  /** An entry without data leaves the output as it is. */
  lemma Skips(adds: seq<Add>, sha: Hash, r: Arrays, page: Bytes, n: nat, off: nat, out: Bytes)
    requires Holds(adds, sha, r) && 1 <= n < ENTRIES && r.offset[n] == 0
    requires WrittenTo(adds, page, Reached(adds, n), off, out)
    ensures WrittenTo(adds, page, Reached(adds, n + 1), off, out)
  {
    if 2 <= n < |adds| + 2 {
      assert SlotOk(adds, n - 2, sha, r);
    }
  }

  /** A file goes on the next page boundary, less than a page away. */
  lemma Reaches(adds: seq<Add>, sha: Hash, r: Arrays, page: Bytes, n: nat, off: nat, out: Bytes)
    requires AddsOk(adds) && Holds(adds, sha, r) && 1 <= n < ENTRIES && r.offset[n] != 0
    requires WrittenTo(adds, page, Reached(adds, n), off, out)
    ensures off <= r.offset[n] <= off + 4095 && r.offset[n] + r.length[n] < WORD
    ensures WrittenTo(adds, page, Reached(adds, n + 1), r.offset[n] + r.length[n],
                      out + Zeros(r.offset[n] - off) + r.data[n])
  {
    hide PageUp, Encode;
    var i := n - 2;
    assert SlotOk(adds, i, sha, r);
    FileEnds(adds, i);
    Assoc(page, Body(adds, i), Zeros(r.offset[n] - off));
    Assoc(page, Body(adds, i) + Zeros(r.offset[n] - off), r.data[n]);
  }

  lemma HeaderEntryOk(adds: seq<Add>, sha: Hash)
    requires |adds| <= ENTRIES - 2 && IsHash(sha) && AllOk(Table(adds, sha))
    ensures EntryOk(Header(adds, sha))
  {
    assert |sha(PageOf(Table(adds, sha)))| == 32;
  }

  lemma FillIs(x: nat)
    ensures PageUp(x) - x == if x % 4096 != 0 then 4096 - x % 4096 else 0
  {
  }

  /** Filled up to a page, the output is the image. */
  lemma Closed(adds: seq<Add>, sha: Hash, entry: seq<Entry>, page: Bytes, off: nat, out: Bytes)
    requires AddsOk(adds) && IsHash(sha) && AllOk(Table(adds, sha)) && AllOk(entry)
    requires entry == [Header(adds, sha)] + Table(adds, sha) && page == PageOf(entry)
    requires off == End(adds, |adds|) && out == page + Body(adds, |adds|)
    ensures Built(if off % 4096 != 0 then out + Zeros(4096 - off % 4096) else out, adds, sha)
  {
    hide Encode, PageOf, Body, Table, Header, PageUp;
    HeaderEntryOk(adds, sha);
    PageCons(Header(adds, sha), Table(adds, sha));
    FillIs(off);
    assert out + Zeros(0) == out;
  }

  lemma SizeIs(x: nat, size: nat)
    requires PageUp(x) < WORD && size == if x % 4096 != 0 then (x + (4096 - x % 4096)) % WORD else x
    ensures size == PageUp(x)
  {
  }

  lemma HoldsSet(adds: seq<Add>, sha: Hash, r: Arrays, k: nat, e: Entry)
    requires Holds(adds, sha, r) && k < 2
    ensures Holds(adds, sha, r.(entry := r.entry[k := e]))
  {
    var t := r.(entry := r.entry[k := e]);
    forall i: nat | i < |adds|
      ensures SlotOk(adds, i, sha, t)
    {
      assert SlotOk(adds, i, sha, r);
    }
  }

  /** With the info entry filled in, the entries after the first are the table of the finished image. */
  lemma Tabled(adds: seq<Add>, sha: Hash, r: Arrays)
    requires AddsOk(adds) && IsHash(sha) && Holds(adds, sha, r)
    ensures var t := r.(entry := r.entry[1 := Info(Total(adds), 2 + |adds|)]);
            Holds(adds, sha, t) && AllOk(Table(adds, sha)) && t.entry[1..] == Table(adds, sha)
  {
    HoldsSet(adds, sha, r, 1, Info(Total(adds), 2 + |adds|));
    TableOk(adds, sha);
    TableIs(adds, sha, r.(entry := r.entry[1 := Info(Total(adds), 2 + |adds|)]));
  }

  lemma TailOk(es: seq<Entry>)
    requires AllOk(es) && es != []
    ensures AllOk(es[1..])
  {
  }

  /** Size and count put into the second entry, and then the hash of all but the first into the first. */
  function Seal(r: Arrays, size: nat, count: nat, sha: Hash): Arrays
    requires Sized(r) && AllOk(r.entry) && size < WORD && count < WORD
  {
    var entry := r.entry[1 := Info(size, count)];
    TailOk(entry);
    r.(entry := entry[0 := File(TYPE_BOOT_IMAGE, 0, PAGE, Magic(), sha(PageOf(entry[1..])))])
  }

  lemma Sealed(adds: seq<Add>, sha: Hash, r: Arrays, size: nat)
    requires IsHash(sha) && Sized(r) && AllOk(r.entry) && |adds| <= ENTRIES - 2 && size < WORD
    requires AddsOk(adds) ==> Holds(adds, sha, r) && size == Total(adds)
    ensures var t := Seal(r, size, 2 + |adds|, sha);
            Sized(t) && AllOk(t.entry) && t.data == r.data && t.offset == r.offset
    ensures AddsOk(adds) ==> && AllOk(Table(adds, sha)) && Holds(adds, sha, Seal(r, size, 2 + |adds|, sha))
                             && Seal(r, size, 2 + |adds|, sha).entry == [Header(adds, sha)] + Table(adds, sha)
  {
    var info := r.(entry := r.entry[1 := Info(size, 2 + |adds|)]);
    TailOk(info.entry);
    var e := File(TYPE_BOOT_IMAGE, 0, PAGE, Magic(), sha(PageOf(info.entry[1..])));
    assert EntryOk(e);
    if AddsOk(adds) {
      Tabled(adds, sha, r);
      HoldsSet(adds, sha, info, 0, e);
    }
  }

  /** The arrays with the info entry filled in hold the table of the finished image. */
  lemma TableIs(adds: seq<Add>, sha: Hash, r: Arrays)
    requires Holds(adds, sha, r) && r.entry[1] == Info(Total(adds), 2 + |adds|)
    ensures r.entry[1..] == Table(adds, sha)
  {
    var t := Table(adds, sha);
    forall k | 0 <= k < ENTRIES - 1
      ensures r.entry[1..][k] == t[k]
    {
      if 0 < k <= |adds| {
        assert SlotOk(adds, k - 1, sha, r);
      }
    }
  }

  /** The next page boundary, in 32 bits. */
  function Aligned(x: nat): (y: nat)
    ensures y < WORD
  {
    (x + 4095) % WORD / 4096 * 4096
  }

  lemma AlignedIs(x: nat)
    requires PageUp(x) < WORD
    ensures Aligned(x) == PageUp(x)
  {
    var y := PageUp(x);
    assert x + 4095 < WORD;
  }

  /** No 32-bit sum wraps when the image fits. */
  lemma PlaceOk(adds: seq<Add>, a: Add)
    requires a.AddFile? && AddsOk(adds + [a])
    ensures End(adds + [a], |adds|) == End(adds, |adds|)
    ensures End(adds + [a], |adds| + 1) == PageUp(End(adds, |adds|)) + |a.data| < WORD
    ensures Aligned(End(adds, |adds|)) == PageUp(End(adds, |adds|))
  {
    hide PageUp, Aligned;
    EndPrefix(adds, a, |adds|);
    AlignedIs(End(adds, |adds|));
  }

  /** The slot a file goes into. */
  function FileIn(r: Arrays, n: nat, a: Add, at: nat, sha: Hash): Arrays
    requires Sized(r) && n < ENTRIES && a.AddFile?
  {
    SetSlot(r, n, File(a.kindOf, at, |a.data|, Zeros(16), sha(a.data)), a.data, at, |a.data|)
  }

  lemma FileAdded(adds: seq<Add>, a: Add, sha: Hash, r: Arrays, next: nat, at: nat)
    requires a.AddFile? && AddsOk(adds + [a]) && Holds(adds, sha, r) && |adds| < ENTRIES - 2
    requires next == End(adds, |adds|) && at == Aligned(next)
    ensures Holds(adds + [a], sha, FileIn(r, |adds| + 2, a, at, sha))
    ensures (at + |a.data|) % WORD == End(adds + [a], |adds + [a]|)
  {
    hide Aligned, PageUp, AddsOk, Zeros;
    PlaceOk(adds, a);
    HoldsMore(adds, a, sha, r, File(a.kindOf, at, |a.data|, Zeros(16), sha(a.data)), a.data, at, |a.data|);
  }

  lemma FileStep(adds: seq<Add>, a: Add, sha: Hash, r: Arrays, next: nat, at: nat)
    requires a.AddFile? && a.kindOf < WORD && |a.data| < WORD && |adds| < ENTRIES - 2 && at == Aligned(next)
    requires IsHash(sha) && Sized(r) && AllOk(r.entry)
    requires AddsOk(adds) ==> Holds(adds, sha, r) && next == End(adds, |adds|)
    ensures Sized(FileIn(r, |adds| + 2, a, at, sha)) && AllOk(FileIn(r, |adds| + 2, a, at, sha).entry)
    ensures AddsOk(adds + [a]) ==> && Holds(adds + [a], sha, FileIn(r, |adds| + 2, a, at, sha))
                                   && (at + |a.data|) % WORD == End(adds + [a], |adds + [a]|)
  {
    FileInOk(r, |adds| + 2, a, at, sha);
    if AddsOk(adds + [a]) {
      AddsOkPrefix(adds, a);
      FileAdded(adds, a, sha, r, next, at);
    }
  }

  lemma FileInOk(r: Arrays, n: nat, a: Add, at: nat, sha: Hash)
    requires Sized(r) && AllOk(r.entry) && n < ENTRIES && a.AddFile? && IsHash(sha)
    requires a.kindOf < WORD && |a.data| < WORD && at < WORD
    ensures Sized(FileIn(r, n, a, at, sha)) && AllOk(FileIn(r, n, a, at, sha).entry)
  {
    assert |sha(a.data)| == 32;
  }

  // ---------- reading an image ----------

  /** The checks on the first page, in the order they are made. */
  method CheckHeader(img: Bytes, sha: Hash) returns (st: Status)
    ensures st == Success <==> HeaderOk(img, sha)
    ensures st == BadLen <==> |img| < PAGE
    ensures st == ChecksumFail <==> PageDiffers(img, sha)
    ensures st in {Success, BadLen, InvalidArgs, ChecksumFail}
  {
    if |img| < PAGE {
      return BadLen;
    }
    if Field(img, 0, 0) != KIND_FILE || Field(img, 0, 1) != TYPE_BOOT_IMAGE || Field(img, 0, 2) != 0
       || Field(img, 0, 3) != PAGE || img[16..32] != Magic() {
      return InvalidArgs;
    }
    if sha(img[64..PAGE]) != img[32..64] {
      return ChecksumFail;
    }
    if Field(img, 1, 0) != KIND_BOOT_INFO || Field(img, 1, 1) > BOOT_VERSION || Field(img, 1, 2) > |img| {
      return InvalidArgs;
    }
    return Success;
  }

  /** One entry of the list. */
  method CheckEntry(img: Bytes, i: nat, size: nat, sha: Hash) returns (st: Status)
    requires 64 * i + 4 <= |img| && size <= |img| && size < WORD && Field(img, i, 0) != 0
    ensures st == Success <==> GoodEntry(img, i, size, sha)
    ensures st == LeavesImage <==> EntryLeaves(img, i, size)
    ensures st == ChecksumFail <==> HashDiffers(img, i, size, sha)
    ensures st != BadLen
  {
    var kind := Field(img, i, 0);
    if kind == KIND_BOOT_INFO || kind == KIND_BOARD || kind == KIND_BUILD {
      return Success;
    }
    if kind != KIND_FILE {
      return InvalidArgs;
    }
    if 64 * i + 16 > |img| {
      return LeavesImage;
    }
    var o, l := Field(img, i, 2), Field(img, i, 3);
    EndFits(o, l, size);
    var end := (o + l) % WORD;
    if end < o || end > size {
      return InvalidArgs;
    }
    if 64 * i + 64 > |img| {
      return LeavesImage;
    }
    if sha(img[o..o + l]) != img[64 * i + 32..64 * i + 64] {
      return ChecksumFail;
    }
    return Success;
  }

  /** The end of a section, in 32 bits: in range exactly when the section fits. */
  lemma EndFits(o: nat, l: nat, size: nat)
    requires o < WORD && l < WORD && size < WORD
    ensures (o + l) % WORD >= o && (o + l) % WORD <= size <==> o + l <= size
  {
  }

  /** The walk over the list has come to entry i. */
  ghost predicate Walked(img: Bytes, i: nat, n: nat, size: nat, sha: Hash)
    requires size <= |img|
  {
    && 2 <= i <= Stop(img, 2, n) == Stop(img, i, n) && (i <= n || i == 2)
    && forall j: nat :: 2 <= j < i ==>
         64 * j + 4 <= |img| && GoodEntry(img, j, size, sha) && !EntryLeaves(img, j, size)
  }

  /** Entry i lies past the end of the image. */
  lemma WalkLeaves(img: Bytes, i: nat, n: nat, size: nat, sha: Hash)
    requires size <= |img| && Walked(img, i, n, size, sha) && i < n && EntryLeaves(img, i, size)
    ensures ListLeaves(img, n, size, sha) && !ListOk(img, n, size, sha) && !ListDiffers(img, n, size, sha)
  {
    var m := Stop(img, 2, n);
    if 64 * i + 4 > |img| {
      assert m == i;
    } else {
      assert i < m && !GoodEntry(img, i, size, sha);
    }
  }

  /** Entry i is in the image and no good. */
  lemma WalkFails(img: Bytes, i: nat, n: nat, size: nat, sha: Hash)
    requires size <= |img| && Walked(img, i, n, size, sha) && i < n && !EntryLeaves(img, i, size)
    requires Field(img, i, 0) != 0 && !GoodEntry(img, i, size, sha)
    ensures !ListLeaves(img, n, size, sha) && !ListOk(img, n, size, sha)
    ensures ListDiffers(img, n, size, sha) <==> HashDiffers(img, i, size, sha)
  {
    hide Field;
    assert i < Stop(img, 2, n);
  }

  /** The list ends at entry i. */
  lemma WalkEnds(img: Bytes, i: nat, n: nat, size: nat, sha: Hash)
    requires size <= |img| && Walked(img, i, n, size, sha)
    requires i < n ==> 64 * i + 4 <= |img| && Field(img, i, 0) == 0
    ensures ListOk(img, n, size, sha) && !ListLeaves(img, n, size, sha) && !ListDiffers(img, n, size, sha)
  {
    assert Stop(img, 2, n) == i;
  }

  /** The loop of validate_bootimage. */
  method CheckList(img: Bytes, n: nat, size: nat, sha: Hash) returns (st: Status)
    requires size <= |img| && size < WORD
    ensures st == Success <==> ListOk(img, n, size, sha)
    ensures st == LeavesImage <==> ListLeaves(img, n, size, sha)
    ensures st == ChecksumFail <==> ListDiffers(img, n, size, sha)
    ensures st != BadLen
  {
    var i: nat := 2;
    while i < n
      invariant Walked(img, i, n, size, sha)
    {
      if 64 * i + 4 > |img| {
        WalkLeaves(img, i, n, size, sha);
        return LeavesImage;
      }
      if Field(img, i, 0) == 0 {
        break;
      }
      st := CheckEntry(img, i, size, sha);
      if st == LeavesImage {
        WalkLeaves(img, i, n, size, sha);
        return;
      } else if st != Success {
        WalkFails(img, i, n, size, sha);
        return;
      }
      i := i + 1;
    }
    WalkEnds(img, i, n, size, sha);
    return Success;
  }

  /** validate_bootimage; len is the trimmed length. The entry count is not bounded, so the walk can leave an
      image that says it has more entries than it holds. */
  method Validate(img: Bytes, sha: Hash) returns (st: Status, len: nat)
    ensures st == Success <==> Accepts(img, sha)
    ensures st == LeavesImage <==> HeaderOk(img, sha) && ListLeaves(img, Field(img, 1, 3), Field(img, 1, 2), sha)
    ensures st == Success ==> len == Field(img, 1, 2) <= |img|
    ensures st == BadLen <==> |img| < PAGE
    ensures st == ChecksumFail <==>
              || PageDiffers(img, sha)
              || (HeaderOk(img, sha) && ListDiffers(img, Field(img, 1, 3), Field(img, 1, 2), sha))
    ensures st == Success ==>
              && PageSealed(img, sha)
              && forall i: nat :: Listed(img, i) && Field(img, i, 0) == KIND_FILE ==> FileSealed(img, i, sha)
  {
    len := 0;
    st := CheckHeader(img, sha);
    if st == Success {
      HeaderSealed(img, sha);
      len := Field(img, 1, 2);
      st := CheckList(img, Field(img, 1, 3), len, sha);
    }
    if st == Success {
      forall i: nat | Listed(img, i) && Field(img, i, 0) == KIND_FILE
        ensures FileSealed(img, i, sha)
      {
        AcceptedSealed(img, sha, i);
      }
    }
  }

  /** A file section of an accepted image lies in it. */
  lemma AcceptedFile(img: Bytes, sha: Hash, i: nat)
    requires Accepts(img, sha) && 2 <= i < Stop(img, 2, Field(img, 1, 3)) && Field(img, i, 0) == KIND_FILE
    ensures 64 * i + 64 <= |img| && Field(img, i, 2) + Field(img, i, 3) <= |img|
  {
    assert GoodEntry(img, i, Field(img, 1, 2), sha);
  }

  /** The loop of bootimage_get_file_section, on a list whose files are all inside the image. */
  method FindFile(img: Bytes, n: nat, t: nat) returns (r: Option<nat>)
    requires Stop(img, 2, n) < n ==> 64 * Stop(img, 2, n) + 4 <= |img|
    requires forall j :: 2 <= j < Stop(img, 2, n) && Field(img, j, 0) == KIND_FILE ==> 64 * j + 64 <= |img|
    ensures FirstOfType(img, t, n, r)
  {
    hide Field;
    var i: nat := 2;
    while i < n
      invariant 2 <= i && (i <= n || i == 2)
      invariant i <= Stop(img, 2, n) == Stop(img, i, n)
      invariant forall j: nat :: 2 <= j < i ==> !Names(img, j, t)
    {
      if Field(img, i, 0) == 0 {
        break;
      }
      if Field(img, i, 0) == KIND_FILE && Field(img, i, 1) == t {
        return Some(i);
      }
      i := i + 1;
    }
    return None;
  }

  /** bootimage_get_file_section on an image that was accepted. */
  method GetFileSection(img: Bytes, ghost sha: Hash, t: nat) returns (r: Option<nat>, section: Bytes)
    requires Accepts(img, sha)
    ensures FirstOfType(img, t, Field(img, 1, 3), r)
    ensures r.Some? ==> SectionIs(img, r.value, section)
  {
    forall j | 2 <= j < Stop(img, 2, Field(img, 1, 3)) && Field(img, j, 0) == KIND_FILE
      ensures 64 * j + 64 <= |img|
    {
      AcceptedFile(img, sha, j);
    }
    r := FindFile(img, Field(img, 1, 3), t);
    section := [];
    if r.Some? {
      AcceptedFile(img, sha, r.value);
      section := img[Field(img, r.value, 2)..Field(img, r.value, 2) + Field(img, r.value, 3)];
    }
  }
}
