/** The boot image format of lib/bootimage/include/lib/bootimage_struct.h: what the builder of tools/bootimage.c
    lays out and what the validator of lib/bootimage/bootimage.c accepts. */
module Bootimage {
  import opened Wrappers
  import opened Lists
  import opened Octets

  type Bytes = seq<Byte>
  type Hash = Bytes -> Bytes

  const WORD: int := 0x1_0000_0000
  const PAGE: nat := 4096
  const ENTRIES: nat := 64

  const KIND_FILE: nat := 0x656c6966
  const KIND_BOOT_INFO: nat := 0x6f666e69
  const KIND_BOARD: nat := 0x67726174
  const KIND_BUILD: nat := 0x706d7473
  const TYPE_BOOT_IMAGE: nat := 0x746f6f62
  const BOOT_VERSION: nat := 0x00010000

  /** The first 16 bytes of the magic string; its last character is not part of the format. */
  function Magic(): (m: Bytes)
    ensures |m| == 16
  {
    [0x3c, 0x6e, 0x75, 0x73, 0x61, 0x2d, 0x62, 0x6f, 0x6f, 0x74, 0x2d, 0x69, 0x6d, 0x61, 0x67, 0x65]
  }

  ghost predicate IsHash(sha: Hash)
  {
    forall b: Bytes :: |sha(b)| == 32
  }

  // ---------- little-endian words ----------

  /** 256 to the power n. */
  function Cap(n: nat): (c: nat)
    ensures c > 0
  {
    if n == 0 then 1 else 256 * Cap(n - 1)
  }

  function PutLE(x: nat, n: nat): (b: Bytes)
    ensures |b| == n
  {
    if n == 0 then [] else [x % 256] + PutLE(x / 256, n - 1)
  }

  function GetLE(b: Bytes, at: nat, n: nat): (x: nat)
    requires at + n <= |b|
    ensures x < Cap(n)
    decreases n
  {
    if n == 0 then 0 else b[at] as int + 256 * GetLE(b, at + 1, n - 1)
  }

  /** Reading back what was written. */
  lemma {:induction false} LEBack(x: nat, b: Bytes, at: nat, n: nat)
    requires x < Cap(n) && at + n <= |b| && b[at..at + n] == PutLE(x, n)
    ensures GetLE(b, at, n) == x
    decreases n
  {
    if n > 0 {
      var w := b[at..at + n];
      assert b[at] == w[0] == x % 256;
      assert b[at + 1..at + 1 + (n - 1)] == w[1..] == PutLE(x / 256, n - 1);
      LEBack(x / 256, b, at + 1, n - 1);
    }
  }

  function Put32(x: nat): (b: Bytes)
    ensures |b| == 4
  {
    PutLE(x, 4)
  }

  function Get32(b: Bytes, at: nat): (x: nat)
    requires at + 4 <= |b|
    ensures x < WORD
  {
    assert Cap(4) == WORD;
    GetLE(b, at, 4)
  }

  lemma WordBack(x: nat, b: Bytes, at: nat)
    requires x < WORD && at + 4 <= |b| && b[at..at + 4] == Put32(x)
    ensures Get32(b, at) == x
  {
    assert Cap(4) == WORD;
    LEBack(x, b, at, 4);
  }

  // ---------- entries ----------

  datatype Entry =
    | Empty
    | File(kindOf: nat, offset: nat, length: nat, name: Bytes, sha: Bytes)
    | Info(size: nat, count: nat)
    | Text(kind: nat, text: Bytes)

  predicate EntryOk(e: Entry)
  {
    match e
    case Empty => true
    case File(t, o, l, name, sha) => t < WORD && o < WORD && l < WORD && |name| == 16 && |sha| == 32
    case Info(s, c) => s < WORD && c < WORD
    case Text(k, t) => k < WORD && |t| <= 59
  }

  /** The 64 bytes of an entry. */
  function Encode(e: Entry): (b: Bytes)
    requires EntryOk(e)
    ensures |b| == 64
  {
    match e
    case Empty => Zeros(64)
    case File(t, o, l, name, sha) => Put32(KIND_FILE) + Put32(t) + Put32(o) + Put32(l) + name + sha
    case Info(s, c) => Put32(KIND_BOOT_INFO) + Put32(BOOT_VERSION) + Put32(s) + Put32(c) + Zeros(48)
    case Text(k, t) => Put32(k) + t + Zeros(60 - |t|)
  }

  /** Word k of entry i. */
  function Field(img: Bytes, i: nat, k: nat): (x: nat)
    requires 64 * i + 4 * k + 4 <= |img|
    ensures x < WORD
  {
    Get32(img, 64 * i + 4 * k)
  }

  ghost predicate HasEntry(img: Bytes, i: nat, e: Entry)
    requires EntryOk(e)
  {
    64 * i + 64 <= |img| && img[64 * i..64 * i + 64] == Encode(e)
  }

  lemma FieldIs(img: Bytes, i: nat, e: Entry, k: nat, x: nat)
    requires EntryOk(e) && HasEntry(img, i, e) && k < 16 && x < WORD && Encode(e)[4 * k..4 * k + 4] == Put32(x)
    ensures Field(img, i, k) == x
  {
    SubSlice(img, 64 * i, 64, 4 * k, 4);
    WordBack(x, img, 64 * i + 4 * k);
  }

  lemma FileFields(img: Bytes, i: nat, e: Entry)
    requires e.File? && EntryOk(e) && HasEntry(img, i, e)
    ensures Field(img, i, 0) == KIND_FILE && Field(img, i, 1) == e.kindOf
    ensures Field(img, i, 2) == e.offset && Field(img, i, 3) == e.length
    ensures img[64 * i + 16..64 * i + 32] == e.name && img[64 * i + 32..64 * i + 64] == e.sha
  {
    var b := Encode(e);
    assert b[0..4] == Put32(KIND_FILE) && b[4..8] == Put32(e.kindOf);
    assert b[8..12] == Put32(e.offset) && b[12..16] == Put32(e.length);
    FieldIs(img, i, e, 0, KIND_FILE);
    FieldIs(img, i, e, 1, e.kindOf);
    FieldIs(img, i, e, 2, e.offset);
    FieldIs(img, i, e, 3, e.length);
    SubSlice(img, 64 * i, 64, 16, 16);
    SubSlice(img, 64 * i, 64, 32, 32);
    assert b[16..32] == e.name && b[32..64] == e.sha;
  }

  lemma InfoFields(img: Bytes, i: nat, e: Entry)
    requires e.Info? && EntryOk(e) && HasEntry(img, i, e)
    ensures Field(img, i, 0) == KIND_BOOT_INFO && Field(img, i, 1) == BOOT_VERSION
    ensures Field(img, i, 2) == e.size && Field(img, i, 3) == e.count
  {
    var b := Encode(e);
    assert b[0..4] == Put32(KIND_BOOT_INFO) && b[4..8] == Put32(BOOT_VERSION);
    assert b[8..12] == Put32(e.size) && b[12..16] == Put32(e.count);
    FieldIs(img, i, e, 0, KIND_BOOT_INFO);
    FieldIs(img, i, e, 1, BOOT_VERSION);
    FieldIs(img, i, e, 2, e.size);
    FieldIs(img, i, e, 3, e.count);
  }

  lemma TextFields(img: Bytes, i: nat, e: Entry)
    requires e.Text? && EntryOk(e) && HasEntry(img, i, e)
    ensures Field(img, i, 0) == e.kind && img[64 * i + 4..64 * i + 64] == e.text + Zeros(60 - |e.text|)
  {
    assert Encode(e)[0..4] == Put32(e.kind);
    FieldIs(img, i, e, 0, e.kind);
    SubSlice(img, 64 * i, 64, 4, 60);
    assert Encode(e)[4..64] == e.text + Zeros(60 - |e.text|);
  }

  // ---------- what the validator accepts ----------

  /** The checks on the first page. */
  predicate HeaderOk(img: Bytes, sha: Hash)
  {
    && |img| >= PAGE
    && Field(img, 0, 0) == KIND_FILE && Field(img, 0, 1) == TYPE_BOOT_IMAGE
    && Field(img, 0, 2) == 0 && Field(img, 0, 3) == PAGE && img[16..32] == Magic()
    && sha(img[64..PAGE]) == img[32..64]
    && Field(img, 1, 0) == KIND_BOOT_INFO && Field(img, 1, 1) <= BOOT_VERSION && Field(img, 1, 2) <= |img|
  }

  /** A file section inside the image whose contents have the hash of the entry. */
  predicate FileOk(img: Bytes, i: nat, size: nat, sha: Hash)
    requires 64 * i + 64 <= |img| && size <= |img|
  {
    var o, l := Field(img, i, 2), Field(img, i, 3);
    o + l <= size && sha(img[o..o + l]) == img[64 * i + 32..64 * i + 64]
  }

  predicate GoodEntry(img: Bytes, i: nat, size: nat, sha: Hash)
    requires 64 * i + 4 <= |img| && size <= |img|
  {
    var kind := Field(img, i, 0);
    kind == KIND_BOOT_INFO || kind == KIND_BOARD || kind == KIND_BUILD
    || (kind == KIND_FILE && 64 * i + 64 <= |img| && FileOk(img, i, size, sha))
  }

  /** Looking at entry i means looking past the end of the image: at its kind, at the section of a file, or at
      the hash of a file whose section is in range. */
  predicate EntryLeaves(img: Bytes, i: nat, size: nat)
  {
    || 64 * i + 4 > |img|
    || (Field(img, i, 0) == KIND_FILE
        && (64 * i + 16 > |img| || (64 * i + 64 > |img| && Field(img, i, 2) + Field(img, i, 3) <= size)))
  }

  /** The entry the walk stops at: the end of the list, the first of kind 0, or one outside the image. */
  function Stop(img: Bytes, i: nat, n: nat): (m: nat)
    ensures i <= m && (i <= n ==> m <= n)
    ensures forall j :: i <= j < m ==> j < n && 64 * j + 4 <= |img| && Field(img, j, 0) != 0
    ensures m < n && 64 * m + 4 <= |img| ==> Field(img, m, 0) == 0
    decreases n - i
  {
    if i >= n || 64 * i + 4 > |img| || Field(img, i, 0) == 0 then i else Stop(img, i + 1, n)
  }

  /** Every entry up to the stop good, and nothing outside the image looked at. */
  ghost predicate ListOk(img: Bytes, n: nat, size: nat, sha: Hash)
    requires size <= |img|
  {
    var m := Stop(img, 2, n);
    (m < n ==> 64 * m + 4 <= |img|) && forall i :: 2 <= i < m ==> GoodEntry(img, i, size, sha)
  }

  /** The first entry that is not good is one that lies past the end of the image. */
  ghost predicate ListLeaves(img: Bytes, n: nat, size: nat, sha: Hash)
    requires size <= |img|
  {
    exists i: nat :: 2 <= i < n && i <= Stop(img, 2, n) && EntryLeaves(img, i, size)
      && forall j :: 2 <= j < i ==> GoodEntry(img, j, size, sha)
  }

  ghost predicate Accepts(img: Bytes, sha: Hash)
  {
    HeaderOk(img, sha) && ListOk(img, Field(img, 1, 3), Field(img, 1, 2), sha)
  }

  // ---------- what acceptance means ----------

  /** The walk over the list comes to entry i: it is counted, begins in the image, and neither it nor any entry
      before it is of kind 0. */
  ghost predicate Listed(img: Bytes, i: nat)
  {
    && |img| >= PAGE && 2 <= i < Field(img, 1, 3)
    && forall j :: 2 <= j <= i ==> 64 * j + 4 <= |img| && Field(img, j, 0) != 0
  }

  lemma ListedIs(img: Bytes, i: nat)
    requires |img| >= PAGE
    ensures Listed(img, i) <==> 2 <= i < Stop(img, 2, Field(img, 1, 3))
  {
  }

  /** A first page that is what it says it is: it names itself, and the hash in it is that of the rest of it. */
  ghost predicate PageSealed(img: Bytes, sha: Hash)
  {
    && |img| >= 4096
    && img[0..4] == [0x66, 0x69, 0x6c, 0x65] && img[4..8] == [0x62, 0x6f, 0x6f, 0x74]
    && img[8..12] == [0, 0, 0, 0] && img[12..16] == [0, 0x10, 0, 0]
    && img[16..32] == [0x3c, 0x6e, 0x75, 0x73, 0x61, 0x2d, 0x62, 0x6f, 0x6f, 0x74, 0x2d, 0x69, 0x6d, 0x61, 0x67, 0x65]
    && sha(img[64..4096]) == img[32..64]
  }

  /** A file entry that is what it says it is: its bytes lie in the image, and the hash in it is theirs. */
  ghost predicate FileSealed(img: Bytes, i: nat, sha: Hash)
  {
    && 64 * i + 64 <= |img|
    && var o, l := Field(img, i, 2), Field(img, i, 3);
       o + l <= |img| && sha(img[o..o + l]) == img[64 * i + 32..64 * i + 64]
  }

  /** Entry i is a file in range whose bytes do not have the hash it names. */
  ghost predicate HashDiffers(img: Bytes, i: nat, size: nat, sha: Hash)
  {
    && 64 * i + 64 <= |img| && size <= |img| && Field(img, i, 0) == KIND_FILE
    && var o, l := Field(img, i, 2), Field(img, i, 3);
       o + l <= size && sha(img[o..o + l]) != img[64 * i + 32..64 * i + 64]
  }

  /** The first entry that is no good is a file with the wrong hash. */
  ghost predicate ListDiffers(img: Bytes, n: nat, size: nat, sha: Hash)
    requires size <= |img|
  {
    exists i: nat :: 2 <= i < Stop(img, 2, n) && HashDiffers(img, i, size, sha)
      && forall j :: 2 <= j < i ==> GoodEntry(img, j, size, sha)
  }

  /** The fields of the first entry are right and its hash is not that of the rest of the page. */
  ghost predicate PageDiffers(img: Bytes, sha: Hash)
  {
    && |img| >= PAGE
    && Field(img, 0, 0) == KIND_FILE && Field(img, 0, 1) == TYPE_BOOT_IMAGE
    && Field(img, 0, 2) == 0 && Field(img, 0, 3) == PAGE && img[16..32] == Magic()
    && sha(img[64..PAGE]) != img[32..64]
  }

  /** Four bytes, lowest first, as a number. */
  function FourBytes(a: int, b: int, c: int, d: int): int
  {
    a + 256 * (b + 256 * (c + 256 * d))
  }

  /** How words are read. */
  lemma WordBytes(b: Bytes, at: nat)
    requires at + 4 <= |b|
    ensures Get32(b, at) == FourBytes(b[at], b[at + 1], b[at + 2], b[at + 3])
  {
    assert GetLE(b, at + 3, 1) == b[at + 3];
    assert GetLE(b, at + 2, 2) == b[at + 2] + 256 * GetLE(b, at + 3, 1);
    assert GetLE(b, at + 1, 3) == b[at + 1] + 256 * GetLE(b, at + 2, 2);
  }

  lemma HeaderSealed(img: Bytes, sha: Hash)
    requires HeaderOk(img, sha)
    ensures PageSealed(img, sha)
  {
    hide Get32, FourBytes;
    FileWord();
    BootWord();
    ZeroWord();
    PageWord();
    BytesOf(img, 0, 0x66, 0x69, 0x6c, 0x65);
    BytesOf(img, 4, 0x62, 0x6f, 0x6f, 0x74);
    BytesOf(img, 8, 0, 0, 0, 0);
    BytesOf(img, 12, 0, 0x10, 0, 0);
  }

  /** The constants spell "file" and "boot". */
  lemma FileWord()
    ensures FourBytes(0x66, 0x69, 0x6c, 0x65) == KIND_FILE
  {
  }

  lemma BootWord()
    ensures FourBytes(0x62, 0x6f, 0x6f, 0x74) == TYPE_BOOT_IMAGE
  {
  }

  lemma ZeroWord()
    ensures FourBytes(0, 0, 0, 0) == 0
  {
  }

  lemma PageWord()
    ensures FourBytes(0, 0x10, 0, 0) == PAGE
  {
  }

  lemma BytesOf(b: Bytes, at: nat, b0: Byte, b1: Byte, b2: Byte, b3: Byte)
    requires at + 4 <= |b| && Get32(b, at) == FourBytes(b0, b1, b2, b3)
    ensures b[at..at + 4] == [b0, b1, b2, b3]
  {
    hide Get32, FourBytes;
    WordBytes(b, at);
    OneReading(b[at], b[at + 1], b[at + 2], b[at + 3], b0, b1, b2, b3);
  }

  lemma OneReading(a: Byte, b: Byte, c: Byte, d: Byte, a': Byte, b': Byte, c': Byte, d': Byte)
    requires FourBytes(a, b, c, d) == FourBytes(a', b', c', d')
    ensures a == a' && b == b' && c == c' && d == d'
  {
    LowByte(a, b + 256 * (c + 256 * d), a', b' + 256 * (c' + 256 * d'));
    LowByte(b, c + 256 * d, b', c' + 256 * d');
    LowByte(c, d, c', d');
  }

  lemma LowByte(a: int, x: int, a': int, x': int)
    requires 0 <= a < 256 && 0 <= a' < 256 && a + 256 * x == a' + 256 * x'
    ensures a == a' && x == x'
  {
  }

  /** Every file of an accepted image has the hash its entry names. */
  lemma AcceptedSealed(img: Bytes, sha: Hash, i: nat)
    requires Accepts(img, sha) && Listed(img, i) && Field(img, i, 0) == KIND_FILE
    ensures FileSealed(img, i, sha)
  {
    ListedIs(img, i);
    assert GoodEntry(img, i, Field(img, 1, 2), sha);
  }

  /** Entry i names a file of type t. */
  predicate Names(img: Bytes, i: nat, t: nat)
  {
    64 * i + 8 <= |img| && Field(img, i, 0) == KIND_FILE && Field(img, i, 1) == t
  }

  /** The first file entry of a type. */
  ghost predicate FirstOfType(img: Bytes, t: nat, n: nat, r: Option<nat>)
  {
    var m := Stop(img, 2, n);
    match r
    case Some(i) => 2 <= i < m && Names(img, i, t) && forall j: nat :: 2 <= j < i ==> !Names(img, j, t)
    case None => forall j: nat :: 2 <= j < m ==> !Names(img, j, t)
  }

  // ---------- what the builder lays out ----------

  datatype Add = AddText(kind: nat, text: Bytes) | AddFile(kindOf: nat, data: Bytes)

  predicate AddOk(a: Add)
  {
    match a
    case AddText(k, t) => (k == KIND_BOARD || k == KIND_BUILD) && |t| <= 59
    case AddFile(t, d) => t < WORD && |d| < WORD
  }

  function PageUp(x: nat): (y: nat)
    ensures x <= y < x + PAGE && y % PAGE == 0
  {
    (x + (PAGE - 1)) / PAGE * PAGE
  }

  /** Where the data of the first n additions ends. */
  function End(adds: seq<Add>, n: nat): (e: nat)
    requires n <= |adds|
    ensures e >= PAGE
  {
    if n == 0 then PAGE
    else
      match adds[n - 1]
      case AddText(_, _) => End(adds, n - 1)
      case AddFile(_, d) => PageUp(End(adds, n - 1)) + |d|
  }

  function Total(adds: seq<Add>): nat
  {
    PageUp(End(adds, |adds|))
  }

  /** Additions that fit: 62 of them at most, and no offset past 32 bits. */
  ghost predicate AddsOk(adds: seq<Add>)
  {
    |adds| <= ENTRIES - 2 && (forall i :: 0 <= i < |adds| ==> AddOk(adds[i])) && Total(adds) < WORD
  }

  lemma {:induction false} EndGrows(adds: seq<Add>, i: nat, n: nat)
    requires i <= n <= |adds|
    ensures End(adds, i) <= End(adds, n)
    decreases n
  {
    if i < n {
      EndGrows(adds, i, n - 1);
    }
  }

  function EntryOf(adds: seq<Add>, i: nat, sha: Hash): Entry
    requires i < |adds|
  {
    match adds[i]
    case AddText(k, t) => Text(k, t)
    case AddFile(t, d) => File(t, PageUp(End(adds, i)), |d|, Zeros(16), sha(d))
  }

  /** A file ends before the image does. */
  lemma FileEnds(adds: seq<Add>, i: nat)
    requires i < |adds| && adds[i].AddFile?
    ensures PageUp(End(adds, i)) + |adds[i].data| <= End(adds, |adds|) <= Total(adds)
  {
    EndGrows(adds, i + 1, |adds|);
  }

  lemma EntryOfOk(adds: seq<Add>, i: nat, sha: Hash)
    requires AddsOk(adds) && i < |adds| && IsHash(sha)
    ensures EntryOk(EntryOf(adds, i, sha))
  {
    assert AddOk(adds[i]);
    if adds[i].AddFile? {
      FileEnds(adds, i);
      assert |sha(adds[i].data)| == 32;
    }
  }

  /** The bytes from the first page on, up to the end of the first n additions. */
  function Body(adds: seq<Add>, n: nat): (b: Bytes)
    requires n <= |adds|
    ensures |b| == End(adds, n) - PAGE
  {
    if n == 0 then []
    else
      match adds[n - 1]
      case AddText(_, _) => Body(adds, n - 1)
      case AddFile(_, d) => Body(adds, n - 1) + Zeros(PageUp(End(adds, n - 1)) - End(adds, n - 1)) + d
  }

  lemma {:induction false} BodyPrefix(adds: seq<Add>, i: nat, n: nat)
    requires i <= n <= |adds|
    ensures Body(adds, i) <= Body(adds, n)
    decreases n
  {
    if i < n {
      BodyPrefix(adds, i, n - 1);
    }
  }

  ghost predicate AllOk(es: seq<Entry>)
  {
    forall i :: 0 <= i < |es| ==> EntryOk(es[i])
  }

  ghost predicate Blocks(bs: seq<Bytes>)
  {
    forall i :: 0 <= i < |bs| ==> |bs[i]| == 64
  }

  function Flat(bs: seq<Bytes>): Bytes
  {
    if bs == [] then [] else Flat(bs[..|bs| - 1]) + bs[|bs| - 1]
  }

  lemma {:induction false} FlatAt(bs: seq<Bytes>, i: nat)
    requires i < |bs| && Blocks(bs)
    ensures |Flat(bs)| == 64 * |bs| && Flat(bs)[64 * i..64 * i + 64] == bs[i]
    decreases |bs|
  {
    var n := |bs| - 1;
    var early := bs[..n];
    if n > 0 {
      FlatAt(early, if i < n then i else 0);
    }
    if i < n {
      SliceLeft(Flat(early), bs[n], 64 * i, 64);
    } else {
      SliceRight(Flat(early), bs[n]);
    }
  }

  /** The bytes of a list of entries. */
  function PageOf(es: seq<Entry>): Bytes
    requires AllOk(es)
  {
    Flat(seq(|es|, i requires 0 <= i < |es| => Encode(es[i])))
  }

  lemma PageAt(es: seq<Entry>, i: nat)
    requires i < |es| && AllOk(es)
    ensures |PageOf(es)| == 64 * |es| && PageOf(es)[64 * i..64 * i + 64] == Encode(es[i])
  {
    FlatAt(seq(|es|, j requires 0 <= j < |es| => Encode(es[j])), i);
  }

  lemma SliceLeft(a: Bytes, b: Bytes, from: nat, n: nat)
    requires from + n <= |a|
    ensures (a + b)[from..from + n] == a[from..from + n]
  {
  }

  lemma SliceRight(a: Bytes, b: Bytes)
    ensures (a + b)[|a|..|a| + |b|] == b
  {
  }

  /** Entries 1 to 63 of a finished image. */
  function Table(adds: seq<Add>, sha: Hash): (t: seq<Entry>)
    requires |adds| <= ENTRIES - 2
    ensures |t| == ENTRIES - 1
  {
    seq(ENTRIES - 1, k requires 0 <= k < ENTRIES - 1 =>
      if k == 0 then Info(Total(adds), 2 + |adds|)
      else if k <= |adds| then EntryOf(adds, k - 1, sha) else Empty)
  }

  lemma TableOk(adds: seq<Add>, sha: Hash)
    requires AddsOk(adds) && IsHash(sha)
    ensures AllOk(Table(adds, sha))
  {
    forall k | 0 <= k < ENTRIES - 1
      ensures EntryOk(Table(adds, sha)[k])
    {
      if 0 < k <= |adds| {
        EntryOfOk(adds, k - 1, sha);
      }
    }
  }

  function Header(adds: seq<Add>, sha: Hash): Entry
    requires |adds| <= ENTRIES - 2 && AllOk(Table(adds, sha))
  {
    File(TYPE_BOOT_IMAGE, 0, PAGE, Magic(), sha(PageOf(Table(adds, sha))))
  }

  /** The image: header entry, the other entries, the files each on a page boundary, filled up to a page. */
  function Image(adds: seq<Add>, sha: Hash): Bytes
    requires |adds| <= ENTRIES - 2 && AllOk(Table(adds, sha)) && EntryOk(Header(adds, sha))
  {
    Encode(Header(adds, sha)) + PageOf(Table(adds, sha)) + Body(adds, |adds|) + Zeros(Total(adds) - End(adds, |adds|))
  }

  ghost predicate Built(img: Bytes, adds: seq<Add>, sha: Hash)
  {
    && AddsOk(adds) && IsHash(sha) && AllOk(Table(adds, sha)) && EntryOk(Header(adds, sha))
    && img == Image(adds, sha)
  }

  /** A finished image read back: entry by entry, and the files after the first page. */
  ghost predicate Shape(img: Bytes, adds: seq<Add>, sha: Hash)
  {
    && AddsOk(adds) && |img| == Total(adds)
    && (forall i: nat :: i < |adds| ==> ShowsAdd(img, adds, sha, i))
    && img[PAGE..End(adds, |adds|)] == Body(adds, |adds|)
  }

  /** Entry i + 2 is addition i. */
  ghost predicate ShowsAdd(img: Bytes, adds: seq<Add>, sha: Hash, i: nat)
    requires i < |adds|
  {
    EntryOk(EntryOf(adds, i, sha)) && HasEntry(img, i + 2, EntryOf(adds, i, sha))
  }

  lemma BuiltParts(img: Bytes, adds: seq<Add>, sha: Hash)
    requires Built(img, adds, sha)
    ensures |PageOf(Table(adds, sha))| == PAGE - 64 && |img| == Total(adds)
    ensures img[..64] == Encode(Header(adds, sha)) && img[64..PAGE] == PageOf(Table(adds, sha))
    ensures img[PAGE..End(adds, |adds|)] == Body(adds, |adds|)
  {
    hide Encode, Body, Table, Header;
    PageAt(Table(adds, sha), 0);
  }

  lemma BuiltEntry(img: Bytes, adds: seq<Add>, sha: Hash, k: nat)
    requires Built(img, adds, sha) && k < ENTRIES - 1
    ensures HasEntry(img, k + 1, Table(adds, sha)[k])
  {
    BuiltParts(img, adds, sha);
    PageAt(Table(adds, sha), k);
    SubSlice(img, 64, PAGE - 64, 64 * k, 64);
  }

  lemma BuiltHeader(img: Bytes, adds: seq<Add>, sha: Hash)
    requires Built(img, adds, sha)
    ensures HeaderOk(img, sha) && Field(img, 1, 2) == |img| && Field(img, 1, 3) == 2 + |adds|
  {
    BuiltParts(img, adds, sha);
    assert img[64 * 0..64 * 0 + 64] == img[..64];
    FileFields(img, 0, Header(adds, sha));
    BuiltEntry(img, adds, sha, 0);
    InfoFields(img, 1, Table(adds, sha)[0]);
  }

  lemma BuiltShape(img: Bytes, adds: seq<Add>, sha: Hash)
    requires Built(img, adds, sha)
    ensures Shape(img, adds, sha)
  {
    BuiltParts(img, adds, sha);
    forall i: nat | i < |adds|
      ensures ShowsAdd(img, adds, sha, i)
    {
      EntryOfOk(adds, i, sha);
      BuiltEntry(img, adds, sha, i + 1);
      assert Table(adds, sha)[i + 1] == EntryOf(adds, i, sha);
    }
  }

  lemma BodyTail(adds: seq<Add>, i: nat, p: nat, d: Bytes)
    requires i < |adds| && adds[i].AddFile? && d == adds[i].data && p + PAGE == PageUp(End(adds, i))
    ensures p + |d| == |Body(adds, i + 1)| && Body(adds, i + 1)[p..p + |d|] == d
  {
    var a := Body(adds, i) + Zeros(PageUp(End(adds, i)) - End(adds, i));
    assert Body(adds, i + 1) == a + d;
    assert |a| == p;
    SliceRight(a, d);
  }

  lemma BodyAt(adds: seq<Add>, i: nat, p: nat, d: Bytes)
    requires i < |adds| && adds[i].AddFile? && d == adds[i].data && p + PAGE == PageUp(End(adds, i))
    ensures p + |d| <= |Body(adds, |adds|)| && Body(adds, |adds|)[p..p + |d|] == d
  {
    BodyPrefix(adds, i + 1, |adds|);
    BodyTail(adds, i, p, d);
    PrefixSlice(Body(adds, i + 1), Body(adds, |adds|), p, |d|);
  }

  lemma PrefixSlice(a: Bytes, b: Bytes, p: nat, n: nat)
    requires a <= b && p + n <= |a|
    ensures b[p..p + n] == a[p..p + n]
  {
  }

  /** The bytes of a file are where its entry says. */
  lemma DataAt(img: Bytes, adds: seq<Add>, i: nat, o: nat, d: Bytes)
    requires i < |adds| && adds[i].AddFile? && o == PageUp(End(adds, i)) && d == adds[i].data
    requires |img| == Total(adds) && img[PAGE..End(adds, |adds|)] == Body(adds, |adds|)
    ensures o + |d| <= |img| && img[o..o + |d|] == d
  {
    hide Body, PageUp, End;
    FileEnds(adds, i);
    var p: nat := o - PAGE;
    BodyAt(adds, i, p, d);
    SliceOf(img, PAGE, End(adds, |adds|), p, |d|, o);
  }

  /** What a reader finds in entry i + 2. */
  lemma AddFields(img: Bytes, adds: seq<Add>, sha: Hash, i: nat)
    requires i < |adds| && AddOk(adds[i]) && ShowsAdd(img, adds, sha, i)
    ensures adds[i].AddFile? ==>
              && Field(img, i + 2, 0) == KIND_FILE && Field(img, i + 2, 1) == adds[i].kindOf
              && Field(img, i + 2, 2) == PageUp(End(adds, i)) && Field(img, i + 2, 3) == |adds[i].data|
              && img[64 * (i + 2) + 32..64 * (i + 2) + 64] == sha(adds[i].data)
    ensures adds[i].AddText? ==> Field(img, i + 2, 0) == KIND_BOARD || Field(img, i + 2, 0) == KIND_BUILD
  {
    hide Field, Encode, PageUp, End;
    if adds[i].AddFile? {
      FileFields(img, i + 2, EntryOf(adds, i, sha));
    } else {
      TextFields(img, i + 2, EntryOf(adds, i, sha));
    }
  }

  lemma ShapeGood(img: Bytes, adds: seq<Add>, sha: Hash, i: nat)
    requires Shape(img, adds, sha) && i < |adds|
    ensures 64 * (i + 2) + 64 <= |img| && GoodEntry(img, i + 2, |img|, sha) && Field(img, i + 2, 0) != 0
  {
    assert AddOk(adds[i]) && ShowsAdd(img, adds, sha, i);
    AddFields(img, adds, sha, i);
    if adds[i].AddFile? {
      SectionAt(img, adds, sha, i);
    }
  }

  lemma ShapeStop(img: Bytes, adds: seq<Add>, sha: Hash)
    requires Shape(img, adds, sha)
    ensures Stop(img, 2, 2 + |adds|) == 2 + |adds|
  {
    var m := Stop(img, 2, 2 + |adds|);
    if m < 2 + |adds| {
      ShapeGood(img, adds, sha, m - 2);
    }
  }

  lemma ShapeAccepted(img: Bytes, adds: seq<Add>, sha: Hash)
    requires HeaderOk(img, sha) && Field(img, 1, 2) == |img| && Field(img, 1, 3) == 2 + |adds| && Shape(img, adds, sha)
    ensures Accepts(img, sha)
  {
    hide Field, Shape;
    ShapeStop(img, adds, sha);
    forall i | 2 <= i < 2 + |adds|
      ensures GoodEntry(img, i, |img|, sha)
    {
      ShapeGood(img, adds, sha, i - 2);
    }
  }

  /** Every image the builder finishes is accepted. */
  lemma BuiltAccepted(img: Bytes, adds: seq<Add>, sha: Hash)
    requires Built(img, adds, sha)
    ensures Accepts(img, sha)
  {
    BuiltHeader(img, adds, sha);
    BuiltShape(img, adds, sha);
    ShapeAccepted(img, adds, sha);
  }

  /** The first file added with a type. */
  ghost predicate FirstAdded(adds: seq<Add>, t: nat, i: nat)
  {
    i < |adds| && IsType(adds[i], t) && forall j :: 0 <= j < i ==> !IsType(adds[j], t)
  }

  predicate IsType(a: Add, t: nat)
  {
    a.AddFile? && a.kindOf == t
  }

  lemma ShapeType(img: Bytes, adds: seq<Add>, sha: Hash, i: nat, t: nat)
    requires Shape(img, adds, sha) && i < |adds|
    ensures Names(img, i + 2, t) <==> IsType(adds[i], t)
  {
    assert AddOk(adds[i]) && ShowsAdd(img, adds, sha, i);
    AddFields(img, adds, sha, i);
  }

  /** A lookup that found something found the first file added. */
  lemma FoundFirst(img: Bytes, adds: seq<Add>, sha: Hash, t: nat, i: nat)
    requires Shape(img, adds, sha) && FirstOfType(img, t, 2 + |adds|, Some(i))
    ensures 2 <= i < 2 + |adds| && FirstAdded(adds, t, i - 2)
  {
    ShapeStop(img, adds, sha);
    ShapeType(img, adds, sha, i - 2, t);
    forall j: nat | j < i - 2
      ensures !IsType(adds[j], t)
    {
      ShapeType(img, adds, sha, j, t);
    }
  }

  lemma FoundNone(img: Bytes, adds: seq<Add>, sha: Hash, t: nat)
    requires Shape(img, adds, sha) && FirstOfType(img, t, 2 + |adds|, None)
    ensures forall i :: 0 <= i < |adds| ==> !IsType(adds[i], t)
  {
    ShapeStop(img, adds, sha);
    forall i: nat | i < |adds|
      ensures !IsType(adds[i], t)
    {
      ShapeType(img, adds, sha, i, t);
    }
  }

  /** The section an entry names holds the bytes of the file. */
  lemma SectionAt(img: Bytes, adds: seq<Add>, sha: Hash, i: nat)
    requires Shape(img, adds, sha) && i < |adds| && adds[i].AddFile?
    ensures SectionIs(img, i + 2, adds[i].data)
  {
    assert AddOk(adds[i]) && ShowsAdd(img, adds, sha, i);
    AddFields(img, adds, sha, i);
    DataAt(img, adds, i, PageUp(End(adds, i)), adds[i].data);
  }

  /** The section named by entry i is d. */
  ghost predicate SectionIs(img: Bytes, i: nat, d: Bytes)
  {
    && 64 * i + 64 <= |img|
    && var o, l := Field(img, i, 2), Field(img, i, 3);
       o + l <= |img| && img[o..o + l] == d
  }

  /** Looking a type up in a finished image gives exactly the bytes of the first file added with it, or nothing
      when there was none. */
  lemma BuiltLookup(img: Bytes, adds: seq<Add>, sha: Hash, t: nat, r: Option<nat>)
    requires Built(img, adds, sha) && FirstOfType(img, t, 2 + |adds|, r)
    ensures r.None? ==> forall i :: 0 <= i < |adds| ==> !IsType(adds[i], t)
    ensures r.Some? ==>
              && r.value >= 2 && FirstAdded(adds, t, r.value - 2)
              && SectionIs(img, r.value, adds[r.value - 2].data)
  {
    BuiltShape(img, adds, sha);
    if r.None? {
      FoundNone(img, adds, sha, t);
    } else {
      FoundFirst(img, adds, sha, t, r.value);
      SectionAt(img, adds, sha, r.value - 2);
    }
  }

  // ---------- an image the validator runs out of ----------

  /** Entries 1 to 63 of a page full of board strings that claims to have 65 entries. */
  function Crammed(): (t: seq<Entry>)
    ensures |t| == ENTRIES - 1 && AllOk(t)
  {
    [Info(PAGE, ENTRIES + 1)] + seq(ENTRIES - 2, _ => Text(KIND_BOARD, []))
  }

  /** That page as an image, with whatever hash it takes: every check holds, and the walk goes on past its end. */
  lemma CrammedImage(sha: Hash) returns (img: Bytes)
    requires IsHash(sha)
    ensures |img| == PAGE && HeaderOk(img, sha) && Field(img, 1, 2) == PAGE && Field(img, 1, 3) == ENTRIES + 1
    ensures ListLeaves(img, ENTRIES + 1, PAGE, sha)
  {
    hide Encode, PageOf, Crammed, Field;
    var t := Crammed();
    PageAt(t, 0);
    var h := File(TYPE_BOOT_IMAGE, 0, PAGE, Magic(), sha(PageOf(t)));
    img := Encode(h) + PageOf(t);
    assert img[64..PAGE] == PageOf(t);
    CrammedEntries(img, h, sha);
    var m := Stop(img, 2, ENTRIES + 1);
    StopWithin(img, 2, ENTRIES + 1);
    assert m == ENTRIES;
    assert EntryLeaves(img, m, PAGE);
  }

  /** The entries before the stop begin in the image. */
  lemma {:induction false} StopWithin(img: Bytes, i: nat, n: nat)
    ensures Stop(img, i, n) == i || 64 * (Stop(img, i, n) - 1) + 4 <= |img|
    decreases n - i
  {
    if i < n && 64 * i + 4 <= |img| && Field(img, i, 0) != 0 {
      StopWithin(img, i + 1, n);
    }
  }

  lemma CrammedEntries(img: Bytes, h: Entry, sha: Hash)
    requires EntryOk(h) && h == File(TYPE_BOOT_IMAGE, 0, PAGE, Magic(), sha(PageOf(Crammed())))
    requires |img| == PAGE && img == Encode(h) + PageOf(Crammed())
    ensures HeaderOk(img, sha) && Field(img, 1, 2) == PAGE && Field(img, 1, 3) == ENTRIES + 1
    ensures forall i :: 2 <= i < ENTRIES ==> Field(img, i, 0) == KIND_BOARD
  {
    hide Encode, PageOf, Field;
    var t := Crammed();
    assert img[64..PAGE] == PageOf(t);
    assert img[64 * 0..64 * 0 + 64] == Encode(h);
    FileFields(img, 0, h);
    forall k | 0 <= k < ENTRIES - 1
      ensures HasEntry(img, k + 1, t[k])
    {
      PageAt(t, k);
      SubSlice(img, 64, PAGE - 64, 64 * k, 64);
    }
    assert HasEntry(img, 0 + 1, t[0]);
    InfoFields(img, 1, t[0]);
    forall i | 2 <= i < ENTRIES
      ensures Field(img, i, 0) == KIND_BOARD
    {
      assert HasEntry(img, i - 1 + 1, t[i - 1]);
      TextFields(img, i, t[i - 1]);
    }
  }
}
