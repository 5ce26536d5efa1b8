/** What validate_bootimage of lib/bootimage/bootimage.c is for: a finished image that has been tampered with is
    refused, as far as the hash function tells the change. */
module BootimageSeal {
  import opened Lists
  import opened Bootimage
  import opened BootimageCode

  /** img' is img but for bytes from `from` up to `to`. */
  ghost predicate DiffersWithin(img: Bytes, img': Bytes, from: nat, to: nat)
  {
    |img'| == |img| && forall k :: 0 <= k < |img| && !(from <= k < to) ==> img'[k] == img[k]
  }

  lemma SliceKept(img: Bytes, img': Bytes, from: nat, to: nat, a: nat, b: nat)
    requires DiffersWithin(img, img', from, to) && a <= b <= |img| && (b <= from || to <= a)
    ensures img'[a..b] == img[a..b]
  {
  }

  lemma {:induction false} WordKept(b: Bytes, b': Bytes, at: nat, n: nat)
    requires at + n <= |b| == |b'| && b'[at..at + n] == b[at..at + n]
    ensures GetLE(b', at, n) == GetLE(b, at, n)
    decreases n
  {
    if n > 0 {
      assert b'[at] == b'[at..at + n][0] == b[at];
      SubSlice(b, at, n, 1, n - 1);
      SubSlice(b', at, n, 1, n - 1);
      WordKept(b, b', at + 1, n - 1);
    }
  }

  lemma FieldKept(img: Bytes, img': Bytes, from: nat, to: nat, i: nat, k: nat)
    requires DiffersWithin(img, img', from, to) && 64 * i + 4 * k + 4 <= |img|
    requires 64 * i + 4 * k + 4 <= from || to <= 64 * i + 4 * k
    ensures Field(img', i, k) == Field(img, i, k)
  {
    var at := 64 * i + 4 * k;
    SliceKept(img, img', from, to, at, at + 4);
    WordKept(img, img', at, 4);
  }

  // ---------- a file ----------

  /** The first page is as it was. */
  lemma HeaderKept(img: Bytes, img': Bytes, from: nat, to: nat, sha: Hash)
    requires DiffersWithin(img, img', from, to) && PAGE <= from && HeaderOk(img, sha)
    ensures HeaderOk(img', sha) && Field(img', 1, 2) == Field(img, 1, 2) && Field(img', 1, 3) == Field(img, 1, 3)
  {
    hide Field;
    FieldKept(img, img', from, to, 0, 0);
    FieldKept(img, img', from, to, 0, 1);
    FieldKept(img, img', from, to, 0, 2);
    FieldKept(img, img', from, to, 0, 3);
    FieldKept(img, img', from, to, 1, 0);
    FieldKept(img, img', from, to, 1, 1);
    FieldKept(img, img', from, to, 1, 2);
    FieldKept(img, img', from, to, 1, 3);
    SliceKept(img, img', from, to, 16, 32);
    SliceKept(img, img', from, to, 32, 64);
    SliceKept(img, img', from, to, 64, PAGE);
  }

  /** A file ends before the next one begins. */
  lemma FilesApart(adds: seq<Add>, j: nat, i: nat)
    requires j < i < |adds| && adds[j].AddFile?
    ensures PageUp(End(adds, j)) + |adds[j].data| <= PageUp(End(adds, i))
  {
    hide PageUp;
    EndGrows(adds, j + 1, i);
  }

  /** Where the bytes of file i are. */
  function FileAt(adds: seq<Add>, i: nat): nat
    requires i < |adds|
  {
    PageUp(End(adds, i))
  }

  /** An entry before that of the file is as good as it was. */
  lemma EarlierGood(img: Bytes, img': Bytes, adds: seq<Add>, sha: Hash, i: nat, j: nat)
    requires Shape(img, adds, sha) && j < i < |adds| && adds[i].AddFile?
    requires DiffersWithin(img, img', FileAt(adds, i), FileAt(adds, i) + |adds[i].data|)
    ensures 64 * (j + 2) + 64 <= |img| && GoodEntry(img', j + 2, |img|, sha) && Field(img', j + 2, 0) != 0
  {
    hide Field, Shape, End, PageUp;
    var from := FileAt(adds, i);
    var to := from + |adds[i].data|;
    ShapeGood(img, adds, sha, j);
    EntryInPage(img, adds, sha, i, j);
    EntryKept(img, img', from, to, j + 2);
    if Field(img, j + 2, 0) == KIND_FILE {
      FileBefore(img, adds, sha, i, j);
      var o, l := Field(img, j + 2, 2), Field(img, j + 2, 3);
      SliceKept(img, img', from, to, o, o + l);
    }
  }

  lemma EntryInPage(img: Bytes, adds: seq<Add>, sha: Hash, i: nat, j: nat)
    requires Shape(img, adds, sha) && j < |adds| && i < |adds|
    ensures 64 * (j + 2) + 64 <= PAGE <= FileAt(adds, i)
  {
  }

  lemma EntryKept(img: Bytes, img': Bytes, from: nat, to: nat, k: nat)
    requires DiffersWithin(img, img', from, to) && 64 * k + 64 <= |img| && 64 * k + 64 <= from
    ensures Field(img', k, 0) == Field(img, k, 0) && Field(img', k, 2) == Field(img, k, 2)
    ensures Field(img', k, 3) == Field(img, k, 3)
    ensures img'[64 * k + 32..64 * k + 64] == img[64 * k + 32..64 * k + 64]
  {
    hide Field;
    FieldKept(img, img', from, to, k, 0);
    FieldKept(img, img', from, to, k, 2);
    FieldKept(img, img', from, to, k, 3);
    SliceKept(img, img', from, to, 64 * k + 32, 64 * k + 64);
  }

  lemma FileBefore(img: Bytes, adds: seq<Add>, sha: Hash, i: nat, j: nat)
    requires Shape(img, adds, sha) && j < i < |adds| && 64 * (j + 2) + 64 <= |img| && Field(img, j + 2, 0) == KIND_FILE
    ensures Field(img, j + 2, 2) + Field(img, j + 2, 3) <= FileAt(adds, i)
  {
    hide Field, End, PageUp;
    assert AddOk(adds[j]) && ShowsAdd(img, adds, sha, j);
    AddFields(img, adds, sha, j);
    FilesApart(adds, j, i);
  }

  /** The entry of the file names a hash its bytes no longer have. */
  lemma EntryDiffers(img: Bytes, img': Bytes, adds: seq<Add>, sha: Hash, i: nat)
    requires Shape(img, adds, sha) && i < |adds| && adds[i].AddFile?
    requires FileAt(adds, i) + |adds[i].data| <= |img| == |img'|
    requires DiffersWithin(img, img', FileAt(adds, i), FileAt(adds, i) + |adds[i].data|)
    requires sha(img'[FileAt(adds, i)..FileAt(adds, i) + |adds[i].data|]) != sha(adds[i].data)
    ensures HashDiffers(img', i + 2, |img|, sha)
  {
    hide Field, End, PageUp;
    EntryInPage(img, adds, sha, i, i);
    assert AddOk(adds[i]) && ShowsAdd(img, adds, sha, i);
    AddFields(img, adds, sha, i);
    ShapeGood(img, adds, sha, i);
    EntryKept(img, img', FileAt(adds, i), FileAt(adds, i) + |adds[i].data|, i + 2);
  }

  lemma TamperedList(img: Bytes, img': Bytes, adds: seq<Add>, sha: Hash, i: nat)
    requires Shape(img, adds, sha) && i < |adds| && adds[i].AddFile?
    requires FileAt(adds, i) + |adds[i].data| <= |img| == |img'|
    requires DiffersWithin(img, img', FileAt(adds, i), FileAt(adds, i) + |adds[i].data|)
    requires sha(img'[FileAt(adds, i)..FileAt(adds, i) + |adds[i].data|]) != sha(adds[i].data)
    ensures ListDiffers(img', 2 + |adds|, |img|, sha)
  {
    hide Field, Shape, FileAt, GoodEntry;
    EntryDiffers(img, img', adds, sha, i);
    forall j | 2 <= j < i + 2
      ensures 64 * j + 64 <= |img'| && GoodEntry(img', j, |img|, sha) && Field(img', j, 0) != 0
    {
      EarlierGood(img, img', adds, sha, i, j - 2);
    }
    assert i + 2 < Stop(img', 2, 2 + |adds|);
  }

  /** Change the bytes of one file of a finished image, in any way that the hash function tells, and validation
      fails with a checksum error. */
  method RejectsFile(img': Bytes, sha: Hash, ghost img: Bytes, ghost adds: seq<Add>, ghost i: nat)
    returns (st: Status)
    requires Built(img, adds, sha) && i < |adds| && adds[i].AddFile?
    requires FileAt(adds, i) + |adds[i].data| <= |img| == |img'|
    requires DiffersWithin(img, img', FileAt(adds, i), FileAt(adds, i) + |adds[i].data|)
    requires sha(img'[FileAt(adds, i)..FileAt(adds, i) + |adds[i].data|]) != sha(adds[i].data)
    ensures st == ChecksumFail
  {
    hide Built, Shape, Field, FileAt, ListDiffers;
    var len;
    st, len := Validate(img', sha);
    BuiltHeader(img, adds, sha);
    BuiltShape(img, adds, sha);
    FileAfterPage(adds, i);
    HeaderKept(img, img', FileAt(adds, i), FileAt(adds, i) + |adds[i].data|, sha);
    TamperedList(img, img', adds, sha, i);
  }

  lemma FileAfterPage(adds: seq<Add>, i: nat)
    requires i < |adds|
    ensures PAGE <= FileAt(adds, i)
  {
  }

  /** Every file of a finished image lies in it, so the change above can be made to any of them. */
  lemma FileInside(img: Bytes, adds: seq<Add>, sha: Hash, i: nat)
    requires Built(img, adds, sha) && i < |adds| && adds[i].AddFile?
    ensures FileAt(adds, i) + |adds[i].data| <= |img|
    ensures img[FileAt(adds, i)..FileAt(adds, i) + |adds[i].data|] == adds[i].data
  {
    BuiltParts(img, adds, sha);
    DataAt(img, adds, i, PageUp(End(adds, i)), adds[i].data);
  }

  // ---------- the first page ----------

  /** Change the entries after the first of a finished image, in any way that the hash function tells, and
      validation fails with a checksum error. */
  method RejectsPage(img': Bytes, sha: Hash, ghost img: Bytes, ghost adds: seq<Add>) returns (st: Status)
    requires Built(img, adds, sha) && |img| >= 4096 && DiffersWithin(img, img', 64, 4096)
    requires sha(img'[64..4096]) != sha(img[64..4096])
    ensures st == ChecksumFail
  {
    hide Built, Field, ListDiffers;
    var len;
    st, len := Validate(img', sha);
    BuiltHeader(img, adds, sha);
    FirstKept(img, img', sha);
  }

  lemma FirstKept(img: Bytes, img': Bytes, sha: Hash)
    requires HeaderOk(img, sha) && DiffersWithin(img, img', 64, PAGE) && sha(img'[64..PAGE]) != sha(img[64..PAGE])
    ensures PageDiffers(img', sha)
  {
    hide Field;
    FieldKept(img, img', 64, PAGE, 0, 0);
    FieldKept(img, img', 64, PAGE, 0, 1);
    FieldKept(img, img', 64, PAGE, 0, 2);
    FieldKept(img, img', 64, PAGE, 0, 3);
    SliceKept(img, img', 64, PAGE, 16, 32);
    SliceKept(img, img', 64, PAGE, 32, 64);
  }
}
