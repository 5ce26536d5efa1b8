/** lib/libc/qsort.c: Bentley and McIlroy's quicksort, in place, for any element type and any comparison
    that is a total preorder (section 7.22.5.2 of C11).  Pointers are indices, and the element size is 1. */
module Qsort {

  /** One call of the comparison function. */
  function Cmp<T>(cmp: (T, T) -> int, x: T, y: T): int
  {
    cmp(x, y)
  }

  /** What a comparison function must be: consistent under exchange of its arguments, and transitive. */
  ghost predicate Preorder<T(!new)>(cmp: (T, T) -> int)
  {
    && (forall x, y :: Cmp(cmp, x, y) < 0 <==> Cmp(cmp, y, x) > 0)
    && (forall x, y, z :: Cmp(cmp, x, y) <= 0 && Cmp(cmp, y, z) <= 0 ==> Cmp(cmp, x, z) <= 0)
  }

  ghost predicate Sorted<T>(s: seq<T>, lo: nat, hi: nat, cmp: (T, T) -> int)
    requires hi <= |s|
  {
    forall i, j :: lo <= i < j < hi ==> Cmp(cmp, s[i], s[j]) <= 0
  }

  /** Nothing in [lo, mid) is greater than anything in [mid, hi). */
  ghost predicate Split<T>(s: seq<T>, lo: nat, mid: nat, hi: nat, cmp: (T, T) -> int)
    requires hi <= |s|
  {
    forall i, j :: lo <= i < mid <= j < hi ==> Cmp(cmp, s[i], s[j]) <= 0
  }

  /** The elements of s, each as often as it occurs. */
  ghost function Bag<T>(s: seq<T>): multiset<T>
  {
    if s == [] then multiset{} else multiset{s[0]} + Bag(s[1..])
  }

  lemma {:induction false} BagIs<T>(s: seq<T>)
    ensures Bag(s) == multiset(s)
  {
    if s != [] {
      BagIs(s[1..]);
      assert s == [s[0]] + s[1..];
    }
  }

  /** t is s with the elements of [lo, hi) rearranged. */
  ghost predicate Perm<T>(s: seq<T>, t: seq<T>, lo: nat, hi: nat)
  {
    && lo <= hi <= |s| == |t| && Bag(s) == Bag(t)
    && forall i :: 0 <= i < |s| && !(lo <= i < hi) ==> t[i] == s[i]
  }

  // ---------- permutations ----------

  lemma PermTrans<T>(s: seq<T>, t: seq<T>, u: seq<T>, lo: nat, hi: nat)
    requires Perm(s, t, lo, hi) && Perm(t, u, lo, hi)
    ensures Perm(s, u, lo, hi)
  {
  }

  /** A rearrangement of part of a range is one of the range. */
  lemma PermWiden<T>(s: seq<T>, t: seq<T>, lo: nat, hi: nat, l: nat, h: nat)
    requires Perm(s, t, lo, hi) && l <= lo && hi <= h <= |s|
    ensures Perm(s, t, l, h)
  {
  }

  function Swapped<T>(s: seq<T>, i: nat, j: nat): seq<T>
    requires i < |s| && j < |s|
  {
    s[i := s[j]][j := s[i]]
  }

  lemma PermSwap<T>(s: seq<T>, i: nat, j: nat, lo: nat, hi: nat)
    requires lo <= i < hi <= |s| && lo <= j < hi
    ensures Perm(s, Swapped(s, i, j), lo, hi)
  {
    SwapBag(s, Swapped(s, i, j), i, j);
    BagIs(s);
    BagIs(Swapped(s, i, j));
  }

  lemma SwapBag<T>(s: seq<T>, t: seq<T>, i: nat, j: nat)
    requires i < |s| && j < |s| && t == Swapped(s, i, j)
    ensures multiset(s) == multiset(t)
  {
  }

  lemma PermThenSwap<T>(s: seq<T>, t: seq<T>, i: nat, j: nat, lo: nat, hi: nat)
    requires Perm(s, t, lo, hi) && lo <= i < hi && lo <= j < hi
    ensures Perm(s, Swapped(t, i, j), lo, hi)
  {
    PermSwap(t, i, j, lo, hi);
    PermTrans(s, t, Swapped(t, i, j), lo, hi);
  }

  lemma Slices<T>(s: seq<T>, lo: nat, hi: nat)
    requires lo <= hi <= |s|
    ensures multiset(s) == multiset(s[..lo]) + multiset(s[lo..hi]) + multiset(s[hi..])
  {
    assert s == s[..lo] + s[lo..hi] + s[hi..];
  }

  lemma PermSlice<T>(s: seq<T>, t: seq<T>, lo: nat, hi: nat)
    requires Perm(s, t, lo, hi)
    ensures multiset(s[lo..hi]) == multiset(t[lo..hi])
  {
    BagIs(s);
    BagIs(t);
    Slices(s, lo, hi);
    Slices(t, lo, hi);
    assert s[..lo] == t[..lo];
    assert s[hi..] == t[hi..];
    Cancel(multiset(s[..lo]), multiset(s[lo..hi]), multiset(t[lo..hi]), multiset(s[hi..]));
  }

  lemma Cancel<T>(a: multiset<T>, b: multiset<T>, c: multiset<T>, d: multiset<T>)
    requires a + b + d == a + c + d
    ensures b == c
  {
    forall x ensures b[x] == c[x] {
      assert (a + b + d)[x] == (a + c + d)[x];
    }
  }

  /** An element of a rearranged range was in the range before. */
  lemma PermHas<T>(s: seq<T>, t: seq<T>, lo: nat, hi: nat, i: nat) returns (k: nat)
    requires Perm(s, t, lo, hi) && lo <= i < hi
    ensures lo <= k < hi && s[k] == t[i]
  {
    PermSlice(s, t, lo, hi);
    assert t[i] in t[lo..hi];
    assert t[i] in multiset(t[lo..hi]);
    assert t[i] in s[lo..hi];
    k :| lo <= k < hi && s[k] == t[i];
  }

  /** Rearranging one side of a split keeps it a split. */
  lemma PermSplit<T>(s: seq<T>, t: seq<T>, lo: nat, mid: nat, hi: nat, l: nat, h: nat, cmp: (T, T) -> int)
    requires Perm(s, t, l, h) && hi <= |s| && lo <= mid <= hi
    requires (lo <= l && h <= mid) || (mid <= l && h <= hi)
    requires Split(s, lo, mid, hi, cmp)
    ensures Split(t, lo, mid, hi, cmp)
  {
    forall i, j | lo <= i < mid <= j < hi
      ensures Cmp(cmp, t[i], t[j]) <= 0
    {
      var i', j' := i, j;
      if l <= i < h {
        i' := PermHas(s, t, l, h, i);
      }
      if l <= j < h {
        j' := PermHas(s, t, l, h, j);
      }
      assert Cmp(cmp, s[i'], s[j']) <= 0;
    }
  }

  lemma PermSorted<T>(s: seq<T>, t: seq<T>, lo: nat, hi: nat, l: nat, h: nat, cmp: (T, T) -> int)
    requires Perm(s, t, l, h) && hi <= |s| && Sorted(s, lo, hi, cmp) && (hi <= l || h <= lo)
    ensures Sorted(t, lo, hi, cmp)
  {
  }

  lemma SortedJoin<T>(s: seq<T>, lo: nat, mid: nat, hi: nat, cmp: (T, T) -> int)
    requires lo <= mid <= hi <= |s|
    requires Sorted(s, lo, mid, cmp) && Sorted(s, mid, hi, cmp) && Split(s, lo, mid, hi, cmp)
    ensures Sorted(s, lo, hi, cmp)
  {
  }

  // ---------- swapping ----------

  method Swap<T>(a: array<T>, i: nat, j: nat)
    requires i < a.Length && j < a.Length
    modifies a
    ensures a[..] == Swapped(old(a[..]), i, j)
  {
    var t := a[i];
    a[i] := a[j];
    a[j] := t;
  }

  /** s with the blocks of n elements at i and at j exchanged. */
  ghost predicate Exchanged<T>(s: seq<T>, t: seq<T>, i: nat, j: nat, n: nat)
    requires i + n <= j && j + n <= |s|
  {
    && |t| == |s|
    && (forall k :: i <= k < i + n ==> t[k] == s[k + (j - i)])
    && (forall k :: j <= k < j + n ==> t[k] == s[k - (j - i)])
    && (forall k :: 0 <= k < |s| && !(i <= k < i + n) && !(j <= k < j + n) ==> t[k] == s[k])
  }

  /** vecswap: exchange two blocks of n elements. */
  method VecSwap<T>(a: array<T>, i: nat, j: nat, n: nat)
    requires i + n <= j && j + n <= a.Length
    modifies a
    ensures Exchanged(old(a[..]), a[..], i, j, n) && Perm(old(a[..]), a[..], i, j + n)
  {
    var m := 0;
    ghost var s0, s := a[..], a[..];
    while m < n
      invariant m <= n && a[..] == s && Exchanged(s0, s, i, j, m) && Perm(s0, s, i, j + n)
    {
      PermThenSwap(s0, s, i + m, j + m, i, j + n);
      ExchangedNext(s0, s, i, j, m);
      Swap(a, i + m, j + m);
      s, m := Swapped(s, i + m, j + m), m + 1;
    }
  }

  lemma ExchangedNext<T>(s: seq<T>, t: seq<T>, i: nat, j: nat, m: nat)
    requires i + m + 1 <= j && j + m + 1 <= |s| && Exchanged(s, t, i, j, m)
    ensures Exchanged(s, Swapped(t, i + m, j + m), i, j, m + 1)
  {
    var u := Swapped(t, i + m, j + m);
    assert t[i + m] == s[i + m];
    assert t[j + m] == s[j + m];
    assert forall k :: 0 <= k < |s| && k != i + m && k != j + m ==> u[k] == t[k];
  }

  // ---------- insertion sort ----------

  method InsertionSort<T(!new)>(a: array<T>, lo: nat, n: nat, cmp: (T, T) -> int)
    requires Preorder(cmp) && lo + n <= a.Length
    modifies a
    ensures Perm(old(a[..]), a[..], lo, lo + n) && Sorted(a[..], lo, lo + n, cmp)
  {
    if n == 0 {
      return;
    }
    var pm := lo + 1;
    while pm < lo + n
      invariant lo + 1 <= pm <= lo + n
      invariant Perm(old(a[..]), a[..], lo, lo + n) && Sorted(a[..], lo, pm, cmp)
    {
      ghost var s := a[..];
      Sink(a, lo, pm, cmp);
      PermWiden(s, a[..], lo, pm + 1, lo, lo + n);
      PermTrans(old(a[..]), s, a[..], lo, lo + n);
      pm := pm + 1;
    }
  }

  /** [lo, pm] is sorted but for the element at pl, which may belong further down. */
  ghost predicate Sinking<T>(s: seq<T>, lo: nat, pl: nat, pm: nat, cmp: (T, T) -> int)
    requires pm < |s|
  {
    forall i, j :: lo <= i < j <= pm && j != pl ==> Cmp(cmp, s[i], s[j]) <= 0
  }

  /** Its inner loop: move the element at pm down to its place. */
  method Sink<T(!new)>(a: array<T>, lo: nat, pm: nat, cmp: (T, T) -> int)
    requires Preorder(cmp) && lo < pm < a.Length && Sorted(a[..], lo, pm, cmp)
    modifies a
    ensures Perm(old(a[..]), a[..], lo, pm + 1) && Sorted(a[..], lo, pm + 1, cmp)
  {
    var pl := pm;
    SinkStart(a[..], lo, pm, cmp);
    while pl > lo && Cmp(cmp, a[pl - 1], a[pl]) > 0
      invariant lo <= pl <= pm && Sunk(old(a[..]), a[..], lo, pl, pm, cmp)
    {
      SinkOn(old(a[..]), a[..], lo, pl, pm, cmp);
      Swap(a, pl, pl - 1);
      pl := pl - 1;
    }
    SinkDone(a[..], lo, pl, pm, cmp);
  }

  ghost predicate Sunk<T>(s0: seq<T>, s: seq<T>, lo: nat, pl: nat, pm: nat, cmp: (T, T) -> int)
  {
    pm < |s| && Perm(s0, s, lo, pm + 1) && Sinking(s, lo, pl, pm, cmp)
  }

  lemma SinkStart<T>(s: seq<T>, lo: nat, pm: nat, cmp: (T, T) -> int)
    requires lo < pm < |s| && Sorted(s, lo, pm, cmp)
    ensures Sunk(s, s, lo, pm, pm, cmp)
  {
  }

  lemma SinkOn<T(!new)>(s0: seq<T>, s: seq<T>, lo: nat, pl: nat, pm: nat, cmp: (T, T) -> int)
    requires Preorder(cmp) && lo < pl <= pm && Sunk(s0, s, lo, pl, pm, cmp) && Cmp(cmp, s[pl - 1], s[pl]) > 0
    ensures Sunk(s0, Swapped(s, pl, pl - 1), lo, pl - 1, pm, cmp)
  {
    SinkStep(s, lo, pl, pm, cmp);
    PermThenSwap(s0, s, pl, pl - 1, lo, pm + 1);
  }

  lemma SinkStep<T(!new)>(s: seq<T>, lo: nat, pl: nat, pm: nat, cmp: (T, T) -> int)
    requires Preorder(cmp) && lo < pl <= pm < |s| && Sinking(s, lo, pl, pm, cmp) && Cmp(cmp, s[pl - 1], s[pl]) > 0
    ensures Sinking(Swapped(s, pl, pl - 1), lo, pl - 1, pm, cmp)
  {
    var t := Swapped(s, pl, pl - 1);
    forall i, j | lo <= i < j <= pm && j != pl - 1
      ensures Cmp(cmp, t[i], t[j]) <= 0
    {
      assert Cmp(cmp, s[pl], s[pl - 1]) < 0;
    }
  }

  lemma SinkDone<T(!new)>(s: seq<T>, lo: nat, pl: nat, pm: nat, cmp: (T, T) -> int)
    requires Preorder(cmp) && lo <= pl <= pm < |s| && Sinking(s, lo, pl, pm, cmp)
    requires pl == lo || Cmp(cmp, s[pl - 1], s[pl]) <= 0
    ensures Sorted(s, lo, pm + 1, cmp)
  {
    forall i | lo <= i < pl ensures Cmp(cmp, s[i], s[pl]) <= 0 {
      if i < pl - 1 {
        assert Cmp(cmp, s[i], s[pl - 1]) <= 0;
      }
    }
  }

  // ---------- choosing a pivot ----------

  /** med3: the index, of three, of a median element. */
  function Med3<T>(s: seq<T>, i: nat, j: nat, k: nat, cmp: (T, T) -> int): (m: nat)
    requires i < |s| && j < |s| && k < |s|
    ensures m == i || m == j || m == k
  {
    if Cmp(cmp, s[i], s[j]) < 0 then
      if Cmp(cmp, s[j], s[k]) < 0 then j else if Cmp(cmp, s[i], s[k]) < 0 then k else i
    else
      if Cmp(cmp, s[j], s[k]) > 0 then j else if Cmp(cmp, s[i], s[k]) < 0 then i else k
  }

  ghost predicate Between<T>(cmp: (T, T) -> int, x: T, y: T, z: T)
  {
    (Cmp(cmp, x, y) <= 0 && Cmp(cmp, y, z) <= 0) || (Cmp(cmp, z, y) <= 0 && Cmp(cmp, y, x) <= 0)
  }

  /** It is a median: the other two do not both lie on one side of it. */
  lemma Med3Is<T(!new)>(s: seq<T>, i: nat, j: nat, k: nat, cmp: (T, T) -> int)
    requires Preorder(cmp) && i < |s| && j < |s| && k < |s|
    ensures var m := Med3(s, i, j, k, cmp);
      && (m == i ==> Between(cmp, s[j], s[i], s[k]) || m == j || m == k)
      && (m == j ==> Between(cmp, s[i], s[j], s[k]) || m == i || m == k)
      && (m == k ==> Between(cmp, s[i], s[k], s[j]) || m == i || m == j)
  {
    assert Cmp(cmp, s[i], s[j]) < 0 <==> Cmp(cmp, s[j], s[i]) > 0;
    assert Cmp(cmp, s[j], s[k]) < 0 <==> Cmp(cmp, s[k], s[j]) > 0;
    assert Cmp(cmp, s[i], s[k]) < 0 <==> Cmp(cmp, s[k], s[i]) > 0;
    assert Cmp(cmp, s[j], s[i]) < 0 <==> Cmp(cmp, s[i], s[j]) > 0;
    assert Cmp(cmp, s[k], s[j]) < 0 <==> Cmp(cmp, s[j], s[k]) > 0;
    assert Cmp(cmp, s[k], s[i]) < 0 <==> Cmp(cmp, s[i], s[k]) > 0;
  }

  /** The pivot for the n elements from lo: the middle one, a median of three, or a median of medians. */
  method ChoosePivot<T>(a: array<T>, lo: nat, n: nat, cmp: (T, T) -> int) returns (pm: nat)
    requires 7 <= n && lo + n <= a.Length
    ensures lo <= pm < lo + n
  {
    pm := lo + n / 2;
    if n > 7 {
      var pl, pn := lo, lo + n - 1;
      if n > 40 {
        var d := n / 8;
        pl := Med3(a[..], pl, pl + d, pl + 2 * d, cmp);
        pm := Med3(a[..], pm - d, pm, pm + d, cmp);
        pn := Med3(a[..], pn - 2 * d, pn - d, pn, cmp);
      }
      pm := Med3(a[..], pl, pm, pn, cmp);
    }
  }

  // ---------- the three-way partition ----------

  /** While the pivot v sits at lo: [lo, pa) is equal to it, [pa, pb) below, (pc, pd] above, (pd, hi) equal. */
  ghost predicate Parting<T>(s: seq<T>, lo: nat, pa: nat, pb: nat, pc: int, pd: int, hi: nat, v: T, cmp: (T, T) -> int)
  {
    && lo < pa <= pb <= pc + 1 <= pd + 1 <= hi <= |s|
    && s[lo] == v
    && (forall i :: lo <= i < pa ==> Cmp(cmp, s[i], v) == 0)
    && (forall i :: pa <= i < pb ==> Cmp(cmp, s[i], v) < 0)
    && (forall i :: pc < i <= pd ==> Cmp(cmp, s[i], v) > 0)
    && (forall i :: pd < i < hi ==> Cmp(cmp, s[i], v) == 0)
  }

  /** The first inner loop: pass over elements not above the pivot, parking equal ones on the left. */
  method ScanUp<T>(a: array<T>, lo: nat, pa0: nat, pb0: nat, pc: int, ghost pd: int, ghost hi: nat, ghost v: T,
                   cmp: (T, T) -> int)
    returns (pa: nat, pb: nat, swapped: bool)
    requires hi <= a.Length && Parting(a[..], lo, pa0, pb0, pc, pd, hi, v, cmp)
    modifies a
    ensures Parting(a[..], lo, pa, pb, pc, pd, hi, v, cmp) && Perm(old(a[..]), a[..], lo, hi)
    ensures pb0 <= pb && (pb <= pc ==> Cmp(cmp, a[pb], v) > 0)
  {
    pa, pb, swapped := pa0, pb0, false;
    while pb <= pc && Cmp(cmp, a[pb], a[lo]) <= 0
      invariant Parting(a[..], lo, pa, pb, pc, pd, hi, v, cmp) && Perm(old(a[..]), a[..], lo, hi) && pb0 <= pb
      decreases pc - pb
    {
      if Cmp(cmp, a[pb], a[lo]) == 0 {
        swapped := true;
        PermThenSwap(old(a[..]), a[..], pa, pb, lo, hi);
        ParkLeft(a[..], lo, pa, pb, pc, pd, hi, v, cmp);
        Swap(a, pa, pb);
        pa := pa + 1;
      }
      pb := pb + 1;
    }
  }

  lemma ParkLeft<T>(s: seq<T>, lo: nat, pa: nat, pb: nat, pc: int, pd: int, hi: nat, v: T, cmp: (T, T) -> int)
    requires Parting(s, lo, pa, pb, pc, pd, hi, v, cmp) && pb <= pc && Cmp(cmp, s[pb], v) == 0
    ensures Parting(Swapped(s, pa, pb), lo, pa + 1, pb + 1, pc, pd, hi, v, cmp)
  {
  }

  /** The second: pass down over elements not below it, parking equal ones on the right. */
  method ScanDown<T>(a: array<T>, lo: nat, ghost pa: nat, pb: nat, pc0: int, pd0: int, ghost hi: nat, ghost v: T,
                     cmp: (T, T) -> int)
    returns (pc: int, pd: int, swapped: bool)
    requires hi <= a.Length && Parting(a[..], lo, pa, pb, pc0, pd0, hi, v, cmp)
    requires pb <= pc0 ==> Cmp(cmp, a[pb], v) > 0
    modifies a
    ensures Parting(a[..], lo, pa, pb, pc, pd, hi, v, cmp) && Perm(old(a[..]), a[..], lo, hi)
    ensures pc <= pc0 && (pb <= pc ==> Cmp(cmp, a[pc], v) < 0 && Cmp(cmp, a[pb], v) > 0)
  {
    pc, pd, swapped := pc0, pd0, false;
    while pb <= pc && Cmp(cmp, a[pc], a[lo]) >= 0
      invariant Parting(a[..], lo, pa, pb, pc, pd, hi, v, cmp) && Perm(old(a[..]), a[..], lo, hi) && pc <= pc0
      invariant pb <= pc ==> Cmp(cmp, a[pb], v) > 0
      decreases pc - pb
    {
      if Cmp(cmp, a[pc], a[lo]) == 0 {
        swapped := true;
        PermThenSwap(old(a[..]), a[..], pc, pd, lo, hi);
        ParkRight(a[..], lo, pa, pb, pc, pd, hi, v, cmp);
        Swap(a, pc, pd);
        pd := pd - 1;
      }
      pc := pc - 1;
    }
  }

  lemma ParkRight<T>(s: seq<T>, lo: nat, pa: nat, pb: nat, pc: int, pd: int, hi: nat, v: T, cmp: (T, T) -> int)
    requires Parting(s, lo, pa, pb, pc, pd, hi, v, cmp) && pb <= pc && Cmp(cmp, s[pc], v) == 0 && Cmp(cmp, s[pb], v) > 0
    ensures Parting(Swapped(s, pc, pd), lo, pa, pb, pc - 1, pd - 1, hi, v, cmp)
    ensures pb < pc && Swapped(s, pc, pd)[pb] == s[pb]
  {
  }

  /** The whole partition of the n elements from lo around the pivot at lo. */
  method Partition<T>(a: array<T>, lo: nat, n: nat, cmp: (T, T) -> int)
    returns (pa: nat, pb: nat, pc: int, pd: int, swapped: bool)
    requires 1 <= n && lo + n <= a.Length && Cmp(cmp, a[lo], a[lo]) == 0
    modifies a
    ensures Perm(old(a[..]), a[..], lo, lo + n) && Parting(a[..], lo, pa, pb, pc, pd, lo + n, old(a[lo]), cmp)
            && pb == pc + 1
  {
    ghost var v, hi := a[lo], lo + n;
    pa, pb, pc, pd, swapped := lo + 1, lo + 1, lo + n - 1, lo + n - 1, false;
    while true
      invariant Perm(old(a[..]), a[..], lo, hi) && Parting(a[..], lo, pa, pb, pc, pd, hi, v, cmp)
      decreases pc - pb + 1
    {
      var up, down;
      ghost var s := a[..];
      pa, pb, up := ScanUp(a, lo, pa, pb, pc, pd, hi, v, cmp);
      PermTrans(old(a[..]), s, a[..], lo, hi);
      s := a[..];
      pc, pd, down := ScanDown(a, lo, pa, pb, pc, pd, hi, v, cmp);
      PermTrans(old(a[..]), s, a[..], lo, hi);
      swapped := swapped || up || down;
      if pb > pc {
        return;
      }
      PermThenSwap(old(a[..]), a[..], pb, pc, lo, hi);
      Cross(a[..], lo, pa, pb, pc, pd, hi, v, cmp);
      Swap(a, pb, pc);
      swapped := true;
      pb, pc := pb + 1, pc - 1;
    }
  }

  lemma Cross<T>(s: seq<T>, lo: nat, pa: nat, pb: nat, pc: int, pd: int, hi: nat, v: T, cmp: (T, T) -> int)
    requires Parting(s, lo, pa, pb, pc, pd, hi, v, cmp) && pb <= pc && Cmp(cmp, s[pb], v) > 0 && Cmp(cmp, s[pc], v) < 0
    ensures Parting(Swapped(s, pb, pc), lo, pa, pb + 1, pc - 1, pd, hi, v, cmp)
  {
  }

  // ---------- gathering the equal elements in the middle ----------

  /** [lo, l) is below v, [l, r) equal to it, [r, hi) above. */
  ghost predicate Parted<T>(s: seq<T>, lo: nat, l: nat, r: nat, hi: nat, v: T, cmp: (T, T) -> int)
  {
    && lo <= l <= r <= hi <= |s|
    && (forall i :: lo <= i < l ==> Cmp(cmp, s[i], v) < 0)
    && (forall i :: l <= i < r ==> Cmp(cmp, s[i], v) == 0)
    && (forall i :: r <= i < hi ==> Cmp(cmp, s[i], v) > 0)
  }

  /** After the first swap, with the right half still to do. */
  ghost predicate HalfParted<T>(s: seq<T>, lo: nat, l: nat, pb: nat, pd: int, hi: nat, v: T, cmp: (T, T) -> int)
  {
    && lo <= l <= pb <= pd + 1 <= hi <= |s|
    && (forall i :: lo <= i < l ==> Cmp(cmp, s[i], v) < 0)
    && (forall i :: l <= i < pb ==> Cmp(cmp, s[i], v) == 0)
    && (forall i :: pb <= i <= pd ==> Cmp(cmp, s[i], v) > 0)
    && (forall i :: pd < i < hi ==> Cmp(cmp, s[i], v) == 0)
  }

  /** The first block swap: the equal elements parked on the left go to the middle. */
  method GatherLow<T>(a: array<T>, lo: nat, pa: nat, pb: nat, ghost pc: int, ghost pd: int, ghost hi: nat, ghost v: T,
                      cmp: (T, T) -> int)
    requires hi <= a.Length && Parting(a[..], lo, pa, pb, pc, pd, hi, v, cmp) && pb == pc + 1
    modifies a
    ensures Perm(old(a[..]), a[..], lo, hi) && HalfParted(a[..], lo, lo + (pb - pa), pb, pd, hi, v, cmp)
  {
    var r := if pa - lo < pb - pa then pa - lo else pb - pa;
    VecSwap(a, lo, pb - r, r);
    PermWiden(old(a[..]), a[..], lo, pb, lo, hi);
    GatherLeft(old(a[..]), a[..], lo, pa, pb, pc, pd, hi, r, v, cmp);
  }

  /** The second: so do those parked on the right. */
  method GatherHigh<T>(a: array<T>, ghost lo: nat, ghost pa: nat, pb: nat, pc: int, pd: int, pn: nat, ghost v: T,
                       cmp: (T, T) -> int)
    requires pn <= a.Length && lo < pa <= pb == pc + 1 && HalfParted(a[..], lo, lo + (pb - pa), pb, pd, pn, v, cmp)
    modifies a
    ensures Perm(old(a[..]), a[..], lo, pn) && Parted(a[..], lo, lo + (pb - pa), pn - (pd - pc), pn, v, cmp)
  {
    var r := if pd - pc < pn - pd - 1 then pd - pc else pn - pd - 1;
    VecSwap(a, pb, pn - r, r);
    PermWiden(old(a[..]), a[..], pb, pn, lo, pn);
    GatherRight(old(a[..]), a[..], lo, pa, pb, pc, pd, pn, r, v, cmp);
  }

  lemma GatherLeft<T>(s: seq<T>, t: seq<T>, lo: nat, pa: nat, pb: nat, pc: int, pd: int, hi: nat, r: nat, v: T,
                      cmp: (T, T) -> int)
    requires Parting(s, lo, pa, pb, pc, pd, hi, v, cmp) && pb == pc + 1
    requires r == (if pa - lo < pb - pa then pa - lo else pb - pa) && Exchanged(s, t, lo, pb - r, r)
    ensures HalfParted(t, lo, lo + (pb - pa), pb, pd, hi, v, cmp)
  {
  }

  lemma GatherRight<T>(s: seq<T>, t: seq<T>, lo: nat, pa: nat, pb: nat, pc: int, pd: int, hi: nat, r: nat, v: T,
                       cmp: (T, T) -> int)
    requires pb == pc + 1 && lo < pa <= pb && HalfParted(s, lo, lo + (pb - pa), pb, pd, hi, v, cmp)
    requires r == (if pd - pc < hi - pd - 1 then pd - pc else hi - pd - 1) && Exchanged(s, t, pb, hi - r, r)
    ensures Parted(t, lo, lo + (pb - pa), hi - (pd - pc), hi, v, cmp)
  {
  }

  /** A partition is a split on either side of the equal elements, which are sorted among themselves. */
  lemma PartedSplit<T(!new)>(s: seq<T>, lo: nat, l: nat, r: nat, hi: nat, v: T, cmp: (T, T) -> int)
    requires Preorder(cmp) && Parted(s, lo, l, r, hi, v, cmp)
    ensures Split(s, lo, l, hi, cmp) && Split(s, lo, r, hi, cmp) && Sorted(s, l, r, cmp)
  {
    forall i | lo <= i < hi ensures (i < r ==> Cmp(cmp, s[i], v) <= 0) && (l <= i ==> Cmp(cmp, v, s[i]) <= 0) {
      assert Cmp(cmp, s[i], v) < 0 <==> Cmp(cmp, v, s[i]) > 0;
      assert Cmp(cmp, v, s[i]) < 0 <==> Cmp(cmp, s[i], v) > 0;
    }
    forall i, j | lo <= i < r && l <= j < hi ensures Cmp(cmp, s[i], s[j]) <= 0 {
      assert Cmp(cmp, s[i], v) <= 0 && Cmp(cmp, v, s[j]) <= 0;
    }
  }

  // ---------- the sort ----------

  /** One turn of the main loop on the n elements from lo: either all is sorted (done), or [lo, r) is, with
      nothing in it above what is left from r on. */
  ghost predicate Turned<T>(s: seq<T>, t: seq<T>, lo: nat, r: nat, hi: nat, cmp: (T, T) -> int)
  {
    && Perm(s, t, lo, hi) && lo <= r <= hi && Sorted(t, lo, r, cmp) && Split(t, lo, r, hi, cmp)
  }

  method Turn<T(!new)>(a: array<T>, lo: nat, n: nat, cmp: (T, T) -> int) returns (r: nat)
    requires Preorder(cmp) && lo + n <= a.Length
    modifies a
    ensures Turned(old(a[..]), a[..], lo, r, lo + n, cmp)
    ensures r == lo + n || (lo < r && r + 1 < lo + n)
    decreases n, 1
  {
    if n < 7 {
      InsertionSort(a, lo, n, cmp);
      return lo + n;
    }
    var pm := ChoosePivot(a, lo, n, cmp);
    PermSwap(a[..], lo, pm, lo, lo + n);
    Swap(a, lo, pm);
    r := Divide(a, lo, n, cmp);
    PermTrans(old(a[..]), Swapped(old(a[..]), lo, pm), a[..], lo, lo + n);
  }

  /** The rest of the turn, with the pivot in place. */
  method Divide<T(!new)>(a: array<T>, lo: nat, n: nat, cmp: (T, T) -> int) returns (r: nat)
    requires Preorder(cmp) && lo + n <= a.Length && 7 <= n
    modifies a
    ensures Turned(old(a[..]), a[..], lo, r, lo + n, cmp)
    ensures r == lo + n || (lo < r && r + 1 < lo + n)
    decreases n, 0
  {
    hide Perm, Sorted, Split, Turned;
    ghost var hi := lo + n;
    var left, right, swapped := ThreeWay(a, lo, n, cmp);
    ghost var s := a[..];
    if !swapped {
      InsertionSort(a, lo, n, cmp);
      PermTrans(old(a[..]), s, a[..], lo, hi);
      WholeSorted(old(a[..]), a[..], lo, hi, cmp);
      return lo + n;
    }
    SortLeft(a, lo, left, cmp);
    r := lo + n - right;
    LeftSorted(old(a[..]), s, a[..], lo, lo + left, r, hi, cmp);
    if right <= 1 {
      LastSorted(old(a[..]), a[..], lo, r, hi, cmp);
      r := lo + n;
    }
  }

  /** The recursive call, made only on two elements or more. */
  method SortLeft<T(!new)>(a: array<T>, lo: nat, left: nat, cmp: (T, T) -> int)
    requires Preorder(cmp) && lo + left <= a.Length
    modifies a
    ensures Perm(old(a[..]), a[..], lo, lo + left) && Sorted(a[..], lo, lo + left, cmp)
    decreases left, 3
  {
    if left > 1 {
      Sort(a, lo, left, cmp);
    }
  }

  ghost predicate Divided<T>(s: seq<T>, lo: nat, l: nat, r: nat, hi: nat, cmp: (T, T) -> int)
  {
    lo <= l <= r <= hi <= |s| && Split(s, lo, l, hi, cmp) && Split(s, lo, r, hi, cmp) && Sorted(s, l, r, cmp)
  }

  /** The two block swaps: equal elements go to the middle. */
  method Gather<T(!new)>(a: array<T>, lo: nat, pa: nat, pb: nat, pc: int, pd: int, hi: nat, ghost v: T,
                         cmp: (T, T) -> int, ghost l: nat, ghost r: nat)
    requires Preorder(cmp) && hi <= a.Length && Parting(a[..], lo, pa, pb, pc, pd, hi, v, cmp) && pb == pc + 1
    requires l == lo + (pb - pa) && r == hi - (pd - pc)
    modifies a
    ensures Perm(old(a[..]), a[..], lo, hi) && Divided(a[..], lo, l, r, hi, cmp)
  {
    GatherLow(a, lo, pa, pb, pc, pd, hi, v, cmp);
    ghost var s := a[..];
    GatherHigh(a, lo, pa, pb, pc, pd, hi, v, cmp);
    PermTrans(old(a[..]), s, a[..], lo, hi);
    PartedSplit(a[..], lo, l, r, hi, v, cmp);
  }

  /** The partition and the block swaps; `left` elements end up below the pivot and `right` above. */
  method ThreeWay<T(!new)>(a: array<T>, lo: nat, n: nat, cmp: (T, T) -> int)
    returns (left: nat, right: nat, swapped: bool)
    requires Preorder(cmp) && lo + n <= a.Length && 1 <= n
    modifies a
    ensures Perm(old(a[..]), a[..], lo, lo + n) && left + right < n
    ensures swapped ==> Divided(a[..], lo, lo + left, lo + n - right, lo + n, cmp)
  {
    ghost var v := a[lo];
    assert Cmp(cmp, v, v) < 0 <==> Cmp(cmp, v, v) > 0;
    var pa, pb, pc, pd;
    pa, pb, pc, pd, swapped := Partition(a, lo, n, cmp);
    left, right := pb - pa, pd - pc;
    if !swapped {
      return;
    }
    ghost var s := a[..];
    Gather(a, lo, pa, pb, pc, pd, lo + n, v, cmp, lo + left, lo + n - right);
    PermTrans(old(a[..]), s, a[..], lo, lo + n);
  }

  lemma LeftSorted<T>(s0: seq<T>, s: seq<T>, t: seq<T>, lo: nat, l: nat, r: nat, hi: nat, cmp: (T, T) -> int)
    requires Perm(s0, s, lo, hi) && Divided(s, lo, l, r, hi, cmp) && Perm(s, t, lo, l) && Sorted(t, lo, l, cmp)
    ensures Turned(s0, t, lo, r, hi, cmp)
  {
    PermWiden(s, t, lo, l, lo, hi);
    PermTrans(s0, s, t, lo, hi);
    PermSplit(s, t, lo, l, hi, lo, l, cmp);
    PermSplit(s, t, lo, r, hi, lo, l, cmp);
    PermSorted(s, t, l, r, lo, l, cmp);
    SortedJoin(t, lo, l, r, cmp);
  }

  lemma WholeSorted<T>(s: seq<T>, t: seq<T>, lo: nat, hi: nat, cmp: (T, T) -> int)
    requires Perm(s, t, lo, hi) && Sorted(t, lo, hi, cmp)
    ensures Turned(s, t, lo, hi, hi, cmp)
  {
  }

  lemma LastSorted<T>(s0: seq<T>, s: seq<T>, lo: nat, r: nat, hi: nat, cmp: (T, T) -> int)
    requires Turned(s0, s, lo, r, hi, cmp) && hi <= r + 1
    ensures Turned(s0, s, lo, hi, hi, cmp)
  {
  }

  /** qsort on the n elements from lo: recurse on the left part, go round again on the right. */
  method Sort<T(!new)>(a: array<T>, lo: nat, n: nat, cmp: (T, T) -> int)
    requires Preorder(cmp) && lo + n <= a.Length
    modifies a
    ensures Perm(old(a[..]), a[..], lo, lo + n) && Sorted(a[..], lo, lo + n, cmp)
    decreases n, 2
  {
    ghost var hi := lo + n;
    var base, m := lo, n;
    while true
      invariant lo <= base <= hi && base + m == hi && m <= n && Turned(old(a[..]), a[..], lo, base, hi, cmp)
      decreases m
    {
      ghost var s := a[..];
      var r := Turn(a, base, m, cmp);
      Advance(old(a[..]), s, a[..], lo, base, r, hi, cmp);
      if r == base + m {
        return;
      }
      base, m := r, base + m - r;
    }
  }

  lemma Advance<T>(s0: seq<T>, s: seq<T>, t: seq<T>, lo: nat, base: nat, r: nat, hi: nat, cmp: (T, T) -> int)
    requires Turned(s0, s, lo, base, hi, cmp) && Turned(s, t, base, r, hi, cmp)
    ensures Turned(s0, t, lo, r, hi, cmp)
  {
    PermWiden(s, t, base, hi, lo, hi);
    PermTrans(s0, s, t, lo, hi);
    PermSplit(s, t, lo, base, hi, base, hi, cmp);
    PermSorted(s, t, lo, base, base, hi, cmp);
    SortedJoin(t, lo, base, r, cmp);
  }

  /** qsort: for every length and every total preorder, a sorted rearrangement. */
  method QSort<T(!new)>(a: array<T>, cmp: (T, T) -> int)
    requires Preorder(cmp)
    modifies a
    ensures multiset(a[..]) == multiset(old(a[..])) && Sorted(a[..], 0, a.Length, cmp)
  {
    Sort(a, 0, a.Length, cmp);
    BagIs(a[..]);
    BagIs(old(a[..]));
  }
}
