/** Lists without repetition: the linked lists of the source, as sequences. */
module Lists {

  ghost predicate NoDup<T>(q: seq<T>)
  {
    forall i, j :: 0 <= i < j < |q| ==> q[i] != q[j]
  }

  /** q without its first x: list_delete. */
  function Without<T(==)>(q: seq<T>, x: T): seq<T>
  {
    if q == [] then [] else if q[0] == x then q[1..] else [q[0]] + Without(q[1..], x)
  }

  lemma {:induction false} WithoutIs<T>(q: seq<T>, x: T)
    requires NoDup(q)
    ensures NoDup(Without(q, x))
    ensures forall y :: y in Without(q, x) <==> y in q && y != x
    ensures |Without(q, x)| == |q| - (if x in q then 1 else 0)
  {
    if q != [] {
      assert q == [q[0]] + q[1..];
      if q[0] != x {
        WithoutIs(q[1..], x);
        var r := Without(q[1..], x);
        assert q[0] !in r;
      }
    }
  }

  /** Deleting the element at position i. */
  lemma {:induction false} WithoutAt<T>(q: seq<T>, i: nat)
    requires NoDup(q) && i < |q|
    ensures Without(q, q[i]) == q[..i] + q[i + 1..]
  {
    if i > 0 {
      assert q[0] != q[i];
      WithoutAt(q[1..], i - 1);
      assert q[1..][i - 1] == q[i];
      assert q[..i] + q[i + 1..] == [q[0]] + (q[1..][..i - 1] + q[1..][i..]);
    }
  }

  lemma NoDupAdd<T>(q: seq<T>, x: T)
    requires NoDup(q) && x !in q
    ensures NoDup([x] + q) && NoDup(q + [x])
    ensures forall y :: y in [x] + q <==> y == x || y in q
    ensures forall y :: y in q + [x] <==> y == x || y in q
  {
  }

  /** q with x put in at position `at`: list_add_before. */
  function Insert<T>(q: seq<T>, at: nat, x: T): seq<T>
    requires at <= |q|
  {
    q[..at] + [x] + q[at..]
  }

  lemma InsertIs<T>(q: seq<T>, at: nat, x: T)
    requires at <= |q|
    ensures |Insert(q, at, x)| == |q| + 1 && Insert(q, at, x)[at] == x
    ensures forall i :: 0 <= i < at ==> Insert(q, at, x)[i] == q[i]
    ensures forall i :: at < i <= |q| ==> Insert(q, at, x)[i] == q[i - 1]
    ensures forall y :: y in Insert(q, at, x) <==> y in q || y == x
  {
    assert q == q[..at] + q[at..];
    assert forall y :: y in q <==> y in q[..at] || y in q[at..];
  }

  lemma InsertNoDup<T>(q: seq<T>, at: nat, x: T)
    requires at <= |q| && NoDup(q) && x !in q
    ensures NoDup(Insert(q, at, x))
  {
    InsertIs(q, at, x);
  }

  lemma NoDupJoin<T>(a: seq<T>, b: seq<T>)
    requires NoDup(a) && NoDup(b) && forall x :: x in b ==> x !in a
    ensures NoDup(a + b)
  {
    assert forall i :: 0 <= i < |b| ==> b[i] in b;
    assert forall i :: 0 <= i < |a| ==> a[i] in a;
  }

  lemma Assoc<T>(a: seq<T>, b: seq<T>, c: seq<T>)
    ensures a + (b + c) == a + b + c
  {
  }

  /** A slice of a slice. */
  lemma SubSlice<T>(s: seq<T>, from: nat, size: nat, a: nat, n: nat)
    requires from + size <= |s| && a + n <= size
    ensures s[from..from + size][a..a + n] == s[from + a..from + a + n]
  {
    SliceOf(s, from, from + size, a, n, from + a);
  }

  /** The same with the positions named. */
  lemma SliceOf<T>(s: seq<T>, lo: nat, hi: nat, p: nat, n: nat, at: nat)
    requires lo <= hi <= |s| && p + n <= hi - lo && at == lo + p
    ensures s[lo..hi][p..p + n] == s[at..at + n]
  {
    var t, u := s[lo..hi][p..p + n], s[at..at + n];
    forall i | 0 <= i < n
      ensures t[i] == u[i]
    {
      assert s[lo..hi][p + i] == s[at + i];
    }
  }

  lemma JoinSlices<T>(s: seq<T>, from: nat, mid: nat, n: nat)
    requires from <= mid && mid + n <= |s|
    ensures s[from..mid] + s[mid..mid + n] == s[from..mid + n]
  {
  }

  // ---------- lists that change over time ----------

  ghost predicate Before<T>(q: seq<T>, x: T, y: T)
  {
    exists i, j :: 0 <= i < j < |q| && q[i] == x && q[j] == y
  }

  /** From q to r nobody overtakes anybody: who stays keeps the order, and who is new is behind who stays. */
  ghost predicate OrderKept<T(!new)>(q: seq<T>, r: seq<T>)
  {
    && (forall x, y :: Before(q, x, y) && x in r && y in r ==> Before(r, x, y))
    && (forall x, y :: x in q && x in r && y in r && y !in q ==> Before(r, x, y))
  }

  lemma OrderAppend<T(!new)>(q: seq<T>, z: T)
    requires z !in q
    ensures OrderKept(q, q + [z])
  {
    var r := q + [z];
    forall x, y | Before(q, x, y) ensures Before(r, x, y) {
      var i, j :| 0 <= i < j < |q| && q[i] == x && q[j] == y;
      assert r[i] == x && r[j] == y;
    }
    forall x, y | x in q && y in r && y !in q ensures Before(r, x, y) {
      var i :| 0 <= i < |q| && q[i] == x;
      assert r[i] == x && r[|q|] == z == y;
    }
  }

  lemma OrderDelete<T(!new)>(q: seq<T>, k: nat)
    requires NoDup(q) && k < |q|
    ensures OrderKept(q, q[..k] + q[k + 1..])
  {
    var r := q[..k] + q[k + 1..];
    forall x, y | Before(q, x, y) && x in r && y in r ensures Before(r, x, y) {
      var i, j :| 0 <= i < j < |q| && q[i] == x && q[j] == y;
      assert i != k && j != k;
      assert r[if i < k then i else i - 1] == x && r[if j < k then j else j - 1] == y;
    }
    forall y | y in r ensures y in q {
    }
  }

  /** If nobody ever overtakes anybody, the first of the list has been there for as long as anyone in it. */
  lemma {:induction false} FirstIsOldest<T(!new)>(lists: seq<seq<T>>, j: nat, k: nat, t: T, u: T)
    requires j <= k < |lists| && forall i :: j <= i < k ==> OrderKept(lists[i], lists[i + 1])
    requires t in lists[k] && !Before(lists[k], u, t) && forall i :: j <= i <= k ==> u in lists[i]
    ensures t in lists[j]
    decreases k
  {
    if j < k {
      assert OrderKept(lists[k - 1], lists[k]);
      FirstIsOldest(lists, j, k - 1, t, u);
    }
  }
}
