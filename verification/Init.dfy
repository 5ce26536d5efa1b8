/** The init-hook selection loop of top/init.c and the boot sequence of top/main.c. */
module Init {
  import opened Wrappers

  /** An entry of the nusa_init section, in link order. */
  datatype Hook = Hook(level: nat, flags: bv32)

  const EARLIEST := 1
  const ARCH_EARLY := 0x1000
  const PLATFORM_EARLY := 0x2000
  const TARGET_EARLY := 0x3000
  const HEAP := 0x4000
  const KERNEL := 0x6000
  const THREADING := 0x7000
  const ARCH := 0x8000
  const PLATFORM := 0x9000
  const TARGET := 0xa000
  const APPS := 0xb000
  const LAST := 0xffff

  predicate Has(h: Hook, flag: bv32)
  {
    h.flags & flag != 0
  }

  predicate Wanted(hooks: seq<Hook>, flag: bv32, start: nat, stop: nat, i: nat)
  {
    i < |hooks| && Has(hooks[i], flag) && start <= hooks[i].level <= stop
  }

  /** Stable order: by level, then by position. */
  predicate Before(hooks: seq<Hook>, i: nat, j: nat)
    requires i < |hooks| && j < |hooks|
  {
    hooks[i].level < hooks[j].level || (hooks[i].level == hooks[j].level && i < j)
  }

  ghost predicate Ordered(hooks: seq<Hook>, c: seq<nat>)
  {
    && (forall k :: 0 <= k < |c| ==> c[k] < |hooks|)
    && (forall k, m :: 0 <= k < m < |c| ==> Before(hooks, c[k], c[m]))
  }

  /** c is the stable sort by level of the hooks wanted: each once and no other. */
  ghost predicate Schedule(hooks: seq<Hook>, flag: bv32, start: nat, stop: nat, c: seq<nat>)
  {
    && Ordered(hooks, c)
    && (forall i: nat :: i in c <==> Wanted(hooks, flag, start, stop, i))
  }

  /** Still to be called once `last` has been. */
  predicate Pending(hooks: seq<Hook>, flag: bv32, start: nat, stop: nat, last: Option<nat>, i: nat)
    requires last.Some? ==> last.value < |hooks|
  {
    Wanted(hooks, flag, start, stop, i) && (last.Some? ==> Before(hooks, last.value, i))
  }

  /** found is the first pending hook below n, in the stable order. */
  ghost predicate FirstPending(hooks: seq<Hook>, flag: bv32, start: nat, stop: nat, last: Option<nat>, n: nat,
                               found: Option<nat>)
    requires last.Some? ==> last.value < |hooks|
  {
    match found
    case None => forall i: nat :: i < n ==> !Pending(hooks, flag, start, stop, last, i)
    case Some(f) =>
      && Pending(hooks, flag, start, stop, last, f)
      && forall i: nat :: i < n && i != f && Pending(hooks, flag, start, stop, last, i) ==> Before(hooks, f, i)
  }

  /** One pass over the section: only the last hook and its level are remembered. */
  method FindNext(hooks: seq<Hook>, flag: bv32, start: nat, stop: nat, lastLevel: nat, last: Option<nat>)
    returns (found: Option<nat>)
    requires start > 0
    requires if last.None? then lastLevel == start - 1
             else Wanted(hooks, flag, start, stop, last.value) && lastLevel == hooks[last.value].level
    ensures FirstPending(hooks, flag, start, stop, last, |hooks|, found)
  {
    hide Has;
    found := None;
    var seenLast := false;
    var i: nat := 0;
    while i < |hooks|
      invariant i <= |hooks|
      invariant seenLast == (last.Some? && last.value < i)
      invariant found.Some? ==> found.value < i && hooks[found.value].level > lastLevel
      invariant FirstPending(hooks, flag, start, stop, last, i, found)
    {
      if last == Some(i) {
        seenLast := true;
      }
      var h := hooks[i];
      if !Has(h, flag) || h.level > stop || h.level < lastLevel
         || (found.Some? && hooks[found.value].level <= h.level) {
        i := i + 1;
        continue;
      }
      if h.level >= start && h.level > lastLevel {
        found := Some(i);
        i := i + 1;
        continue;
      }
      if h.level == lastLevel && last != Some(i) && seenLast {
        found := Some(i);
        break;
      }
      i := i + 1;
    }
  }

  /** The trace of hook calls, as positions in the section. */
  method InitLevel(hooks: seq<Hook>, flag: bv32, start: nat, stop: nat) returns (called: seq<nat>)
    requires start > 0
    ensures Schedule(hooks, flag, start, stop, called)
  {
    called := [];
    var lastLevel: nat, last := start - 1, None;
    while true
      invariant Ordered(hooks, called)
      invariant forall i :: i in called ==> Wanted(hooks, flag, start, stop, i)
      invariant if called == [] then last.None? && lastLevel == start - 1
                else last == Some(called[|called| - 1]) && lastLevel == hooks[called[|called| - 1]].level
      invariant forall i: nat :: Wanted(hooks, flag, start, stop, i) && i !in called ==>
                                   Pending(hooks, flag, start, stop, last, i)
      invariant |called| <= |hooks|
      decreases |hooks| - |called|
    {
      assert last.Some? ==> last.value in called;
      var found := FindNext(hooks, flag, start, stop, lastLevel, last);
      if found.None? {
        break;
      }
      OrderedMore(hooks, called, found.value);
      called := called + [found.value];
      OrderedBound(hooks, called);
      lastLevel := hooks[found.value].level;
      last := found;
    }
  }

  lemma OrderedMore(hooks: seq<Hook>, c: seq<nat>, f: nat)
    requires Ordered(hooks, c) && f < |hooks| && (c != [] ==> Before(hooks, c[|c| - 1], f))
    ensures Ordered(hooks, c + [f]) && f !in c
  {
    forall k | 0 <= k < |c|
      ensures Before(hooks, c[k], f)
    {
      if k < |c| - 1 {
        assert Before(hooks, c[k], c[|c| - 1]);
      }
    }
  }

  /** A hook occurs once, so there are no more calls than hooks. */
  lemma OrderedBound(hooks: seq<Hook>, c: seq<nat>)
    requires Ordered(hooks, c)
    ensures |c| <= |hooks|
  {
    DistinctBound(c, |hooks|);
  }

  lemma {:induction false} DistinctBound(c: seq<nat>, n: nat)
    requires forall k :: 0 <= k < |c| ==> c[k] < n
    requires forall k, m :: 0 <= k < m < |c| ==> c[k] != c[m]
    ensures |c| <= n
  {
    if c != [] {
      assert c[0] < n;
      if n - 1 in c {
        var j :| 0 <= j < |c| && c[j] == n - 1;
        var d := c[..j] + c[j + 1..];
        assert forall k :: 0 <= k < |d| ==> d[k] == if k < j then c[k] else c[k + 1];
        DistinctBound(d, n - 1);
      } else {
        assert forall k :: 0 <= k < |c| ==> c[k] in c;
        DistinctBound(c, n - 1);
      }
    }
  }

  // ---------- the order is determined, and ranges concatenate ----------

  lemma {:induction false} Unique(hooks: seq<Hook>, c: seq<nat>, d: seq<nat>)
    requires Ordered(hooks, c) && Ordered(hooks, d)
    requires forall i: nat :: i in c <==> i in d
    ensures c == d
    decreases |c|
  {
    if d != [] {
      assert d[0] in d;
    }
    if c != [] {
      assert c[0] in c && c[0] in d;
      assert d[0] in c;
      assert c[0] == d[0];
      var x, y := c[1..], d[1..];
      assert Ordered(hooks, x) && Ordered(hooks, y);
      assert c[0] !in x && c[0] !in y;
      assert c == [c[0]] + x && d == [c[0]] + y;
      forall i: nat
        ensures i in x <==> i in y
      {
        assert i in c <==> i == c[0] || i in x;
        assert i in d <==> i == c[0] || i in y;
      }
      Unique(hooks, x, y);
    }
  }

  /** The run for a level range is unique. */
  lemma Determined(hooks: seq<Hook>, flag: bv32, start: nat, stop: nat, c: seq<nat>, d: seq<nat>)
    requires Schedule(hooks, flag, start, stop, c) && Schedule(hooks, flag, start, stop, d)
    ensures c == d
  {
    Unique(hooks, c, d);
  }

  /** Runs for adjacent ranges make up the run for the whole range. */
  lemma Adjacent(hooks: seq<Hook>, flag: bv32, start: nat, mid: nat, stop: nat, c: seq<nat>, d: seq<nat>)
    requires start <= mid <= stop + 1 && mid > 0
    requires Schedule(hooks, flag, start, mid - 1, c) && Schedule(hooks, flag, mid, stop, d)
    ensures Schedule(hooks, flag, start, stop, c + d)
  {
    forall k, m | 0 <= k < |c| && 0 <= m < |d|
      ensures Before(hooks, c[k], d[m])
    {
      assert c[k] in c && d[m] in d;
    }
    var all := c + d;
    forall k, m | 0 <= k < m < |all|
      ensures Before(hooks, all[k], all[m])
    {
      if m >= |c| && k >= |c| {
        assert Before(hooks, d[k - |c|], d[m - |c|]);
      }
    }
  }

  /** The level ranges used at boot, in order: each starts where the one before stopped. */
  function BootBounds(): (b: seq<nat>)
    ensures forall k :: 0 <= k < |b| - 1 ==> 0 < b[k] <= b[k + 1]
  {
    [EARLIEST, ARCH_EARLY, PLATFORM_EARLY, TARGET_EARLY, HEAP, KERNEL, THREADING, ARCH, PLATFORM, TARGET, APPS,
     LAST + 1]
  }

  function Flat(runs: seq<seq<nat>>): seq<nat>
  {
    if runs == [] then [] else Flat(runs[..|runs| - 1]) + runs[|runs| - 1]
  }

  lemma {:induction false} Ranges(hooks: seq<Hook>, flag: bv32, b: seq<nat>, runs: seq<seq<nat>>)
    requires |b| == |runs| + 1 && forall k :: 0 <= k < |b| - 1 ==> 0 < b[k] <= b[k + 1]
    requires forall k :: 0 <= k < |runs| ==> Schedule(hooks, flag, b[k], b[k + 1] - 1, runs[k])
    requires runs != []
    ensures b[|runs|] > 0 && Schedule(hooks, flag, b[0], b[|runs|] - 1, Flat(runs))
    decreases |runs|
  {
    var n := |runs| - 1;
    var c, d := runs[..n], runs[n];
    if n == 0 {
      assert Flat(runs) == d;
    } else {
      Ranges(hooks, flag, b[..n + 1], c);
      assert b[0] <= b[n] by {
        Rising(b, n);
      }
      Adjacent(hooks, flag, b[0], b[n], b[n + 1] - 1, Flat(c), d);
    }
  }

  lemma {:induction false} Rising(b: seq<nat>, n: nat)
    requires n < |b| && forall k :: 0 <= k < |b| - 1 ==> b[k] <= b[k + 1]
    ensures b[0] <= b[n]
  {
    if n > 0 {
      Rising(b, n - 1);
    }
  }

  /** The calls made over the whole boot are those of one run over every level. */
  lemma BootIsOneRun(hooks: seq<Hook>, flag: bv32, runs: seq<seq<nat>>, whole: seq<nat>)
    requires |BootBounds()| == |runs| + 1
    requires forall k :: 0 <= k < |runs| ==> Schedule(hooks, flag, BootBounds()[k], BootBounds()[k + 1] - 1, runs[k])
    requires Schedule(hooks, flag, EARLIEST, LAST, whole)
    ensures Flat(runs) == whole
  {
    Ranges(hooks, flag, BootBounds(), runs);
    Determined(hooks, flag, EARLIEST, LAST, Flat(runs), whole);
  }
}
