/** Rounding up to a power-of-two boundary, with the machine's wrap-around. */
module Align {
  import opened Arith

  function Pow2(n: nat): (p: nat)
    ensures p > 0
  {
    if n == 0 then 1 else 2 * Pow2(n - 1)
  }

  lemma {:induction false} Pow2Grows(j: nat, n: nat)
    requires j <= n
    ensures Pow2(j) <= Pow2(n) && (j < n ==> Pow2(j) < Pow2(n))
    decreases n
  {
    if j < n {
      Pow2Grows(j, n - 1);
    }
  }

  lemma {:induction false} ModShift(x: int, m: nat, k: nat)
    requires k > 0
    ensures (x + m * k) % k == x % k && m * k % k == 0
    decreases m
  {
    if m > 0 {
      ModShift(x, m - 1, k);
      assert m * k == (m - 1) * k + k;
      ModStep(x + (m - 1) * k, k);
      ModStep((m - 1) * k, k);
    }
  }

  lemma ModStep(x: int, k: nat)
    requires k > 0
    ensures (x + k) % k == x % k
  {
    var q, r := x / k, x % k;
    assert x == q * k + r;
    assert x + k == (q + 1) * k + r;
    SlotOf(x + k, q + 1, r, k);
  }

  /** Adding a multiple of k. */
  lemma ModAdd(x: int, y: nat, k: nat)
    requires k > 0 && y % k == 0
    ensures (x + y) % k == x % k
  {
    var m := y / k;
    assert y == m * k;
    ModShift(x, m, k);
  }

  /** The least multiple of k at or above x. */
  function Up(x: nat, k: nat): nat
    requires k > 0
  {
    (x + k - 1) / k * k
  }

  lemma UpIs(x: nat, k: nat)
    requires k > 0
    ensures x <= Up(x, k) < x + k && Up(x, k) % k == 0
    ensures forall m: nat :: m >= x && m % k == 0 ==> m >= Up(x, k)
  {
    var q, r := (x + k - 1) / k, (x + k - 1) % k;
    assert x + k - 1 == q * k + r;
    ModShift(0, q, k);
    forall m: nat | m >= x && m % k == 0
      ensures m >= Up(x, k)
    {
      UpLeast(x, k, m);
    }
  }

  lemma UpLeast(x: nat, k: nat, m: nat)
    requires k > 0 && m >= x && m % k == 0
    ensures m >= (x + k - 1) / k * k
  {
    var q, n := (x + k - 1) / k, m / k;
    assert x + k - 1 == q * k + (x + k - 1) % k;
    assert m == n * k;
    if n < q {
      MulStep(n, q, k);
    } else if n > q {
      MulStep(q, n, k);
    }
  }

  lemma {:induction false} Pow2Divides(j: nat, n: nat)
    requires j <= n
    ensures Pow2(n) % Pow2(j) == 0
    decreases n
  {
    var k := Pow2(j);
    if n == j {
      ModShift(0, 1, k);
    } else {
      Pow2Divides(j, n - 1);
      ModAdd(Pow2(n - 1), Pow2(n - 1), k);
    }
  }

  /** ROUNDUP on an unsigned word whose values stop at top. */
  function UpWrap(x: nat, k: nat, top: nat): nat
    requires k > 0 && top > 0
  {
    (x + k - 1) % top / k * k
  }

  /** Either the true rounding, or it wrapped to zero and there is no boundary left. */
  lemma UpWrapIs(x: nat, k: nat, top: nat)
    requires 0 < k <= top && top % k == 0 && x < top
    ensures Up(x, k) <= top
    ensures UpWrap(x, k, top) == if Up(x, k) == top then 0 else Up(x, k)
  {
    UpIs(x, k);
    var y := x + k - 1;
    if y < top {
      SlotOf(y, 0, y, top);
      assert y == y / k * k + y % k;
    } else {
      SlotOf(y, 1, y - top, top);
      SlotOf(y - top, 0, y - top, k);
      if Up(x, k) < top {
        Multiples(Up(x, k), top, k);
      }
    }
  }

  /** A multiple of m is a multiple of whatever m is a multiple of. */
  lemma Nested(s: nat, m: nat, p: nat)
    requires m > 0 && p > 0 && s % m == 0 && m % p == 0
    ensures s % p == 0
  {
    var a, b := s / m, m / p;
    assert s == a * m && m == b * p;
    assert a * (b * p) == a * b * p;
    SlotOf(s, a * b, 0, p);
  }

  /** Two multiples of k are at least k apart. */
  lemma Multiples(a: nat, b: nat, k: nat)
    requires k > 0 && a % k == 0 && b % k == 0 && a < b
    ensures a + k <= b
  {
    var m, n := a / k, b / k;
    assert a == m * k && b == n * k;
    if m < n {
      MulStep(m, n, k);
    } else if n < m {
      MulStep(n, m, k);
    }
  }
}
