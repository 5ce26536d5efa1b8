/** Division facts the other modules lean on, each small enough to be cheap. */
module Arith {

  function Min(a: nat, b: nat): nat
  {
    if a <= b then a else b
  }

  lemma MulPos(k: int, s: int)
    requires s > 0 && k >= 1
    ensures k * s >= s
  {
  }

  /** Distinct multiples of s are at least s apart. */
  lemma MulStep(a: int, b: int, s: int)
    requires s > 0 && a < b
    ensures a * s + s <= b * s
  {
    calc {
      b * s;
      (b - a) * s + a * s;
    }
    MulPos(b - a, s);
  }

  lemma SlotOf(v: int, i: int, r: int, s: int)
    requires s > 0 && v == i * s + r && 0 <= r < s
    ensures v / s == i && v % s == r
  {
    var q, m := v / s, v % s;
    assert v == q * s + m;
    if q < i {
      MulStep(q, i, s);
    } else if q > i {
      MulStep(i, q, s);
    }
  }

  /** Page `v` against the pages [lo, lo + n) of one slot of s pages: the same slot and the same
      offset, or another slot altogether. */
  lemma InSlot(v: nat, lo: nat, n: nat, s: nat)
    requires s > 0 && lo % s + n <= s
    ensures v / s == lo / s ==> v - v % s == lo - lo % s
    ensures v / s < lo / s ==> v - v % s + s <= lo - lo % s
    ensures v / s > lo / s ==> lo - lo % s + s <= v - v % s
    ensures lo <= v < lo + n <==> v / s == lo / s && lo % s <= v % s < lo % s + n
  {
    var i, j := v / s, lo / s;
    var a, b := v % s, lo % s;
    assert v == i * s + a && lo == j * s + b;
    if i < j {
      MulStep(i, j, s);
    } else if i > j {
      MulStep(j, i, s);
    }
  }

  /** Page v of a table of n slots of s pages lies in one of them. */
  lemma SpanBound(n: nat, v: nat, s: nat)
    requires s > 0 && v < n * s
    ensures v / s < n
  {
    var q := v / s;
    assert v == q * s + v % s;
    if q > n {
      MulStep(n, q, s);
    }
  }

  /** Page r of slot i. */
  lemma SlotPage(i: nat, r: nat, n: nat, s: nat)
    requires i < n && r < s
    ensures (i * s + r) / s == i && (i * s + r) % s == r && i * s + r < n * s
  {
    SlotOf(i * s + r, i, r, s);
    MulStep(i, n, s);
  }

  /** Rounding v up to the next multiple of s. */
  lemma NextSlot(v: nat, s: nat)
    requires s > 0
    ensures (v + (s - v % s)) % s == 0 && (v + (s - v % s)) / s == v / s + 1
  {
    var q := v / s;
    assert v == q * s + v % s;
    assert (q + 1) * s == q * s + s;
    SlotOf(v + (s - v % s), q + 1, 0, s);
  }
}
