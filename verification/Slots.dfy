/** Division of a table into slots of s pages.  Products and quotients are written out as repeated addition and
    subtraction, which keeps the proofs about tables linear; TimesIs and DivIs say what they are. */
module Slots {
  import A = Arith

  function Times(a: nat, s: nat): nat
  {
    if a == 0 then 0 else Times(a - 1, s) + s
  }

  /** The slot of page v. */
  function Div(v: nat, s: nat): nat
    requires s > 0
  {
    if v < s then 0 else 1 + Div(v - s, s)
  }

  /** The page within the slot. */
  function Mod(v: nat, s: nat): (r: nat)
    requires s > 0
    ensures r < s && r <= v
  {
    if v < s then v else Mod(v - s, s)
  }

  lemma {:induction false} TimesIs(a: nat, s: nat)
    ensures Times(a, s) == a * s
  {
    if a > 0 {
      TimesIs(a - 1, s);
      assert a * s == (a - 1) * s + s;
    }
  }

  lemma {:induction false} DivIs(v: nat, s: nat)
    requires s > 0
    ensures Div(v, s) == v / s && Mod(v, s) == v % s
  {
    if v < s {
      A.SlotOf(v, 0, v, s);
    } else {
      DivIs(v - s, s);
      var q := (v - s) / s;
      assert v - s == q * s + (v - s) % s;
      assert (q + 1) * s == q * s + s;
      A.SlotOf(v, q + 1, (v - s) % s, s);
    }
  }

  lemma Parts(v: nat, s: nat)
    requires s > 0
    ensures v == Times(Div(v, s), s) + Mod(v, s)
  {
    DivIs(v, s);
    TimesIs(Div(v, s), s);
  }

  lemma MulStep(a: nat, b: nat, s: nat)
    requires s > 0 && a < b
    ensures Times(a, s) + s <= Times(b, s)
  {
    TimesIs(a, s);
    TimesIs(b, s);
    A.MulStep(a, b, s);
  }

  lemma SlotOf(v: nat, i: nat, r: nat, s: nat)
    requires s > 0 && v == Times(i, s) + r && r < s
    ensures Div(v, s) == i && Mod(v, s) == r
  {
    DivIs(v, s);
    TimesIs(i, s);
    A.SlotOf(v, i, r, s);
  }

  /** Page `v` against the pages [lo, lo + n) of one slot of s pages: the same slot and the same
      offset, or another slot altogether. */
  lemma InSlot(v: nat, lo: nat, n: nat, s: nat)
    requires s > 0 && Mod(lo, s) + n <= s
    ensures Div(v, s) == Div(lo, s) ==> v - Mod(v, s) == lo - Mod(lo, s)
    ensures Div(v, s) < Div(lo, s) ==> v - Mod(v, s) + s <= lo - Mod(lo, s)
    ensures Div(v, s) > Div(lo, s) ==> lo - Mod(lo, s) + s <= v - Mod(v, s)
    ensures lo <= v < lo + n <==> Div(v, s) == Div(lo, s) && Mod(lo, s) <= Mod(v, s) < Mod(lo, s) + n
  {
    DivIs(v, s);
    DivIs(lo, s);
    A.InSlot(v, lo, n, s);
  }

  /** Page v of a table of n slots of s pages lies in one of them. */
  lemma SpanBound(n: nat, v: nat, s: nat)
    requires s > 0 && v < Times(n, s)
    ensures Div(v, s) < n
  {
    DivIs(v, s);
    TimesIs(n, s);
    A.SpanBound(n, v, s);
  }

  /** Page r of slot i. */
  lemma SlotPage(i: nat, r: nat, n: nat, s: nat)
    requires i < n && r < s
    ensures Div(Times(i, s) + r, s) == i && Mod(Times(i, s) + r, s) == r && Times(i, s) + r < Times(n, s)
  {
    SlotOf(Times(i, s) + r, i, r, s);
    MulStep(i, n, s);
  }

  /** Rounding v up to the next multiple of s. */
  lemma NextSlot(v: nat, s: nat)
    requires s > 0
    ensures Mod(v + (s - Mod(v, s)), s) == 0 && Div(v + (s - Mod(v, s)), s) == Div(v, s) + 1
  {
    DivIs(v, s);
    DivIs(v + (s - v % s), s);
    A.NextSlot(v, s);
  }

  lemma Zero(s: nat)
    requires s > 0
    ensures Div(0, s) == 0 && Mod(0, s) == 0
  {
  }
}
