/** Machine words as numbers, bit by bit: what `|= 1 << p`, `&= ~(1 << p)` and a leading-zero count do. */
module Bits {

  /** Bit p of b. */
  predicate Bit(b: nat, p: nat)
  {
    if p == 0 then b % 2 == 1 else Bit(b / 2, p - 1)
  }

  /** b with bit p set to v, the other bits unchanged. */
  function WithBit(b: nat, p: nat, v: bool): nat
  {
    if p == 0 then b / 2 * 2 + (if v then 1 else 0) else WithBit(b / 2, p - 1, v) * 2 + b % 2
  }

  /** The number of the highest bit of b: 31 - __builtin_clz(b) for a 32-bit b. */
  function TopBit(b: nat): nat
    requires b > 0
  {
    if b == 1 then 0 else 1 + TopBit(b / 2)
  }

  lemma {:induction false} WithBitIs(b: nat, p: nat, v: bool, q: nat)
    ensures Bit(WithBit(b, p, v), q) <==> if p == q then v else Bit(b, q)
  {
    if p > 0 && q > 0 {
      WithBitIs(b / 2, p - 1, v, q - 1);
    }
  }

  /** Only bits below n are set. */
  ghost predicate Narrow(b: nat, n: nat)
  {
    forall q :: n <= q ==> !Bit(b, q)
  }

  lemma {:induction false} TopBitIs(b: nat)
    requires b > 0
    ensures Bit(b, TopBit(b)) && forall q :: TopBit(b) < q ==> !Bit(b, q)
  {
    if b == 1 {
      forall q | 0 < q ensures !Bit(b, q) {
        NoBits(q - 1);
      }
    } else {
      TopBitIs(b / 2);
      forall q | TopBit(b) < q ensures !Bit(b, q) {
        assert Bit(b, q) == Bit(b / 2, q - 1);
      }
    }
  }

  lemma {:induction false} NoBits(q: nat)
    ensures !Bit(0, q)
  {
    if q > 0 {
      NoBits(q - 1);
    }
  }

  /** Setting a bit to what it is changes nothing. */
  lemma {:induction false} WithBitSame(b: nat, p: nat)
    ensures WithBit(b, p, Bit(b, p)) == b
  {
    if p > 0 {
      WithBitSame(b / 2, p - 1);
    }
  }
}
