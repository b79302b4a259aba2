/** Bits and powers of two of unbounded naturals. */
module Bits {

  /** Bit i, counted from the lowest. */
  predicate Bit(x: nat, i: nat) {
    if i == 0 then x % 2 == 1 else Bit(x / 2, i - 1)
  }

  function Pow2(n: nat): nat {
    if n == 0 then 1 else 2 * Pow2(n - 1)
  }

  lemma {:induction false} PowersMultiply(a: nat, b: nat)
    ensures Pow2(a + b) == Pow2(a) * Pow2(b)
  {
    if b > 0 {
      PowersMultiply(a, b - 1);
    }
  }

  /** The low bits of a number do not see what is added above them. */
  lemma {:induction false} LowBits(q: nat, e: nat, n: nat, i: nat)
    requires i < n && e < Pow2(n)
    ensures Bit(Pow2(n) * q + e, i) <==> Bit(e, i)
  {
    var x := Pow2(n) * q + e;
    assert x == 2 * (Pow2(n - 1) * q) + e;
    if i > 0 {
      assert x / 2 == Pow2(n - 1) * q + e / 2;
      LowBits(q, e / 2, n - 1, i - 1);
    }
  }

  lemma {:induction false} ZeroBits(i: nat)
    ensures !Bit(0, i)
  {
    if i > 0 { ZeroBits(i - 1); }
  }

  /** A number that is not zero has a bit set. */
  lemma {:induction false} SomeBit(x: nat, n: nat) returns (i: nat)
    requires 0 < x < Pow2(n)
    ensures i < n && Bit(x, i)
  {
    if x % 2 == 1 {
      i := 0;
    } else {
      i := SomeBit(x / 2, n - 1);
      i := i + 1;
    }
  }
}
