/** Division facts the chunk and piece geometry rests on. */
module Arith {

  const TWO_32: nat := 0x1_0000_0000

  /** The value an unsigned 32-bit register keeps of `x`. */
  function U32(x: int): (r: nat)
    ensures r < TWO_32 && (0 <= x < TWO_32 ==> r == x)
  {
    x % TWO_32
  }

  /** Quotient and remainder of naturals, as unsigned division computes them. */
  function Quot(x: nat, d: nat): nat
    requires d > 0
  {
    x / d
  }

  function Rem(x: nat, d: nat): nat
    requires d > 0
  {
    x % d
  }

  lemma QuotRem(x: nat, d: nat)
    requires d > 0
    ensures x == Quot(x, d) * d + Rem(x, d) && Rem(x, d) < d
  {
  }

  function CeilDiv(x: nat, d: nat): (q: nat)
    requires d > 0
  {
    Quot(x + d - 1, d)
  }

  /** Euclidean division is determined by its two bounds. */
  lemma DivUnique(x: nat, d: nat, q: nat)
    requires d > 0 && q * d <= x < q * d + d
    ensures Quot(x, d) == q && Rem(x, d) == x - q * d
  {
    var q1 := Quot(x, d);
    QuotRem(x, d);
    if q1 < q {
      MulOrder(q1 + 1, q, d);
    } else if q < q1 {
      MulOrder(q + 1, q1, d);
    }
  }

  lemma MulOrder(a: int, b: int, d: int)
    requires a <= b && d >= 0
    ensures a * d <= b * d
  {
    assert (b - a) * d >= 0;
  }

  lemma CeilDivBounds(x: nat, d: nat)
    requires d > 0
    ensures var q := CeilDiv(x, d); q * d >= x && (x > 0 ==> q > 0 && (q - 1) * d < x)
    ensures x == 0 ==> CeilDiv(x, d) == 0
  {
    var q := CeilDiv(x, d);
    QuotRem(x + d - 1, d);
    if x == 0 {
      DivUnique(d - 1, d, 0);
    } else {
      assert (q - 1) * d == q * d - d;
    }
  }

  /** A quotient lies below `n` exactly when the dividend lies below `n` units. */
  lemma DivBelow(x: nat, d: nat, n: nat)
    requires d > 0
    ensures Quot(x, d) < n <==> x < n * d
  {
    var q := Quot(x, d);
    QuotRem(x, d);
    if q < n {
      MulOrder(q + 1, n, d);
    } else {
      MulOrder(n, q, d);
    }
  }
}
