/** Facts about division and powers of ten used by alignment, rounding, payouts and decimals. */
module Arithmetic {
  lemma Distribute(x: int, y: int, z: int)
    ensures (x + y) * z == x * z + y * z
    ensures (x - y) * z == x * z - y * z
  {
  }

  lemma MulAssociative(x: int, y: int, z: int)
    ensures (x * y) * z == x * (y * z)
  {
  }

  lemma NonNegativeProduct(x: int, y: int)
    requires x >= 0 && y >= 0
    ensures x * y >= 0
  {
  }

  lemma MulMonotone(x: int, y: int, z: int)
    requires x <= y && 0 <= z
    ensures x * z <= y * z
  {
    NonNegativeProduct(y - x, z);
    Distribute(y, x, z);
  }

  lemma DivModUnique(x: int, a: int, q: int, r: int)
    requires a > 0 && 0 <= r < a
    requires x == q * a + r
    ensures x / a == q && x % a == r
  {
    var q', r' := x / a, x % a;
    assert x == q' * a + r';
    Distribute(q, q', a);
    if q > q' {
      MulMonotone(1, q - q', a);
    } else if q < q' {
      MulMonotone(q - q', -1, a);
    }
  }

  lemma ModAddMultiple(x: int, a: int, k: int)
    requires a > 0
    ensures (x + k * a) % a == x % a
    ensures (x + k * a) / a == x / a + k
  {
    DivModUnique(x + k * a, a, x / a + k, x % a);
  }

  function Pow10(n: nat): (r: nat)
    ensures r >= 1
  {
    if n == 0 then 1 else 10 * Pow10(n - 1)
  }

  lemma {:induction false} Pow10Add(a: nat, b: nat)
    ensures Pow10(a + b) == Pow10(a) * Pow10(b)
  {
    if a > 0 {
      Pow10Add(a - 1, b);
      MulAssociative(10, Pow10(a - 1), Pow10(b));
    }
  }
}
