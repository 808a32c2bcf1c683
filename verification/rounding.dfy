/** Rounding a fee up to a number of significant figures. */
module Rounding {
  import opened Arithmetic

  /** The length of the decimal form of v. */
  function NumDigits(v: nat): (d: nat)
    ensures d >= 1
  {
    if v < 10 then 1 else 1 + NumDigits(v / 10)
  }

  function NumZeros(v: nat, numSignificantFigures: nat): nat {
    var d := NumDigits(v);
    if d <= numSignificantFigures then 0 else d - numSignificantFigures
  }

  function RoundUp(v: nat, numSignificantFigures: nat): nat {
    if numSignificantFigures == 0 then v
    else
      var exp := Pow10(NumZeros(v, numSignificantFigures));
      var head := v / exp;
      var carry := if NumZeros(v, numSignificantFigures) > 0 && v % exp != 0 then 1 else 0;
      (head + carry) * exp
  }

  lemma {:induction false} NumDigitsBounds(v: nat)
    ensures v < Pow10(NumDigits(v))
    ensures v > 0 ==> Pow10(NumDigits(v) - 1) <= v
  {
    if v >= 10 {
      NumDigitsBounds(v / 10);
    }
  }

  lemma {:induction false} Pow10Monotone(a: nat, b: nat)
    requires a <= b
    ensures Pow10(a) <= Pow10(b)
  {
    if a < b {
      Pow10Monotone(a, b - 1);
    }
  }

  lemma {:induction false} NumDigitsMonotone(u: nat, v: nat)
    requires u <= v
    ensures NumDigits(u) <= NumDigits(v)
  {
    if u >= 10 {
      NumDigitsMonotone(u / 10, v / 10);
    }
  }

  /** r is the least multiple of exp that is at least v. */
  lemma LeastMultiple(v: nat, exp: nat, r: nat, k: nat)
    requires exp > 0
    requires r == (v / exp + if v % exp != 0 then 1 else 0) * exp
    ensures v <= r < v + exp
    ensures v <= k * exp ==> r <= k * exp
  {
    var q, m := v / exp, v % exp;
    assert v == exp * q + m;
    Distribute(q, 1, exp);
    if v <= k * exp && r > k * exp {
      var h := if m != 0 then q + 1 else q;
      if h <= k {
        MulMonotone(h, k, exp);
      } else {
        MulMonotone(k, q, exp);
        if m == 0 { MulMonotone(k + 1, q, exp); Distribute(k, 1, exp); }
      }
    }
  }

  lemma RoundUpIsLeast(v: nat, numSignificantFigures: nat, k: nat)
    requires numSignificantFigures > 0
    ensures var exp := Pow10(NumZeros(v, numSignificantFigures));
            var r := RoundUp(v, numSignificantFigures);
            && v <= r < v + exp
            && (v <= k * exp ==> r <= k * exp)
  {
    var exp := Pow10(NumZeros(v, numSignificantFigures));
    if NumZeros(v, numSignificantFigures) == 0 {
      assert exp == 1;
    }
    LeastMultiple(v, exp, RoundUp(v, numSignificantFigures), k);
  }

  lemma NeverRoundsDown(v: nat, numSignificantFigures: nat)
    ensures RoundUp(v, numSignificantFigures) >= v
  {
    if numSignificantFigures > 0 {
      RoundUpIsLeast(v, numSignificantFigures, 0);
    }
  }

  /**
   * The result has at most the significant figures asked for, or is the next power of ten, and it is
   * off by less than one unit of the last figure of v: both ends of what rounding to figures means.
   */
  lemma RoundUpToFigures(v: nat, numSignificantFigures: nat) returns (figures: nat, zeros: nat)
    requires numSignificantFigures > 0
    ensures RoundUp(v, numSignificantFigures) == figures * Pow10(zeros) && figures <= Pow10(numSignificantFigures)
    ensures v > 0 ==> (RoundUp(v, numSignificantFigures) - v) * Pow10(numSignificantFigures - 1) < v
  {
    hide NumDigits, Pow10, RoundUp;
    zeros := NumZeros(v, numSignificantFigures);
    figures := RoundUpIsMultiple(v, numSignificantFigures);
    FiguresBound(v, numSignificantFigures);
    AtMost(figures, Pow10(numSignificantFigures), Pow10(zeros));
    if v > 0 {
      ErrorBound(v, numSignificantFigures);
    }
  }

  lemma FiguresBound(v: nat, n: nat)
    requires n > 0
    ensures RoundUp(v, n) <= Pow10(n) * Pow10(NumZeros(v, n))
  {
    hide NumDigits, Pow10, RoundUp;
    NumDigitsBounds(v);
    RoundUpIsLeast(v, n, Pow10(n));
    Pow10Monotone(NumDigits(v), n + NumZeros(v, n));
    Pow10Add(n, NumZeros(v, n));
  }

  lemma ErrorBound(v: nat, n: nat)
    requires n > 0 && v > 0
    ensures (RoundUp(v, n) - v) * Pow10(n - 1) < v
  {
    hide NumDigits, Pow10, RoundUp;
    var zeros := NumZeros(v, n);
    if zeros == 0 {
      NothingRounded(v, n);
    } else {
      NumDigitsBounds(v);
      RoundUpIsLeast(v, n, 0);
      Pow10Add(n - 1, zeros);
      SmallProduct(RoundUp(v, n) - v, Pow10(zeros), Pow10(n - 1));
    }
  }

  lemma NothingRounded(v: nat, numSignificantFigures: nat)
    requires NumZeros(v, numSignificantFigures) == 0
    ensures Pow10(0) == 1 && RoundUp(v, numSignificantFigures) == v
  {
  }

  lemma AtMost(x: nat, y: nat, exp: nat)
    requires exp > 0 && x * exp <= y * exp
    ensures x <= y
  {
    if x > y {
      MulMonotone(y + 1, x, exp);
      Distribute(y, 1, exp);
    }
  }

  lemma SmallProduct(x: nat, exp: nat, unit: nat)
    requires x < exp && unit > 0
    ensures x * unit < unit * exp
  {
    MulMonotone(x + 1, exp, unit);
    Distribute(x, 1, unit);
  }

  /** Rounding keeps order, also across a change in the number of digits. */
  lemma RoundUpMonotone(u: nat, v: nat, numSignificantFigures: nat)
    requires u <= v
    ensures RoundUp(u, numSignificantFigures) <= RoundUp(v, numSignificantFigures)
  {
    if numSignificantFigures > 0 {
      var a, b := NumDigits(u), NumDigits(v);
      NumDigitsMonotone(u, v);
      hide Pow10, NumDigits;
      if a == b {
        SameDigits(u, v, numSignificantFigures);
      } else {
        MoreDigits(u, v, numSignificantFigures);
      }
    }
  }

  lemma SameDigits(u: nat, v: nat, numSignificantFigures: nat)
    requires u <= v && NumDigits(u) == NumDigits(v) && numSignificantFigures > 0
    ensures RoundUp(u, numSignificantFigures) <= RoundUp(v, numSignificantFigures)
  {
    hide Pow10, NumDigits, RoundUp;
    NeverRoundsDown(v, numSignificantFigures);
    var k := RoundUpIsMultiple(v, numSignificantFigures);
    RoundUpIsLeast(u, numSignificantFigures, k);
  }

  lemma RoundUpIsMultiple(v: nat, numSignificantFigures: nat) returns (k: nat)
    requires numSignificantFigures > 0
    ensures RoundUp(v, numSignificantFigures) == k * Pow10(NumZeros(v, numSignificantFigures))
  {
    hide Pow10, NumDigits;
    var exp := Pow10(NumZeros(v, numSignificantFigures));
    k := v / exp + if NumZeros(v, numSignificantFigures) > 0 && v % exp != 0 then 1 else 0;
  }

  /** Rounding up a shorter number goes no further than the next power of ten. */
  lemma MoreDigits(u: nat, v: nat, numSignificantFigures: nat)
    requires u <= v && NumDigits(u) < NumDigits(v) && numSignificantFigures > 0
    ensures RoundUp(u, numSignificantFigures) <= RoundUp(v, numSignificantFigures)
  {
    var a, zeros := NumDigits(u), NumZeros(u, numSignificantFigures);
    NumDigitsBounds(u);
    NumDigitsBounds(v);
    NeverRoundsDown(v, numSignificantFigures);
    Pow10Add(a - zeros, zeros);
    RoundUpIsLeast(u, numSignificantFigures, Pow10(a - zeros));
    Pow10Monotone(a, NumDigits(v) - 1);
    hide Pow10, NumDigits, RoundUp;
  }
}
