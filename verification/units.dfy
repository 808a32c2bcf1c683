/** blockchain's units: printing an amount of base units as a decimal and reading it back. */
module Units {
  import opened Arithmetic
  import opened Util

  // ---- digit strings ----

  predicate IsDigit(c: char) { '0' <= c <= '9' }

  ghost predicate AllDigits(s: string) { forall i | 0 <= i < |s| :: IsDigit(s[i]) }

  function DigitChar(n: nat): (c: char)
    requires n < 10
    ensures IsDigit(c) && DigitValue(c) == n
  {
    '0' + n as char
  }

  function DigitValue(c: char): (n: nat)
    requires IsDigit(c)
    ensures n < 10
  {
    (c - '0') as int
  }

  /** The decimal digits of n, without leading zeros: what `toString` gives. */
  function Digits(n: nat): (s: string)
    ensures |s| > 0 && AllDigits(s)
  {
    if n < 10 then [DigitChar(n)] else Digits(n / 10) + [DigitChar(n % 10)]
  }

  function Val(s: string): nat
    requires AllDigits(s)
  {
    if s == "" then 0 else Val(s[..|s| - 1]) * 10 + DigitValue(s[|s| - 1])
  }

  lemma {:induction false} ValDigits(n: nat)
    ensures Val(Digits(n)) == n
  {
    var s := Digits(n);
    if n >= 10 {
      ValDigits(n / 10);
      assert s[..|s| - 1] == Digits(n / 10);
    } else {
      assert s[..0] == "";
    }
  }

  lemma {:induction false} ValAppend(a: string, b: string)
    requires AllDigits(a) && AllDigits(b)
    ensures AllDigits(a + b) && Val(a + b) == Val(a) * Pow10(|b|) + Val(b)
  {
    if b == "" {
      assert a + b == a;
    } else {
      var n := |b| - 1;
      ValAppend(a, b[..n]);
      assert (a + b)[..|a + b| - 1] == a + b[..n];
      assert (Val(a) * Pow10(n)) * 10 == Val(a) * Pow10(n + 1) by {
        MulAssociative(Val(a), Pow10(n), 10);
      }
    }
  }

  lemma {:induction false} ValBound(s: string)
    requires AllDigits(s)
    ensures Val(s) < Pow10(|s|)
  {
    if s != "" {
      ValBound(s[..|s| - 1]);
    }
  }

  function Zeros(n: nat): (s: string)
    ensures |s| == n && AllDigits(s) && forall i | 0 <= i < n :: s[i] == '0'
  {
    seq(n, _ => '0')
  }

  lemma {:induction false} ValZeros(n: nat)
    ensures Val(Zeros(n)) == 0
  {
    if n > 0 {
      ValZeros(n - 1);
      assert Zeros(n)[..n - 1] == Zeros(n - 1);
    }
  }

  /** Without the zeros at its end. */
  function TrimZeros(s: string): (t: string)
    ensures t <= s
    ensures t != "" ==> t[|t| - 1] != '0'
    ensures forall i | |t| <= i < |s| :: s[i] == '0'
  {
    if s != "" && s[|s| - 1] == '0' then TrimZeros(s[..|s| - 1]) else s
  }

  /** The digits after the point as a part of Pow10(d). */
  function Scaled(t: string, d: nat): nat
    requires AllDigits(t) && |t| <= d
  {
    Val(t) * Pow10(d - |t|)
  }

  lemma ScaledZeros(t: string, n: nat, d: nat)
    requires AllDigits(t) && |t| + n <= d
    ensures AllDigits(t + Zeros(n)) && Scaled(t + Zeros(n), d) == Scaled(t, d)
  {
    ValAppend(t, Zeros(n));
    ValZeros(n);
    Pow10Add(n, d - |t| - n);
    MulAssociative(Val(t), Pow10(n), Pow10(d - |t| - n));
  }

  lemma ScaledTrim(t: string, d: nat)
    requires AllDigits(t) && |t| <= d
    ensures AllDigits(TrimZeros(t)) && Scaled(TrimZeros(t), d) == Scaled(t, d)
  {
    var u := TrimZeros(t);
    assert t == u + Zeros(|t| - |u|);
    ScaledZeros(u, |t| - |u|, d);
  }

  /** Dropping digits rounds down to a multiple of what the last kept digit stands for. */
  lemma ScaledTake(t: string, p: nat, d: nat)
    requires AllDigits(t) && |t| <= d && p <= d
    ensures var u := t[..Min(p, |t|)]; AllDigits(u) && Scaled(u, d) == Scaled(t, d) - Scaled(t, d) % Pow10(d - p)
  {
    if p < |t| {
      var u, v := t[..p], t[p..];
      var unit, k := Pow10(d - p), Pow10(d - |t|);
      assert t == u + v;
      ValAppend(u, v);
      hide Val, Pow10;
      Pow10Add(|t| - p, d - |t|);
      ValBound(v);
      Distribute(Val(u) * Pow10(|v|), Val(v), k);
      MulAssociative(Val(u), Pow10(|v|), k);
      MulMonotone(Val(v) + 1, Pow10(|v|), k);
      Distribute(Val(v), 1, k);
      NonNegativeProduct(Val(v), k);
      DivModUnique(Scaled(t, d), unit, Val(u), Val(v) * k);
    } else {
      assert t[..|t|] == t;
      Pow10Add(p - |t|, d - p);
      MulAssociative(Val(t), Pow10(p - |t|), Pow10(d - p));
      DivModUnique(Scaled(t, d), Pow10(d - p), Val(t) * Pow10(p - |t|), 0);
    }
  }

  // ---- printing ----

  function Abs(v: int): nat { if v < 0 then -v else v }

  /** `padStart(n, '0')`. */
  function PadStart(s: string, n: nat): string { if |s| < n then Zeros(n - |s|) + s else s }

  function Padded(value: int, decimals: nat): (s: string)
    ensures |s| > decimals && AllDigits(s)
  {
    var s := PadStart(Digits(Abs(value)), decimals + 1);
    assert AllDigits(s);
    s
  }

  /** `slice(-decimals)`, which is the whole string for zero decimals. */
  function LastDigits(s: string, decimals: nat): string
    requires decimals <= |s|
  {
    if decimals == 0 then s else s[|s| - decimals..]
  }

  function Printed(value: int, decimals: nat, precision: nat): string {
    var s := Padded(value, decimals);
    var integer, fractional := s[..|s| - decimals], TrimZeros(LastDigits(s, decimals));
    (if value < 0 then "-" else "")
    + if fractional == "" then integer else integer + "." + fractional[..Min(precision, |fractional|)]
  }

  method FromBaseUnits(value: int, decimals: nat, precision: nat) returns (r: string)
    ensures r == Printed(value, decimals, precision)
  {
    hide Padded, LastDigits, TrimZeros;
    var neg := value < 0;
    var valStr := Padded(value, decimals);
    var integer := valStr[..|valStr| - decimals];
    var fractionalTrim := LastDigits(valStr, decimals);
    var end := |fractionalTrim| - 1;
    assert fractionalTrim[..end + 1] == fractionalTrim;
    while end >= 0 && fractionalTrim[end] == '0'
      invariant -1 <= end < |fractionalTrim|
      invariant TrimZeros(fractionalTrim[..end + 1]) == TrimZeros(fractionalTrim)
    {
      TrimStep(fractionalTrim, end);
      end := end - 1;
    }
    var fractional := fractionalTrim[..end + 1];
    NothingToTrim(fractional);
    r := (if neg then "-" else "")
         + if |fractional| > 0 then integer + "." + fractional[..Min(precision, |fractional|)] else integer;
  }

  lemma TrimStep(s: string, end: nat)
    requires end < |s| && s[end] == '0'
    ensures TrimZeros(s[..end + 1]) == TrimZeros(s[..end])
  {
    assert s[..end + 1][..end] == s[..end];
  }

  lemma NothingToTrim(s: string)
    requires s == "" || s[|s| - 1] != '0'
    ensures TrimZeros(s) == s
  {
  }

  // ---- reading ----

  function IndexOfDot(s: string): (i: nat)
    ensures i <= |s|
    ensures i < |s| ==> s[i] == '.'
    ensures forall j | 0 <= j < i :: s[j] != '.'
  {
    if s == "" || s[0] == '.' then 0 else 1 + IndexOfDot(s[1..])
  }

  /** The first two parts between points; a missing second part is empty. */
  function SplitDot(s: string): (string, string) {
    var i := IndexOfDot(s);
    if i == |s| then (s, "") else (s[..i], s[i + 1..][..IndexOfDot(s[i + 1..])])
  }

  /** `BigInt` of decimal digits with or without a minus sign, an empty part counting as 0; anything else throws. */
  function ToBigInt(s: string): Result<int> {
    if s == "" then Ok(0)
    else if s[0] == '-' && |s| > 1 && AllDigitsHere(s[1..]) then Ok(-(Val(s[1..]) as int))
    else if AllDigitsHere(s) then Ok(Val(s))
    else Err("Cannot convert to a BigInt")
  }

  predicate AllDigitsHere(s: string)
    ensures AllDigitsHere(s) <==> AllDigits(s)
  {
    s == "" || (IsDigit(s[0]) && AllDigitsHere(s[1..]))
  }

  function ToBaseUnits(valueString: string, decimals: nat): Result<int> {
    var (integer, decimal) := SplitDot(valueString);
    var trimmed := TrimZeros(decimal);
    var fractional := trimmed[..Min(decimals, |trimmed|)];
    match (ToBigInt(fractional), ToBigInt(integer))
    case (Ok(f), Ok(i)) => Ok(f * (Pow10(decimals) / Pow10(|fractional|)) + i * Pow10(decimals))
    case _ => Err("Cannot convert to a BigInt")
  }

  // ---- there and back ----

  lemma PaddedVal(value: int, d: nat)
    ensures Val(Padded(value, d)) == Abs(value)
  {
    var digits := Digits(Abs(value));
    ValDigits(Abs(value));
    if |digits| < d + 1 {
      ValAppend(Zeros(d + 1 - |digits|), digits);
      ValZeros(d + 1 - |digits|);
      NonNegativeProduct(0, Pow10(|digits|));
    }
  }

  /** The last d digits are the remainder by Pow10(d), and the others the quotient. */
  lemma SplitVal(x: string, y: string)
    requires AllDigits(x) && AllDigits(y)
    ensures AllDigits(x + y) && Val(x + y) / Pow10(|y|) == Val(x) && Val(x + y) % Pow10(|y|) == Val(y)
  {
    ValAppend(x, y);
    ValBound(y);
    DivModUnique(Val(x + y), Pow10(|y|), Val(x), Val(y));
  }

  lemma PaddedParts(value: int, d: nat)
    ensures var s := Padded(value, d); var a := Abs(value);
            && AllDigits(s[..|s| - d]) && AllDigits(s[|s| - d..])
            && Val(s[..|s| - d]) == a / Pow10(d) && Val(s[|s| - d..]) == a % Pow10(d)
  {
    var s := Padded(value, d);
    var x, y := s[..|s| - d], s[|s| - d..];
    assert s == x + y;
    PaddedVal(value, d);
    SplitVal(x, y);
  }

  lemma PrintedSplits(sign: string, integer: string, fraction: string)
    requires AllDigits(integer) && AllDigits(fraction) && (sign == "" || sign == "-")
    ensures SplitDot(sign + integer) == (sign + integer, "")
    ensures SplitDot(sign + (integer + "." + fraction)) == (sign + integer, fraction)
  {
    var a := sign + integer;
    var s := sign + (integer + "." + fraction);
    assert s == a + "." + fraction;
    NoDot(a);
    assert s[|a|] == '.' && forall j | 0 <= j < |a| :: s[j] == a[j];
    assert IndexOfDot(s) == |a|;
    assert s[|a| + 1..] == fraction;
    NoDot(fraction);
    assert fraction[..|fraction|] == fraction && s[..|a|] == a;
  }

  lemma NoDot(s: string)
    requires forall i | 0 <= i < |s| :: s[i] != '.'
    ensures IndexOfDot(s) == |s|
  {
  }

  lemma FirstDigit(s: string)
    requires AllDigits(s) && s != ""
    ensures IsDigit(s[0])
  {
  }

  function Signed(neg: bool, n: int): int { if neg then -n else n }

  lemma SignedInteger(neg: bool, integer: string)
    requires AllDigits(integer) && integer != ""
    ensures ToBigInt((if neg then "-" else "") + integer) == Ok(Signed(neg, Val(integer)))
  {
    hide Val, AllDigits;
    if neg {
      assert ("-" + integer)[1..] == integer;
    } else {
      assert "" + integer == integer;
      assert IsDigit(integer[0]) by { FirstDigit(integer); }
    }
  }

  lemma ScaledIsProduct(t: string, d: nat)
    requires AllDigits(t) && |t| <= d
    ensures Val(t) * (Pow10(d) / Pow10(|t|)) == Scaled(t, d)
  {
    Pow10Add(d - |t|, |t|);
    DivModUnique(Pow10(d), Pow10(|t|), Pow10(d - |t|), 0);
  }

  lemma DigitsRead(t: string)
    requires AllDigits(t)
    ensures ToBigInt(t) == Ok(Val(t))
  {
    assert t == "" || IsDigit(t[0]);
  }

  /** What reading gives for a whole part and a fraction of at most d digits. */
  lemma FractionRead(integer: string, fraction: string, d: nat, i: int, s: string)
    requires AllDigits(fraction) && |fraction| <= d && SplitDot(s) == (integer, fraction) && ToBigInt(integer) == Ok(i)
    ensures ToBaseUnits(s, d) == Ok(Scaled(fraction, d) + i * Pow10(d))
  {
    var t := TrimZeros(fraction);
    ScaledTrim(fraction, d);
    assert t[..Min(d, |t|)] == t;
    ScaledIsProduct(t, d);
    DigitsRead(t);
    hide Pow10, TrimZeros, SplitDot, ToBigInt, Val, Scaled;
  }

  /** How many of the last decimals a precision drops. */
  function Dropped(d: nat, p: nat): nat { d - Min(p, d) }

  /** What printing and reading back makes of any amount: a fraction always counts as positive. */
  function ThereAndBack(value: int, d: nat, p: nat): int {
    var a := Abs(value);
    var fraction := a % Pow10(d);
    (fraction - fraction % Pow10(Dropped(d, p))) + Signed(value < 0, a / Pow10(d)) * Pow10(d)
  }

  function Integer(value: int, d: nat): string { Padded(value, d)[..|Padded(value, d)| - d] }

  /** The digits that go after the point before trimming: the fraction, or for zero decimals the integer again. */
  function After(value: int, d: nat): (s: string)
    ensures AllDigits(s) && s == LastDigits(Padded(value, d), d)
  {
    LastDigits(Padded(value, d), d)
  }

  function Sign(value: int): string { if value < 0 then "-" else "" }

  /** The digits shown after the point. */
  function Shown(value: int, d: nat, p: nat): string {
    TrimZeros(After(value, d))[..Min(p, |TrimZeros(After(value, d))|)]
  }

  lemma PrintedForm(value: int, d: nat, p: nat)
    ensures var before := Sign(value) + Integer(value, d);
            Printed(value, d, p) ==
              if TrimZeros(After(value, d)) == "" then before else before + "." + Shown(value, d, p)
    ensures AllDigits(Integer(value, d)) && Integer(value, d) != "" && AllDigits(Shown(value, d, p))
  {
    hide Padded, TrimZeros;
    Joined(Sign(value), Integer(value, d), Shown(value, d, p));
  }

  lemma PrintedSplit(value: int, d: nat, p: nat)
    ensures SplitDot(Printed(value, d, p)) == (Sign(value) + Integer(value, d), Shown(value, d, p))
  {
    PrintedForm(value, d, p);
    var f := TrimZeros(After(value, d));
    assert f == "" ==> Shown(value, d, p) == "";
    hide Printed, Integer, Shown, SplitDot, Padded, TrimZeros;
    PrintedSplits(Sign(value), Integer(value, d), Shown(value, d, p));
    Joined(Sign(value), Integer(value, d), Shown(value, d, p));
  }

  /** The digits shown after the point, of a fraction of d digits. */
  lemma ShownFraction(rest: string, d: nat, p: nat)
    requires AllDigits(rest) && |rest| == d
    ensures var f := TrimZeros(rest); var shown := f[..Min(p, |f|)];
            AllDigits(shown) && |shown| <= d && Scaled(shown, d) == Val(rest) - Val(rest) % Pow10(Dropped(d, p))
  {
    var f := TrimZeros(rest);
    ScaledTrim(rest, d);
    ScaledTake(f, Min(p, d), d);
    assert f[..Min(p, |f|)] == f[..Min(Min(p, d), |f|)];
    assert Scaled(rest, d) == Val(rest) * Pow10(0);
  }

  lemma IntegerPart(value: int, d: nat)
    ensures AllDigits(Integer(value, d)) && Val(Integer(value, d)) == Abs(value) / Pow10(d)
    ensures ToBigInt(Sign(value) + Integer(value, d)) == Ok(Signed(value < 0, Abs(value) / Pow10(d)))
  {
    PaddedParts(value, d);
    SignedInteger(value < 0, Integer(value, d));
    hide Padded, Pow10, ToBigInt, Val, AllDigits, Signed, Abs;
  }

  lemma ShownPart(value: int, d: nat, p: nat)
    requires d > 0
    ensures var fraction := Abs(value) % Pow10(d); var shown := Shown(value, d, p);
            AllDigits(shown) && |shown| <= d && Scaled(shown, d) == fraction - fraction % Pow10(Dropped(d, p))
  {
    PaddedParts(value, d);
    ShownFraction(After(value, d), d, p);
    hide Padded, Pow10, Val, Scaled, TrimZeros, AllDigits, Abs;
  }

  lemma ReadWithoutDecimals(integer: string, fraction: string, i: int, s: string)
    requires SplitDot(s) == (integer, fraction) && ToBigInt(integer) == Ok(i)
    ensures ToBaseUnits(s, 0) == Ok(i)
  {
    PowZero();
    var t := TrimZeros(fraction);
    assert Min(0, |t|) == 0 && t[..0] == "";
    hide Pow10, TrimZeros, SplitDot;
  }

  /** What is read back of any printed amount, whatever the decimals and the precision. */
  lemma PrintedIsRead(value: int, d: nat, p: nat)
    ensures ToBaseUnits(Printed(value, d, p), d) == Ok(ThereAndBack(value, d, p))
  {
    hide Padded, Printed, Pow10, SplitDot, ToBigInt, Val, Scaled, ToBaseUnits, TrimZeros, Sign, Shown, AllDigits,
         Signed, Abs, Integer, After;
    PrintedSplit(value, d, p);
    IntegerPart(value, d);
    var i, shown := Signed(value < 0, Abs(value) / Pow10(d)), Shown(value, d, p);
    if d > 0 {
      ShownPart(value, d, p);
      FractionRead(Sign(value) + Integer(value, d), shown, d, i, Printed(value, d, p));
    } else {
      PowZero();
      ReadWithoutDecimals(Sign(value) + Integer(value, d), shown, i, Printed(value, d, p));
      assert Abs(value) % Pow10(0) == 0;
    }
  }

  /**
   * Printing any non-negative amount with some of its d decimals and reading it back gives the
   * amount rounded down to those decimals.
   */
  lemma RoundTripRoundsDown(value: nat, d: nat, p: nat)
    ensures ToBaseUnits(Printed(value, d, p), d) == Ok(value - value % Pow10(Dropped(d, p)))
  {
    PrintedIsRead(value, d, p);
    RoundedParts(value, d, p);
  }

  lemma RoundedParts(a: nat, d: nat, p: nat)
    ensures var fraction, unit := a % Pow10(d), Pow10(Dropped(d, p));
            (a / Pow10(d)) * Pow10(d) + (fraction - fraction % unit) == a - a % unit
  {
    Pow10Add(Min(p, d), Dropped(d, p));
    RemainderOfRemainder(a, Pow10(Min(p, d)), Pow10(Dropped(d, p)));
  }

  lemma RemainderOfRemainder(a: nat, x: nat, y: nat)
    requires x > 0 && y > 0 && x * y > 0
    ensures (a % (x * y)) % y == a % y
    ensures a == (a / (x * y)) * (x * y) + a % (x * y)
  {
    var q, r := a / (x * y), a % (x * y);
    assert a == q * (x * y) + r;
    MulAssociative(q, x, y);
    ModAddMultiple(r, y, q * x);
  }

  /**
   * With all decimals the round trip is exact for every amount that is not negative, and of the
   * negative ones exactly for those without a fraction.
   */
  lemma RoundTripIsExactIff(value: int, d: nat)
    ensures ToBaseUnits(Printed(value, d, d), d) == Ok(value) <==> value >= 0 || Abs(value) % Pow10(d) == 0
  {
    hide *;
    PrintedIsRead(value, d, d);
    AllThereAndBack(value, d);
  }

  lemma AllThereAndBack(value: int, d: nat)
    ensures ThereAndBack(value, d, d) == value <==> value >= 0 || Abs(value) % Pow10(d) == 0
  {
    PowZero();
    assert Dropped(d, d) == 0;
    hide Pow10, Abs, Signed, Dropped;
    PartsOf(value, Pow10(d));
  }

  lemma PowZero()
    ensures Pow10(0) == 1
  {
  }

  lemma PartsOf(value: int, x: nat)
    requires x > 0
    ensures var a := Abs(value);
            (a % x - (a % x) % 1) + Signed(value < 0, a / x) * x == value <==> value >= 0 || a % x == 0
  {
    var a: int := Abs(value);
    var q, r := a / x, a % x;
    assert a == q * x + r;
    Distribute(0, q, x);
    assert r % 1 == 0;
  }

  // ---- what the text says ----

  /** A decimal's sign and the digits before and after the point. */
  function Parts(text: string): (bool, string, string) {
    var neg := text != "" && text[0] == '-';
    var (integer, fraction) := SplitDot(if neg then text[1..] else text);
    (neg, integer, fraction)
  }

  /**
   * As a decimal the text says `amount` parts of Pow10(d): the number its digits make, of Pow10(n)
   * parts for n digits after the point.
   */
  predicate Denotes(text: string, amount: int, d: nat) {
    var (neg, integer, fraction) := Parts(text);
    && AllDigitsHere(integer + fraction)
    && Signed(neg, Val(integer + fraction)) * Pow10(d) == amount * Pow10(|fraction|)
  }

  /** The amount without the decimals that the precision drops. */
  function Rounded(value: int, d: nat, p: nat): int {
    Signed(value < 0, Abs(value) - Abs(value) % Pow10(Dropped(d, p)))
  }

  lemma TextParts(neg: bool, integer: string, point: bool, fraction: string)
    requires AllDigits(integer) && integer != "" && AllDigits(fraction) && (!point ==> fraction == "")
    ensures var unsigned := if point then integer + "." + fraction else integer;
            Parts(if neg then "-" + unsigned else unsigned) == (neg, integer, fraction)
  {
    var unsigned := if point then integer + "." + fraction else integer;
    UnsignedSplits(integer, point, fraction);
    hide SplitDot, AllDigits;
    if neg {
      assert ("-" + unsigned)[1..] == unsigned;
    }
  }

  lemma UnsignedSplits(integer: string, point: bool, fraction: string)
    requires AllDigits(integer) && integer != "" && AllDigits(fraction) && (!point ==> fraction == "")
    ensures var unsigned := if point then integer + "." + fraction else integer;
            SplitDot(unsigned) == (integer, fraction) && unsigned != "" && unsigned[0] != '-'
  {
    FirstDigit(integer);
    PrintedSplits("", integer, fraction);
    hide SplitDot, AllDigits;
    assert "" + integer == integer;
    assert "" + (integer + "." + fraction) == integer + "." + fraction;
  }

  lemma TextDenotes(neg: bool, integer: string, point: bool, fraction: string, amount: int, d: nat)
    requires AllDigits(integer) && integer != "" && AllDigits(fraction) && (!point ==> fraction == "")
    ensures AllDigits(integer + fraction)
    ensures var unsigned := if point then integer + "." + fraction else integer;
            Denotes(if neg then "-" + unsigned else unsigned, amount, d) <==>
              Signed(neg, Val(integer + fraction)) * Pow10(d) == amount * Pow10(|fraction|)
  {
    TextParts(neg, integer, point, fraction);
    hide Parts, Val, Pow10, Signed, AllDigitsHere;
  }

  lemma PrintedDenotes(value: int, d: nat, p: nat, amount: int)
    ensures var digits := Integer(value, d) + Shown(value, d, p);
            && AllDigits(digits)
            && (Denotes(Printed(value, d, p), amount, d) <==>
                  Signed(value < 0, Val(digits)) * Pow10(d) == amount * Pow10(|Shown(value, d, p)|))
  {
    PrintedForm(value, d, p);
    var integer, shown, f := Integer(value, d), Shown(value, d, p), TrimZeros(After(value, d));
    assert f == "" ==> shown == "";
    hide Padded, Printed, Integer, Shown, TrimZeros, Val, Pow10, Denotes, After, Signed, Sign;
    TextDenotes(value < 0, integer, f != "", shown, amount, d);
    SignedText(value, integer, f != "", shown);
  }

  lemma SignedText(value: int, integer: string, point: bool, fraction: string)
    ensures var unsigned := if point then integer + "." + fraction else integer;
            (if value < 0 then "-" + unsigned else unsigned) ==
            if point then Sign(value) + integer + "." + fraction else Sign(value) + integer
  {
    Joined(Sign(value), integer, fraction);
  }

  lemma ShownDenotes(i: nat, shown: string, d: nat)
    requires AllDigits(shown) && |shown| <= d
    ensures (i * Pow10(|shown|) + Val(shown)) * Pow10(d) == (i * Pow10(d) + Scaled(shown, d)) * Pow10(|shown|)
  {
    var n := |shown|;
    Pow10Add(d - n, n);
    Distribute(i * Pow10(n), Val(shown), Pow10(d));
    Distribute(i * Pow10(d), Scaled(shown, d), Pow10(n));
    MulAssociative(Val(shown), Pow10(d - n), Pow10(n));
    MulAssociative(i, Pow10(n), Pow10(d));
    MulAssociative(i, Pow10(d), Pow10(n));
  }

  /** An amount that is not zero starts with another digit. */
  lemma {:induction false} LeadingDigit(n: nat)
    requires n > 0
    ensures Digits(n)[0] != '0'
  {
    if n >= 10 {
      LeadingDigit(n / 10);
    }
  }

  lemma {:induction false} ValPositive(s: string)
    requires AllDigits(s) && s != "" && s[0] != '0'
    ensures Val(s) > 0
  {
    if |s| > 1 {
      ValPositive(s[..|s| - 1]);
    }
  }

  /** For zero decimals the digits shown after the point are those of the amount itself. */
  lemma ShownAgain(value: int, p: nat)
    ensures Integer(value, 0) == Digits(Abs(value))
    ensures AllDigits(Shown(value, 0, p)) && (Val(Shown(value, 0, p)) == 0 <==> p == 0 || value == 0)
    ensures TrimZeros(After(value, 0)) == "" <==> value == 0
  {
    var digits := Digits(Abs(value));
    var f := TrimZeros(digits);
    assert Padded(value, 0) == digits;
    assert digits[..|digits|] == digits;
    if value == 0 {
      assert digits == "0" && digits[..0] == "";
    } else {
      LeadingDigit(Abs(value));
      assert f != "" && f[0] == digits[0];
      if p > 0 {
        ValPositive(Shown(value, 0, p));
      }
    }
  }

  /** With decimals the text says the amount rounded down to the precision. */
  lemma DenotesRounded(value: int, d: nat, p: nat)
    requires d > 0
    ensures Denotes(Printed(value, d, p), Rounded(value, d, p), d)
  {
    hide Printed, Denotes, Integer, Shown, Val, Scaled, Pow10, Dropped, AllDigits;
    var a, integer, shown := Abs(value), Integer(value, d), Shown(value, d, p);
    PrintedDenotes(value, d, p, Rounded(value, d, p));
    IntegerPart(value, d);
    RoundedParts(a, d, p);
    ShownPart(value, d, p);
    ValAppend(integer, shown);
    ShownDenotes(Val(integer), shown, d);
    SignedProducts(value < 0, Val(integer + shown), Pow10(d), a - a % Pow10(Dropped(d, p)), Pow10(|shown|));
  }

  lemma WholeIsRounded(value: int, p: nat)
    ensures Rounded(value, 0, p) == Signed(value < 0, Abs(value)) && Abs(value) / Pow10(0) == Abs(value)
  {
    PowZero();
    assert Dropped(0, p) == 0;
  }

  lemma DenotesWithoutDecimalsIff(value: int, p: nat)
    ensures Denotes(Printed(value, 0, p), Rounded(value, 0, p), 0) <==> p == 0 || value == 0
  {
    hide Printed, Denotes, Integer, Shown, Val, AllDigits;
    var a, integer, shown := Abs(value), Integer(value, 0), Shown(value, 0, p);
    PowZero();
    PrintedForm(value, 0, p);
    PrintedDenotes(value, 0, p, Rounded(value, 0, p));
    IntegerPart(value, 0);
    ShownAgain(value, p);
    ValAppend(integer, shown);
    WholeIsRounded(value, p);
    hide Pow10, Rounded, Signed;
    SignedProducts(value < 0, Val(integer + shown), 1, a, Pow10(|shown|));
  }

  /**
   * Exactly when the text says the amount rounded to the precision: unless there are no decimals, a
   * precision is asked for all the same and the amount is not zero.
   */
  lemma DenotesAmountIff(value: int, d: nat, p: nat)
    ensures Denotes(Printed(value, d, p), Rounded(value, d, p), d) <==> d > 0 || p == 0 || value == 0
  {
    hide *;
    if d > 0 {
      DenotesRounded(value, d, p);
    } else {
      DenotesWithoutDecimalsIff(value, p);
    }
  }

  lemma SignedProducts(neg: bool, x: int, y: int, u: int, v: int)
    ensures Signed(neg, x) * y == Signed(neg, u) * v <==> x * y == u * v
  {
    Distribute(0, x, y);
    Distribute(0, u, v);
  }

  /** With zero decimals the text is the plain integer only for zero: 12 is printed as "12.12", or as "12.". */
  lemma PrintedAgain(value: int, p: nat)
    ensures Printed(value, 0, p) == Sign(value) + Digits(Abs(value)) <==> value == 0
    ensures Printed(12, 0, 2) == "12.12" && Printed(12, 0, 0) == "12."
  {
    PrintedForm(value, 0, p);
    ShownAgain(value, p);
    hide Printed, Shown, Integer, TrimZeros, Padded;
    assert Digits(12) == "12" by {
      assert Digits(1) == "1";
    }
    PrintedForm(12, 0, 2);
    PrintedForm(12, 0, 0);
    ShownAgain(12, 2);
    TwelveShown();
  }

  lemma TwelveShown()
    ensures Shown(12, 0, 2) == "12" && Shown(12, 0, 0) == ""
  {
    assert Digits(1) == "1" && Digits(12) == "12";
    assert Padded(12, 0) == "12" && TrimZeros("12") == "12";
  }

  /**
   * The printed fraction ends with a zero exactly if cutting it to the precision exposes one: the
   * last digit shown is zero and a later one is not.
   */
  lemma PrintsTrailingZeroIff(value: int, d: nat, p: nat)
    ensures var rest, printed := After(value, d), Printed(value, d, p);
            '.' in printed && printed[|printed| - 1] == '0' <==>
            0 < p <= |rest| && rest[p - 1] == '0' && exists i :: p <= i < |rest| && rest[i] != '0'
  {
    var rest := After(value, d);
    TrimmedBeyond(rest, p);
    PrintedForm(value, d, p);
    var f, shown := TrimZeros(rest), Shown(value, d, p);
    var before, printed := Sign(value) + Integer(value, d), Printed(value, d, p);
    hide Padded, Printed, Integer, After;
    if f == "" {
      NoDotIn(Sign(value), Integer(value, d));
    } else if p == 0 {
      assert printed == before + ".";
    } else {
      LastShown(before, shown, printed);
      assert shown[|shown| - 1] == f[|shown| - 1] == rest[|shown| - 1];
    }
  }

  lemma Joined(a: string, b: string, c: string)
    ensures a + (b + "." + c) == a + b + "." + c
  {
  }

  lemma NoDotIn(sign: string, integer: string)
    requires AllDigits(integer) && (sign == "" || sign == "-")
    ensures '.' !in sign + integer
  {
  }

  lemma LastShown(before: string, shown: string, printed: string)
    requires shown != "" && printed == before + "." + shown
    ensures '.' in printed && printed[|printed| - 1] == shown[|shown| - 1]
  {
    assert printed[|before|] == '.';
  }

  /** Trimming leaves more than p digits exactly if there is another digit than zero beyond them. */
  lemma TrimmedBeyond(s: string, p: nat)
    ensures |TrimZeros(s)| > p <==> exists i :: p <= i < |s| && s[i] != '0'
  {
    var t := TrimZeros(s);
    if |t| > p {
      assert s[|t| - 1] == t[|t| - 1];
    }
  }
}
