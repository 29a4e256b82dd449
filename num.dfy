/**
 * The numbers the system both computes with and prints: grams, roots per
 * gram and prices such as 45.5. A `Decimal(m, e)` stands for m / 10^e, so
 * sums and integer multiples stay exact, and `Text` prints a value the way
 * JavaScript's `${x}` does for such numbers (plain notation, no trailing
 * zeros).
 */
module Num {
  import opened Strings

  datatype Decimal = Decimal(m: int, e: nat)

  function Value(d: Decimal): real
  {
    d.m as real / Pow10Nat(d.e) as real
  }

  const Zero: Decimal := Decimal(0, 0)

  function FromInt(n: int): (d: Decimal)
    ensures Value(d) == n as real
  {
    Decimal(n, 0)
  }

  lemma Pow10Add(a: nat, b: nat)
    ensures Pow10Nat(a + b) == Pow10Nat(a) * Pow10Nat(b)
  {
    if a > 0 {
      Pow10Add(a - 1, b);
    }
  }

  lemma MulAsReal(a: int, b: int)
    ensures (a * b) as real == a as real * b as real
  {
  }

  /** Cancelling a common positive factor. */
  lemma DivCancel(x: real, p: real, q: real)
    requires p > 0.0 && q > 0.0
    ensures (x * p) / (p * q) == x / q
  {
    var r := x / q;
    assert r * q == x;
    assert x * p == r * (p * q);
  }

  lemma {:induction false} RescaleValue(m: int, k: nat, e: nat)
    ensures (m * Pow10Nat(k)) as real / Pow10Nat(k + e) as real == m as real / Pow10Nat(e) as real
  {
    var p, q := Pow10Nat(k), Pow10Nat(e);
    Pow10Add(k, e);
    MulAsReal(m, p);
    MulAsReal(p, q);
    DivCancel(m as real, p as real, q as real);
  }

  /** The sign of a decimal is the sign of its mantissa. */
  lemma SignOfValue(d: Decimal)
    ensures d.m < 0 <==> Value(d) < 0.0
  {
    var p := Pow10Nat(d.e) as real;
    assert Value(d) * p == d.m as real;
  }


  /** `n * d`: an integer count times a unit price. */
  function Times(n: int, d: Decimal): (r: Decimal)
    ensures Value(r) == n as real * Value(d)
  {
    assert (n * d.m) as real == n as real * d.m as real;
    Decimal(n * d.m, d.e)
  }

  /** `a + b`, exactly, on the finer of the two scales. */
  function Plus(a: Decimal, b: Decimal): (r: Decimal)
    ensures Value(r) == Value(a) + Value(b)
  {
    var e := if a.e <= b.e then b.e else a.e;
    RescaleValue(a.m, e - a.e, a.e);
    RescaleValue(b.m, e - b.e, b.e);
    var x, y := a.m * Pow10Nat(e - a.e), b.m * Pow10Nat(e - b.e);
    DivSum(x as real, y as real, Pow10Nat(e) as real);
    Decimal(x + y, e)
  }

  lemma DivSum(x: real, y: real, p: real)
    requires p > 0.0
    ensures (x + y) / p == x / p + y / p
  {
  }

  /** `Math.round(x)`: the nearest integer, halves rounded up. */
  function RoundHalfUp(x: real): (r: int)
    ensures r as real - 0.5 <= x < r as real + 0.5
  {
    (x + 0.5).Floor
  }

  /** A decimal in lowest terms: no trailing zero digit after the point. */
  predicate Normal(d: Decimal) { d.e == 0 || d.m % 10 != 0 }

  function Normalize(d: Decimal): (n: Decimal)
    ensures Value(n) == Value(d) && Normal(n)
    decreases d.e
  {
    if d.e > 0 && d.m % 10 == 0 then
      var n := Normalize(Decimal(d.m / 10, d.e - 1));
      RescaleValue(d.m / 10, 1, d.e - 1);
      n
    else d
  }

  /** Two decimals in lowest terms with the same value are the same decimal. */
  lemma NormalUnique(a: Decimal, b: Decimal)
    requires Normal(a) && Normal(b) && Value(a) == Value(b)
    ensures a == b
  {
    if a.e < b.e {
      TrailingZero(a, b);
      assert false;
    } else if b.e < a.e {
      TrailingZero(b, a);
      assert false;
    } else {
      var p := Pow10Nat(a.e) as real;
      assert a.m as real == Value(a) * p;
      assert b.m as real == Value(b) * p;
    }
  }

  /** Written on a finer scale than another decimal of the same value, b ends in a zero digit. */
  lemma TrailingZero(a: Decimal, b: Decimal)
    requires a.e < b.e && Value(a) == Value(b)
    ensures b.m % 10 == 0
  {
    var k := b.e - a.e;
    var pb := Pow10Nat(b.e);
    RescaleValue(a.m, k, a.e);
    var x := a.m * Pow10Nat(k);
    DivEq(x as real, b.m as real, pb as real);
    assert b.m == x;
    var q := Pow10Nat(k - 1);
    assert Pow10Nat(k) == 10 * q;
    TenFactor(a.m, q);
  }

  lemma TenFactor(m: int, q: int)
    ensures (m * (10 * q)) % 10 == 0
  {
    assert m * (10 * q) == 10 * (m * q);
  }

  lemma DivEq(x: real, y: real, p: real)
    requires p > 0.0 && x / p == y / p
    ensures x == y
  {
    assert x == (x / p) * p;
    assert y == (y / p) * p;
  }


  /** Characters that can appear in a printed number. */
  predicate NumeralChar(c: char) { IsDigit(c) || c == '.' || c == '-' }

  predicate Numeral(s: string) { forall i :: 0 <= i < |s| ==> NumeralChar(s[i]) }

  /** A character that cannot occur in a printed number does not occur in it. */
  lemma NotInNumeral(s: string, c: char)
    requires Numeral(s) && !NumeralChar(c)
    ensures c !in s
  {
    assert forall i :: 0 <= i < |s| ==> s[i] != c by {
      forall i | 0 <= i < |s|
        ensures s[i] != c
      {
        assert NumeralChar(s[i]);
      }
    }
  }

  /** Digits and decimal points only: how a non-negative number prints. */
  predicate Unsigned(s: string) { forall i :: 0 <= i < |s| ==> IsDigit(s[i]) || s[i] == '.' }

  /** `${x}` for a finite decimal x. */
  function Text(d: Decimal): (s: string)
    ensures Numeral(s)
    ensures Value(d) >= 0.0 ==> Unsigned(s)
  {
    var n := Normalize(d);
    SignOfValue(n);
    var digits := Magnitude(if n.m < 0 then -n.m else n.m, n.e);
    Signed(n.m < 0, digits);
    (if n.m < 0 then "-" else "") + digits
  }

  /**
   * The digits of a / 10^e: the numeral of a, padded with leading zeros to
   * at least e + 1 digits, with "." before the last e digits when e > 0.
   */
  function Magnitude(a: nat, e: nat): (s: string)
    ensures Unsigned(s)
  {
    var ds := PadStart(NatText(a), e + 1);
    assert AllDigits(ds);
    if e == 0 then ds else
      var x, y := ds[..|ds| - e], ds[|ds| - e..];
      assert Unsigned(x) && Unsigned(y);
      x + "." + y
  }

  lemma UnsignedConcat(x: string, y: string)
    requires Unsigned(x) && Unsigned(y)
    ensures Unsigned(x + y)
  {
  }

  lemma Signed(neg: bool, u: string)
    requires Unsigned(u)
    ensures Numeral((if neg then "-" else "") + u)
    ensures !neg ==> Unsigned((if neg then "-" else "") + u)
  {
  }



  /** Printing depends only on the value, not on how it is scaled. */
  lemma TextCanonical(a: Decimal, b: Decimal)
    requires Value(a) == Value(b)
    ensures Text(a) == Text(b)
  {
    NormalUnique(Normalize(a), Normalize(b));
  }

  /** An integer prints as its numeral: `${n}` for an int n. */
  lemma TextOfInt(n: int)
    ensures Text(FromInt(n)) == IntText(n)
  {
  }

  /** A decimal whose value is a whole number prints as that number's numeral. */
  lemma TextOfWhole(d: Decimal, n: int)
    requires Value(d) == n as real
    ensures Text(d) == IntText(n)
  {
    TextCanonical(d, FromInt(n));
    TextOfInt(n);
  }

  /** The digits before the point in the text of a non-negative number. */
  function WholeDigits(d: Decimal): string
  {
    var n := Normalize(d);
    var ds := PadStart(NatText(if n.m < 0 then -n.m else n.m), n.e + 1);
    ds[..|ds| - n.e]
  }

  /** The digits after the point in the text of a non-negative number, empty for a whole number. */
  function FracDigits(d: Decimal): string
  {
    var n := Normalize(d);
    var ds := PadStart(NatText(if n.m < 0 then -n.m else n.m), n.e + 1);
    ds[|ds| - n.e..]
  }

  /** `parseFloat` of a numeral `x.y` (or `x` when y is empty) in plain notation. */
  function FromParts(x: string, y: string): (r: Decimal)
    requires AllDigits(x) && AllDigits(y)
    ensures r.e == |y|
  {
    Decimal(DigitsValue(x) * Pow10Nat(|y|) + DigitsValue(y), |y|)
  }

  /** The numeral of a padded to width w is digits only, at least w long, and reads back as a. */
  lemma PaddedValue(a: nat, w: nat, ds: string)
    requires ds == PadStart(NatText(a), w)
    ensures |ds| >= w && AllDigits(ds) && DigitsValue(ds) == a
  {
    PadStartValue(NatText(a), w);
    NatTextRoundTrip(a);
  }

  /**
   * The text of a non-negative number is its whole digits, then a point
   * and its fraction digits when there are any; parsing those two parts
   * gives the number back.
   */
  lemma TextParts(d: Decimal)
    requires Value(d) >= 0.0
    ensures |WholeDigits(d)| > 0 && AllDigits(WholeDigits(d)) && AllDigits(FracDigits(d))
    ensures Text(d) == if FracDigits(d) == [] then WholeDigits(d) else WholeDigits(d) + "." + FracDigits(d)
    ensures Value(FromParts(WholeDigits(d), FracDigits(d))) == Value(d)
  {
    var n := Normalize(d);
    SignOfValue(n);
    NormalParts(d, n);
  }

  /** TextParts for the normal form n of d, with the parts parsing back to n itself. */
  lemma NormalParts(d: Decimal, n: Decimal)
    requires n == Normalize(d) && n.m >= 0
    ensures |WholeDigits(d)| > 0 && AllDigits(WholeDigits(d)) && AllDigits(FracDigits(d))
    ensures Text(d) == if FracDigits(d) == [] then WholeDigits(d) else WholeDigits(d) + "." + FracDigits(d)
    ensures FromParts(WholeDigits(d), FracDigits(d)) == n
  {
    var ds := PadStart(NatText(n.m), n.e + 1);
    PaddedValue(n.m, n.e + 1, ds);
    var x, y := ds[..|ds| - n.e], ds[|ds| - n.e..];
    DigitsOf(d, n, ds);
    TextOf(d, n);
    MagnitudeParts(n.m, n.e, ds, x, y);
  }

  /** The digits of a / 10^e split at the point, and the decimal they parse to. */
  lemma MagnitudeParts(a: nat, e: nat, ds: string, x: string, y: string)
    requires ds == PadStart(NatText(a), e + 1)
    requires |ds| >= e && x == ds[..|ds| - e] && y == ds[|ds| - e..]
    ensures |x| > 0 && AllDigits(x) && AllDigits(y) && |y| == e
    ensures Magnitude(a, e) == if y == [] then x else x + "." + y
    ensures FromParts(x, y) == Decimal(a, e)
  {
    PaddedValue(a, e + 1, ds);
    SliceParts(ds, |ds| - e, x, y);
    SplitAt(ds, x, y, e);
    MagnitudeText(a, e, ds, x, y);
    assert |y| == e;
    ParsedParts(a, e, x, y);
  }

  /** Magnitude is the split digits, joined by a point when there is a fraction. */
  lemma MagnitudeText(a: nat, e: nat, ds: string, x: string, y: string)
    requires ds == PadStart(NatText(a), e + 1)
    requires |ds| >= e && x == ds[..|ds| - e] && y == ds[|ds| - e..]
    ensures Magnitude(a, e) == if y == [] then x else x + "." + y
  {
    if e == 0 {
      assert x == ds && y == [];
    }
  }

  /** Digit strings whose values combine to a parse to a / 10^e. */
  lemma ParsedParts(a: nat, e: nat, x: string, y: string)
    requires AllDigits(x) && AllDigits(y) && |y| == e
    requires DigitsValue(x) * Pow10Nat(e) + DigitsValue(y) == a
    ensures FromParts(x, y) == Decimal(a, e)
  {
  }

  /** WholeDigits and FracDigits split the padded numeral of the normal form. */
  lemma DigitsOf(d: Decimal, n: Decimal, ds: string)
    requires n == Normalize(d) && n.m >= 0 && ds == PadStart(NatText(n.m), n.e + 1)
    ensures |ds| >= n.e && WholeDigits(d) == ds[..|ds| - n.e] && FracDigits(d) == ds[|ds| - n.e..]
  {
  }

  /** The text of a non-negative number is the magnitude of its normal form. */
  lemma TextOf(d: Decimal, n: Decimal)
    requires n == Normalize(d) && n.m >= 0
    ensures Text(d) == Magnitude(n.m, n.e)
  {
  }

  /** Equal texts mean equal values: with TextCanonical, `${a} == ${b}` exactly when a and b are equal. */
  lemma TextInjective(a: Decimal, b: Decimal)
    requires Text(a) == Text(b)
    ensures Value(a) == Value(b)
  {
    var na, nb := Normalize(a), Normalize(b);
    var ua: nat := if na.m < 0 then -na.m else na.m;
    var ub: nat := if nb.m < 0 then -nb.m else nb.m;
    TextSign(a, na);
    TextSign(b, nb);
    MagnitudeLeadingDigit(ua, na.e);
    MagnitudeLeadingDigit(ub, nb.e);
    SignedEqual(na.m < 0, Magnitude(ua, na.e), nb.m < 0, Magnitude(ub, nb.e));
    MagnitudeInjective(ua, na.e, ub, nb.e);
    assert na == nb;
  }

  /** The text is the sign of the normal form, then the digits of its magnitude. */
  lemma TextSign(d: Decimal, n: Decimal)
    requires n == Normalize(d)
    ensures Text(d) == (if n.m < 0 then "-" else "") + Magnitude(if n.m < 0 then -n.m else n.m, n.e)
  {
  }

  /** A magnitude always starts with a digit. */
  lemma MagnitudeLeadingDigit(a: nat, e: nat)
    ensures |Magnitude(a, e)| > 0 && IsDigit(Magnitude(a, e)[0])
  {
    var ds := PadStart(NatText(a), e + 1);
    PaddedValue(a, e + 1, ds);
    var x, y := ds[..|ds| - e], ds[|ds| - e..];
    MagnitudeParts(a, e, ds, x, y);
    assert Magnitude(a, e)[0] == x[0];
  }

  /** An optional minus sign in front of text that starts with a digit is read back unambiguously. */
  lemma SignedEqual(p: bool, u: string, q: bool, v: string)
    requires |u| > 0 && IsDigit(u[0]) && |v| > 0 && IsDigit(v[0])
    requires (if p then "-" else "") + u == (if q then "-" else "") + v
    ensures p == q && u == v
  {
    SignedForm(p, u);
    SignedForm(q, v);
    if p != q {
      assert false;
    }
  }

  lemma SignedForm(p: bool, u: string)
    ensures var s := (if p then "-" else "") + u;
      (p ==> |s| > 0 && s[0] == '-' && s[1..] == u) && (!p ==> s == u)
  {
  }

  /** Different magnitudes print differently. */
  lemma MagnitudeInjective(a1: nat, e1: nat, a2: nat, e2: nat)
    requires Magnitude(a1, e1) == Magnitude(a2, e2)
    ensures a1 == a2 && e1 == e2
  {
    var d1, d2 := PadStart(NatText(a1), e1 + 1), PadStart(NatText(a2), e2 + 1);
    PaddedValue(a1, e1 + 1, d1);
    PaddedValue(a2, e2 + 1, d2);
    var x1, y1 := d1[..|d1| - e1], d1[|d1| - e1..];
    var x2, y2 := d2[..|d2| - e2], d2[|d2| - e2..];
    MagnitudeParts(a1, e1, d1, x1, y1);
    MagnitudeParts(a2, e2, d2, x2, y2);
    PointSplit(x1, y1, x2, y2);
  }

  /** Digits, then a point and digits when there are any: both parts are read back. */
  lemma PointSplit(x1: string, y1: string, x2: string, y2: string)
    requires AllDigits(x1) && AllDigits(y1) && AllDigits(x2) && AllDigits(y2)
    requires (if y1 == [] then x1 else x1 + "." + y1) == (if y2 == [] then x2 else x2 + "." + y2)
    ensures x1 == x2 && y1 == y2
  {
    if y1 == [] && y2 != [] {
      PointNotDigits(x2, y2);
      assert false;
    } else if y1 != [] && y2 == [] {
      PointNotDigits(x1, y1);
      assert false;
    } else if y1 != [] {
      NoPoint(x1);
      NoPoint(x2);
      assert x1 + "." + y1 == x1 + ['.'] + y1 && x2 + "." + y2 == x2 + ['.'] + y2;
      SplitAtMarker(x1, y1, x2, y2, '.');
    }
  }

  /** A numeral with a point is not a digit string. */
  lemma PointNotDigits(x: string, y: string)
    ensures !AllDigits(x + "." + y)
  {
    assert (x + "." + y)[|x|] == '.';
  }

  lemma NoPoint(x: string)
    requires AllDigits(x)
    ensures '.' !in x
  {
    assert forall i :: 0 <= i < |x| ==> x[i] != '.' by {
      forall i | 0 <= i < |x|
        ensures x[i] != '.'
      {
        assert IsDigit(x[i]);
      }
    }
  }
}
