/**
 * Character-level helpers shared by the formatting and parsing code:
 * decimal numerals (`String(n)`, `parseInt`), `padStart(2, '0')`,
 * `String.prototype.includes`, and the two capture regexes of the form
 * `pre(\d+)suf` that the history view runs over stored descriptions.
 */
module Strings {
  import opened Wrappers

  predicate IsDigit(c: char) { '0' <= c <= '9' }

  predicate AllDigits(s: string) { forall i :: 0 <= i < |s| ==> IsDigit(s[i]) }

  function DigitChar(d: nat): (c: char)
    requires d < 10
    ensures IsDigit(c) && c as int - '0' as int == d
  {
    ('0' as int + d) as char
  }

  function DigitValue(c: char): (d: nat)
    requires IsDigit(c)
    ensures d < 10 && DigitChar(d) == c
  {
    c as int - '0' as int
  }

  /** `String(n)` for a non-negative integer: its shortest decimal numeral. */
  function NatText(n: nat): (s: string)
    ensures |s| > 0 && AllDigits(s)
    ensures |s| > 1 ==> s[0] != '0'
  {
    if n < 10 then [DigitChar(n)] else NatText(n / 10) + [DigitChar(n % 10)]
  }

  /** `String(n)` for any integer. */
  function IntText(n: int): (s: string)
    ensures n >= 0 ==> s == NatText(n)
    ensures n < 0 ==> s == "-" + NatText(-n)
  {
    if n < 0 then "-" + NatText(-n) else NatText(n)
  }

  /** `parseInt` of a string made only of digits (leading zeros allowed). */
  function DigitsValue(s: string): nat
    requires AllDigits(s)
  {
    if s == [] then 0 else DigitsValue(s[..|s| - 1]) * 10 + DigitValue(s[|s| - 1])
  }

  /** Reading back a numeral gives the number it was printed from. */
  lemma {:induction false} NatTextRoundTrip(n: nat)
    ensures DigitsValue(NatText(n)) == n
  {
    if n >= 10 {
      NatTextRoundTrip(n / 10);
      var s := NatText(n);
      assert s[..|s| - 1] == NatText(n / 10);
    }
  }

  /** Leading zeros do not change the value of a numeral. */
  lemma {:induction false} LeadingZeros(k: nat, s: string)
    requires AllDigits(s)
    ensures AllDigits(Zeros(k) + s) && DigitsValue(Zeros(k) + s) == DigitsValue(s)
  {
    if s == [] {
      ZerosValue(k);
      assert Zeros(k) + s == Zeros(k);
    } else {
      var t := Zeros(k) + s;
      assert t[..|t| - 1] == Zeros(k) + s[..|s| - 1];
      LeadingZeros(k, s[..|s| - 1]);
    }
  }

  lemma {:induction false} ZerosValue(k: nat)
    ensures AllDigits(Zeros(k)) && DigitsValue(Zeros(k)) == 0
  {
    if k > 0 {
      assert Zeros(k)[..k - 1] == Zeros(k - 1);
      ZerosValue(k - 1);
    }
  }

  /** The value of a concatenation of numerals. */
  lemma {:induction false} DigitsValueAppend(a: string, b: string)
    requires AllDigits(a) && AllDigits(b)
    ensures AllDigits(a + b)
    ensures DigitsValue(a + b) == DigitsValue(a) * Pow10Nat(|b|) + DigitsValue(b)
  {
    if b == [] {
      assert a + b == a;
    } else {
      var t, b' := a + b, b[..|b| - 1];
      assert t[..|t| - 1] == a + b';
      assert t[|t| - 1] == b[|b| - 1];
      DigitsValueAppend(a, b');
      ShiftStep(DigitsValue(a), Pow10Nat(|b'|), DigitsValue(b'), DigitValue(b[|b| - 1]));
    }
  }

  /** Appending one digit shifts a value by one place. */
  lemma ShiftStep(x: int, p: int, y: int, d: int)
    ensures (x * p + y) * 10 + d == x * (10 * p) + (y * 10 + d)
  {
  }

  function Pow10Nat(e: nat): (p: nat)
    ensures p >= 1
  {
    if e == 0 then 1 else 10 * Pow10Nat(e - 1)
  }

  /** The numeral of n has exactly k digits when 10^(k-1) <= n < 10^k. */
  lemma {:induction false} NatTextLength(n: nat, k: nat)
    requires k >= 1 && Pow10Nat(k - 1) <= n < Pow10Nat(k)
    ensures |NatText(n)| == k
  {
    if k > 1 {
      NatTextLength(n / 10, k - 1);
    }
  }

  function Zeros(k: nat): (s: string)
    ensures |s| == k && forall i :: 0 <= i < k ==> s[i] == '0'
  {
    if k == 0 then "" else Zeros(k - 1) + "0"
  }

  /** `s.padStart(w, '0')`. */
  function PadStart(s: string, w: nat): (r: string)
    ensures |s| >= w ==> r == s
    ensures |s| < w ==> r == Zeros(w - |s|) + s
  {
    if |s| >= w then s else Zeros(w - |s|) + s
  }

  /** Zero padding keeps a numeral's digits and its value. */
  lemma PadStartValue(s: string, w: nat)
    requires AllDigits(s)
    ensures |PadStart(s, w)| >= w && AllDigits(PadStart(s, w)) && DigitsValue(PadStart(s, w)) == DigitsValue(s)
  {
    if |s| < w {
      LeadingZeros(w - |s|, s);
    }
  }

  /** The two slices of a numeral at k are numerals that concatenate back to it. */
  lemma SliceParts(ds: string, k: nat, x: string, y: string)
    requires AllDigits(ds) && k <= |ds| && x == ds[..k] && y == ds[k..]
    ensures AllDigits(x) && AllDigits(y) && ds == x + y && |y| == |ds| - k
  {
    assert forall i :: 0 <= i < |y| ==> y[i] == ds[k + i];
  }

  /** A numeral split before its last e digits: the head's value shifted by e places plus the tail's. */
  lemma SplitAt(ds: string, x: string, y: string, e: nat)
    requires AllDigits(x) && AllDigits(y) && ds == x + y && |y| == e
    ensures AllDigits(ds) && DigitsValue(x) * Pow10Nat(e) + DigitsValue(y) == DigitsValue(ds)
  {
    DigitsValueAppend(x, y);
  }

  predicate StartsWith(s: string, p: string) { |p| <= |s| && s[..|p|] == p }

  /** `s.includes(sub)`. */
  predicate Contains(s: string, sub: string)
    decreases |s|
  {
    StartsWith(s, sub) || (|s| > 0 && Contains(s[1..], sub))
  }

  lemma {:induction false} ContainsAt(s: string, sub: string, i: nat)
    requires i + |sub| <= |s| && s[i..i + |sub|] == sub
    ensures Contains(s, sub)
  {
    if i > 0 {
      assert s[1..][i - 1..i - 1 + |sub|] == sub;
      ContainsAt(s[1..], sub, i - 1);
    }
  }

  /** sub occurs in s at position i. */
  predicate OccursAt(s: string, sub: string, i: nat) { i + |sub| <= |s| && s[i..i + |sub|] == sub }

  /** When s includes sub, some position of s holds it. */
  lemma {:induction false} ContainsWitness(s: string, sub: string)
    requires Contains(s, sub)
    ensures exists i: nat :: OccursAt(s, sub, i)
    decreases |s|
  {
    if StartsWith(s, sub) {
      assert OccursAt(s, sub, 0);
    } else {
      ContainsWitness(s[1..], sub);
      var i: nat :| OccursAt(s[1..], sub, i);
      assert s[i + 1..i + 1 + |sub|] == s[1..][i..i + |sub|];
      assert OccursAt(s, sub, i + 1);
    }
  }

  /** `s.includes(sub)` is true exactly when sub occurs at some position of s. */
  lemma ContainsIff(s: string, sub: string)
    ensures Contains(s, sub) <==> exists i: nat :: OccursAt(s, sub, i)
  {
    if Contains(s, sub) {
      ContainsWitness(s, sub);
    } else {
      forall i: nat | OccursAt(s, sub, i)
        ensures false
      {
        ContainsAt(s, sub, i);
      }
    }
  }

  /** End of the maximal run of digits of s that starts at j. */
  function DigitRunEnd(s: string, j: nat): (e: nat)
    requires j <= |s|
    ensures j <= e <= |s|
    ensures forall i :: j <= i < e ==> IsDigit(s[i])
    ensures e == |s| || !IsDigit(s[e])
    decreases |s| - j
  {
    if j < |s| && IsDigit(s[j]) then DigitRunEnd(s, j + 1) else j
  }

  /** A run of digits stops at the first non-digit. */
  lemma {:induction false} DigitRunEndAt(s: string, j: nat, e: nat)
    requires j <= e <= |s|
    requires forall i :: j <= i < e ==> IsDigit(s[i])
    requires e == |s| || !IsDigit(s[e])
    ensures DigitRunEnd(s, j) == e
    decreases e - j
  {
    if j < e {
      DigitRunEndAt(s, j + 1, e);
    }
  }

  /**
   * Does the regular expression `pre(\d+)suf` match s at position k?
   * `\d+` is greedy; because suf does not start with a digit, backtracking
   * to a shorter run can never help, so the run is the maximal one.
   */
  predicate MatchesAt(s: string, pre: string, suf: string, k: nat)
    requires k <= |s|
  {
    var j := k + |pre|;
    j <= |s| && s[k..j] == pre && DigitRunEnd(s, j) > j && StartsWith(s[DigitRunEnd(s, j)..], suf)
  }

  /** The digits a match at k captures. */
  function CaptureAt(s: string, pre: string, suf: string, k: nat): (c: string)
    requires k <= |s| && MatchesAt(s, pre, suf, k)
    ensures |c| > 0 && AllDigits(c)
  {
    s[k + |pre|..DigitRunEnd(s, k + |pre|)]
  }

  /**
   * `s.match(/pre(\d+)suf/)`, searching from position k: the capture group
   * of the leftmost match, or None when there is no match.
   */
  function FirstCapture(s: string, pre: string, suf: string, k: nat): (r: Option<string>)
    requires k <= |s|
    requires suf == [] || !IsDigit(suf[0])
    ensures r.Some? ==> |r.value| > 0 && AllDigits(r.value)
    ensures r.Some? <==> exists i :: k <= i <= |s| && MatchesAt(s, pre, suf, i)
    decreases |s| - k
  {
    if MatchesAt(s, pre, suf, k) then Some(CaptureAt(s, pre, suf, k))
    else if k == |s| then None
    else FirstCapture(s, pre, suf, k + 1)
  }

  /** Positions before the first match are skipped. */
  lemma {:induction false} FirstCaptureSkips(s: string, pre: string, suf: string, k: nat, k': nat)
    requires k <= k' <= |s|
    requires suf == [] || !IsDigit(suf[0])
    requires forall i :: k <= i < k' ==> !MatchesAt(s, pre, suf, i)
    ensures FirstCapture(s, pre, suf, k) == FirstCapture(s, pre, suf, k')
    decreases k' - k
  {
    if k < k' {
      assert !MatchesAt(s, pre, suf, k);
      assert FirstCapture(s, pre, suf, k) == FirstCapture(s, pre, suf, k + 1);
      FirstCaptureSkips(s, pre, suf, k + 1, k');
    }
  }

  /**
   * When pre occurs at n, is followed by the digits up to e and then by suf,
   * and no match starts before n, the capture is exactly those digits.
   */
  lemma CaptureOf(s: string, pre: string, suf: string, n: nat, e: nat)
    requires n + |pre| < e <= |s|
    requires s[n..n + |pre|] == pre
    requires forall i :: n + |pre| <= i < e ==> IsDigit(s[i])
    requires |suf| > 0 && !IsDigit(suf[0]) && StartsWith(s[e..], suf)
    requires forall i :: 0 <= i < n ==> !MatchesAt(s, pre, suf, i)
    ensures FirstCapture(s, pre, suf, 0) == Some(s[n + |pre|..e])
  {
    CaptureHere(s, pre, suf, n, e);
    FirstCaptureSkips(s, pre, suf, 0, n);
  }

  /** pre at n, then the digits up to e and suf: the search from n captures those digits. */
  lemma CaptureHere(s: string, pre: string, suf: string, n: nat, e: nat)
    requires n + |pre| < e <= |s|
    requires s[n..n + |pre|] == pre
    requires forall i :: n + |pre| <= i < e ==> IsDigit(s[i])
    requires |suf| > 0 && !IsDigit(suf[0]) && StartsWith(s[e..], suf)
    ensures FirstCapture(s, pre, suf, n) == Some(s[n + |pre|..e])
  {
    assert s[e] == s[e..][..|suf|][0];
    DigitRunEndAt(s, n + |pre|, e);
    assert MatchesAt(s, pre, suf, n);
    FirstCaptureAtMatch(s, pre, suf, n);
  }

  lemma FirstCaptureAtMatch(s: string, pre: string, suf: string, k: nat)
    requires k <= |s| && MatchesAt(s, pre, suf, k)
    requires suf == [] || !IsDigit(suf[0])
    ensures FirstCapture(s, pre, suf, k) == Some(CaptureAt(s, pre, suf, k))
  {
  }



  /** A match of `pre(\d+)suf` with a non-empty pre starts with pre's first character. */
  lemma NoMatchWithoutFirstChar(s: string, pre: string, suf: string, n: nat)
    requires n <= |s| && |pre| > 0
    requires pre[0] !in s[..n]
    ensures forall i :: 0 <= i < n ==> !MatchesAt(s, pre, suf, i)
  {
    forall i | 0 <= i < n
      ensures !MatchesAt(s, pre, suf, i)
    {
      assert s[..n][i] == s[i];
      assert s[i] != pre[0];
      assert i + |pre| <= |s| ==> s[i..i + |pre|][0] == s[i];
    }
  }

  /** A match of `(\d+)suf` that ends before n needs suf's first character before n. */
  lemma NoMatchWithoutSuffixChar(s: string, suf: string, n: nat)
    requires n <= |s| && |suf| > 0
    requires suf[0] !in s[..n]
    requires n == 0 || !IsDigit(s[n - 1])
    ensures forall i :: 0 <= i < n ==> !MatchesAt(s, [], suf, i)
  {
    forall i | 0 <= i < n
      ensures !MatchesAt(s, [], suf, i)
    {
      var e := DigitRunEnd(s, i);
      assert e < n;
      assert s[..n][e] == s[e];
      assert s[e..][0] == s[e] != suf[0];
    }
  }

  /** The numeral of an integer has digits and at most a minus sign. */
  lemma IntTextChars(n: int)
    ensures forall i :: 0 <= i < |IntText(n)| ==> IsDigit(IntText(n)[i]) || IntText(n)[i] == '-'
  {
  }

  /** Different integers have different numerals. */
  lemma IntTextInjective(a: int, b: int)
    requires IntText(a) == IntText(b)
    ensures a == b
  {
    if a >= 0 && b >= 0 {
      NatTextRoundTrip(a);
      NatTextRoundTrip(b);
    } else if a < 0 && b < 0 {
      assert IntText(a)[1..] == NatText(-a) && IntText(b)[1..] == NatText(-b);
      NatTextRoundTrip(-a);
      NatTextRoundTrip(-b);
    }
  }

  lemma MarkerAt(a: string, c: char, b: string)
    ensures (a + [c] + b)[|a|] == c
    ensures forall i :: 0 <= i < |a| ==> (a + [c] + b)[i] == a[i]
  {
  }

  /** A string split at the first occurrence of a marker character determines both halves. */
  lemma SplitAtMarker(a1: string, b1: string, a2: string, b2: string, c: char)
    requires c !in a1 && c !in a2
    requires a1 + [c] + b1 == a2 + [c] + b2
    ensures a1 == a2 && b1 == b2
  {
    var s := a1 + [c] + b1;
    MarkerAt(a1, c, b1);
    MarkerAt(a2, c, b2);
    if |a1| < |a2| {
      assert false;
    } else if |a2| < |a1| {
      assert false;
    }
    assert a1 == s[..|a1|] == a2;
    assert b1 == s[|a1| + 1..] == b2;
  }

  /** Where no character is a digit, `(\d+)suf` cannot match. */
  lemma NoDigitsNoMatch(s: string, suf: string, lo: nat, hi: nat)
    requires lo <= hi <= |s|
    requires forall i :: lo <= i < hi ==> !IsDigit(s[i])
    ensures forall i :: lo <= i < hi ==> !MatchesAt(s, [], suf, i)
  {
    forall i | lo <= i < hi
      ensures !MatchesAt(s, [], suf, i)
    {
      DigitRunEndAt(s, i, i);
    }
  }

  /**
   * After the digit run ending at e, the regular expression
   * `(\d+(\.\d+)?)suf` takes the optional fraction when a point, more
   * digits and suf follow.
   */
  predicate FractionAt(s: string, suf: string, e: nat)
    requires e <= |s|
  {
    e < |s| && s[e] == '.' && DigitRunEnd(s, e + 1) > e + 1 && StartsWith(s[DigitRunEnd(s, e + 1)..], suf)
  }

  /** Does `(\d+(\.\d+)?)suf` match s at k? */
  predicate DecimalMatchesAt(s: string, suf: string, k: nat)
    requires k <= |s|
  {
    var e := DigitRunEnd(s, k);
    e > k && (FractionAt(s, suf, e) || StartsWith(s[e..], suf))
  }

  /** The whole digits and the fraction digits (possibly none) a match at k captures. */
  function DecimalCaptureAt(s: string, suf: string, k: nat): (r: (string, string))
    requires k <= |s| && DecimalMatchesAt(s, suf, k)
    ensures |r.0| > 0 && AllDigits(r.0) && AllDigits(r.1)
  {
    var e := DigitRunEnd(s, k);
    if FractionAt(s, suf, e) then (s[k..e], s[e + 1..DigitRunEnd(s, e + 1)]) else (s[k..e], [])
  }

  /** The leftmost match of `(\d+(\.\d+)?)suf` from position k. */
  function FirstDecimalCapture(s: string, suf: string, k: nat): (r: Option<(string, string)>)
    requires k <= |s|
    requires suf == [] || (!IsDigit(suf[0]) && suf[0] != '.')
    ensures r.Some? ==> |r.value.0| > 0 && AllDigits(r.value.0) && AllDigits(r.value.1)
    decreases |s| - k
  {
    if DecimalMatchesAt(s, suf, k) then Some(DecimalCaptureAt(s, suf, k))
    else if k == |s| then None
    else FirstDecimalCapture(s, suf, k + 1)
  }

  lemma {:induction false} FirstDecimalCaptureSkips(s: string, suf: string, k: nat, k': nat)
    requires k <= k' <= |s|
    requires suf == [] || (!IsDigit(suf[0]) && suf[0] != '.')
    requires forall i :: k <= i < k' ==> !DecimalMatchesAt(s, suf, i)
    ensures FirstDecimalCapture(s, suf, k) == FirstDecimalCapture(s, suf, k')
    decreases k' - k
  {
    if k < k' {
      DecimalSkipOne(s, suf, k);
      FirstDecimalCaptureSkips(s, suf, k + 1, k');
    }
  }

  lemma DecimalSkipOne(s: string, suf: string, k: nat)
    requires k < |s| && !DecimalMatchesAt(s, suf, k)
    requires suf == [] || (!IsDigit(suf[0]) && suf[0] != '.')
    ensures FirstDecimalCapture(s, suf, k) == FirstDecimalCapture(s, suf, k + 1)
  {
  }

  /** Where no character is a digit, `(\d+(\.\d+)?)suf` cannot match. */
  lemma NoDigitsNoDecimalMatch(s: string, suf: string, lo: nat, hi: nat)
    requires lo <= hi <= |s|
    requires forall i :: lo <= i < hi ==> !IsDigit(s[i])
    ensures forall i :: lo <= i < hi ==> !DecimalMatchesAt(s, suf, i)
  {
    forall i | lo <= i < hi
      ensures !DecimalMatchesAt(s, suf, i)
    {
      DigitRunEndAt(s, i, i);
    }
  }

  /** A decimal match ending before n needs suf's first character before n. */
  lemma NoDecimalMatchWithoutSuffixChar(s: string, suf: string, n: nat)
    requires n <= |s| && |suf| > 0
    requires suf[0] !in s[..n]
    requires n == 0 || (!IsDigit(s[n - 1]) && s[n - 1] != '.')
    ensures forall i :: 0 <= i < n ==> !DecimalMatchesAt(s, suf, i)
  {
    forall i | 0 <= i < n
      ensures !DecimalMatchesAt(s, suf, i)
    {
      var e := DigitRunEnd(s, i);
      assert e < n;
      assert s[..n][e] == s[e];
      assert s[e..][0] == s[e] != suf[0];
      if e > i && e < |s| && s[e] == '.' {
        assert e + 1 < n;
        var e2 := DigitRunEnd(s, e + 1);
        assert e2 < n;
        assert s[..n][e2] == s[e2];
        assert s[e2..][0] == s[e2] != suf[0];
      }
    }
  }

  /** A digit run from n to e followed directly by suf: the match at n captures the run and no fraction. */
  lemma WholeMatchAt(s: string, suf: string, n: nat, e: nat)
    requires |suf| > 0 && !IsDigit(suf[0]) && suf[0] != '.'
    requires n < e <= |s| && forall i :: n <= i < e ==> IsDigit(s[i])
    requires StartsWith(s[e..], suf)
    ensures DecimalMatchesAt(s, suf, n) && DecimalCaptureAt(s, suf, n) == (s[n..e], [])
  {
    assert s[e] == s[e..][..|suf|][0];
    DigitRunEndAt(s, n, e);
  }

  /** A digit run from n to e, a point, a digit run to e2 and then suf: the match at n captures both runs. */
  lemma FractionMatchAt(s: string, suf: string, n: nat, e: nat, e2: nat)
    requires |suf| > 0 && !IsDigit(suf[0]) && suf[0] != '.'
    requires n < e && e + 1 < e2 <= |s| && s[e] == '.'
    requires forall i :: n <= i < e ==> IsDigit(s[i])
    requires forall i :: e + 1 <= i < e2 ==> IsDigit(s[i])
    requires StartsWith(s[e2..], suf)
    ensures DecimalMatchesAt(s, suf, n) && DecimalCaptureAt(s, suf, n) == (s[n..e], s[e + 1..e2])
  {
    DigitRunEndAt(s, n, e);
    assert s[e2] == s[e2..][..|suf|][0];
    DigitRunEndAt(s, e + 1, e2);
    assert FractionAt(s, suf, e);
  }

  /** The characters of a slice that equals an all-digit string are digits. */
  lemma DigitsAt(s: string, lo: nat, hi: nat, x: string)
    requires lo <= hi <= |s| && s[lo..hi] == x && AllDigits(x)
    ensures forall i :: lo <= i < hi ==> IsDigit(s[i])
  {
    assert forall i :: lo <= i < hi ==> s[i] == x[i - lo];
  }

  /** The digits x at n, directly followed by suf: the match at n captures (x, []). */
  lemma WholeCaptureAt(s: string, suf: string, n: nat, x: string)
    requires |suf| > 0 && !IsDigit(suf[0]) && suf[0] != '.'
    requires |x| > 0 && AllDigits(x)
    requires n + |x| <= |s| && s[n..n + |x|] == x
    requires StartsWith(s[n + |x|..], suf)
    ensures FirstDecimalCapture(s, suf, n) == Some((x, []))
  {
    DigitsAt(s, n, n + |x|, x);
    WholeMatchAt(s, suf, n, n + |x|);
    FirstDecimalCaptureAtMatch(s, suf, n);
  }

  /** The digits x at n, a point, the digits y and then suf: the match at n captures (x, y). */
  lemma FractionCaptureAt(s: string, suf: string, n: nat, x: string, y: string)
    requires |suf| > 0 && !IsDigit(suf[0]) && suf[0] != '.'
    requires |x| > 0 && AllDigits(x) && |y| > 0 && AllDigits(y)
    requires n + |x| + 1 + |y| <= |s| && s[n..n + |x|] == x && s[n + |x|] == '.'
    requires s[n + |x| + 1..n + |x| + 1 + |y|] == y && StartsWith(s[n + |x| + 1 + |y|..], suf)
    ensures FirstDecimalCapture(s, suf, n) == Some((x, y))
  {
    var e := n + |x|;
    var e2 := e + 1 + |y|;
    DigitsAt(s, n, e, x);
    DigitsAt(s, e + 1, e2, y);
    FractionMatchAt(s, suf, n, e, e2);
    FirstDecimalCaptureAtMatch(s, suf, n);
  }

  /** At a matching position the leftmost match is the one there. */
  lemma FirstDecimalCaptureAtMatch(s: string, suf: string, k: nat)
    requires k <= |s| && DecimalMatchesAt(s, suf, k)
    requires suf == [] || (!IsDigit(suf[0]) && suf[0] != '.')
    ensures FirstDecimalCapture(s, suf, k) == Some(DecimalCaptureAt(s, suf, k))
  {
  }

  /**
   * When the digits x start at n, followed by a point and the digits y
   * (or directly, when y is empty) and then by suf, and nothing matches
   * before n, the capture is (x, y).
   */
  lemma DecimalCaptureOf(s: string, suf: string, n: nat, x: string, y: string)
    requires |suf| > 0 && !IsDigit(suf[0]) && suf[0] != '.'
    requires |x| > 0 && AllDigits(x) && AllDigits(y)
    requires n + |x| <= |s| && s[n..n + |x|] == x
    requires y == [] ==> StartsWith(s[n + |x|..], suf)
    requires y != [] ==> (n + |x| + 1 + |y| <= |s| && s[n + |x|] == '.'
                          && s[n + |x| + 1..n + |x| + 1 + |y|] == y && StartsWith(s[n + |x| + 1 + |y|..], suf))
    requires forall i :: 0 <= i < n ==> !DecimalMatchesAt(s, suf, i)
    ensures FirstDecimalCapture(s, suf, 0) == Some((x, y))
  {
    if y == [] {
      WholeCaptureAt(s, suf, n, x);
    } else {
      FractionCaptureAt(s, suf, n, x, y);
    }
    FirstDecimalCaptureSkips(s, suf, 0, n);
  }
}
