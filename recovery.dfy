/**
 * What the history screen's label recovers from a stored line item,
 * compared with what the calculator put into it: the bottles per box come
 * back, a whole-number weight comes back, and a fractional weight such as
 * 37.5 comes back as its last digits only. `CorrectedLabel` reads the
 * weight with its fraction and recovers every non-negative weight.
 */
module LabelRecovery {
  import opened Wrappers
  import opened Strings
  import opened Num
  import opened Catalog
  import opened Selection
  import opened Records
  import opened Labels
  import opened Pricing
  import opened History

  lemma IntTextNumeral(n: int)
    ensures Numeral(IntText(n))
  {
    IntTextChars(n);
  }

  /** The description a line item stores is the calculator's description. */
  lemma ItemDetails(spec: ProductSpec, rule: BottleRule, sel: Selection, id: string, ts: int)
    ensures MakeItem(spec, rule, sel, id, ts).details
         == if sel.container == Round then RoundDescription(spec, sel) else BottleDescription(spec, rule, sel)
  {
  }

  /** The head of a bottle description has no "每" unless the grade's name does. */
  lemma BottleHeadWithoutMarker(spec: ProductSpec, rule: BottleRule, sel: Selection)
    requires '每' !in spec.name
    ensures '每' !in BottleHead(spec, rule, sel)
  {
    var g, r, b := RootsPerGramText(spec), IntText(RootsPerBottle(rule, sel.container)), IntText(sel.quantity * sel.boxConfig);
    RootsPerGramTextNumeral(spec);
    NotInNumeral(g, '每');
    IntTextNumeral(RootsPerBottle(rule, sel.container));
    NotInNumeral(r, '每');
    IntTextNumeral(sel.quantity * sel.boxConfig);
    NotInNumeral(b, '每');
    NamesWithoutMarker(sel.container, sel.packaging);
    HeadWithoutMarker(spec.name, g, TypeName(sel.container), r, b, PackagingDesc(sel.packaging));
  }

  lemma NamesWithoutMarker(c: Container, p: Packaging)
    ensures '每' !in TypeName(c) && '每' !in PackagingDesc(p)
  {
  }

  /** A bottle head built from parts without "每" has none. */
  lemma HeadWithoutMarker(name: string, g: string, tn: string, r: string, b: string, pd: string)
    requires '每' !in name && '每' !in g && '每' !in tn && '每' !in r && '每' !in b && '每' !in pd
    ensures '每' !in "规格:" + name + "(" + g + "根/克) - " + tn + " (" + r + "根/瓶) x " + b + "瓶 - " + pd + " "
  {
  }

  /** Everything of a boxed bottle description before "每盒". */
  function BoxedDetailHead(spec: ProductSpec, rule: BottleRule, sel: Selection): string
  {
    BottleHead(spec, rule, sel) + "(共" + IntText(sel.quantity) + "盒, "
  }

  /** Regrouping a boxed bottle description around "每盒". */
  lemma RegroupBoxed(h: string, o: string, q: string, l: string, p: string, b: string, t: string)
    ensures h + (o + q + (l + p) + b + t) == h + o + q + l + p + (b + t)
  {
  }

  lemma BoxedDetailSplit(spec: ProductSpec, rule: BottleRule, sel: Selection)
    requires sel.packaging != Bulk && sel.boxConfig >= 0
    ensures BottleDescription(spec, rule, sel)
         == BoxedDetailHead(spec, rule, sel) + PerBoxPrefix + (NatText(sel.boxConfig) + (BottleUnit + ")"))
  {
    assert "盒, 每盒" == "盒, " + PerBoxPrefix;
    assert "瓶)" == BottleUnit + ")";
    assert DetailText(sel) == "(共" + IntText(sel.quantity) + ("盒, " + PerBoxPrefix) + NatText(sel.boxConfig) + (BottleUnit + ")");
    RegroupBoxed(BottleHead(spec, rule, sel), "(共", IntText(sel.quantity), "盒, ", PerBoxPrefix, NatText(sel.boxConfig), BottleUnit + ")");
  }

  /** The capture of `pre(\d+)suf` in head + pre + digits + suf..., when head has no pre[0]. */
  lemma CaptureAfterHead(head: string, pre: string, ds: string, tail: string, suf: string)
    requires |pre| > 0 && pre[0] !in head
    requires |ds| > 0 && AllDigits(ds)
    requires |suf| > 0 && !IsDigit(suf[0]) && StartsWith(tail, suf)
    ensures FirstCapture(head + pre + (ds + tail), pre, suf, 0) == Some(ds)
  {
    var s := head + pre + (ds + tail);
    var n := |head|;
    var e := n + |pre| + |ds|;
    assert s[..n] == head;
    assert s[n..n + |pre|] == pre;
    assert s[n + |pre|..e] == ds;
    assert s[e..] == tail;
    NoMatchWithoutFirstChar(s, pre, suf, n);
    CaptureOf(s, pre, suf, n, e);
  }

  /**
   * A boxed bottle order's label shows the bottles per box from the
   * stored description: the digits between "每盒" and "瓶" read back as
   * the box configuration.
   */
  lemma BottleCountRecovered(spec: ProductSpec, rule: BottleRule, sel: Selection, id: string, ts: int)
    requires sel.container != Round && sel.packaging != Bulk && sel.boxConfig >= 0
    requires '每' !in spec.name
    ensures ExtractLabel(MakeItem(spec, rule, sel, id, ts)).totalBottles == sel.boxConfig
  {
    ItemDetails(spec, rule, sel, id, ts);
    BoxedDetailSplit(spec, rule, sel);
    BottleHeadWithoutMarker(spec, rule, sel);
    IntTextNumeral(sel.quantity);
    NotInNumeral(IntText(sel.quantity), '每');
    assert '每' !in BoxedDetailHead(spec, rule, sel);
    CaptureAfterHead(BoxedDetailHead(spec, rule, sel), PerBoxPrefix, NatText(sel.boxConfig), BottleUnit + ")", BottleUnit);
    NatTextRoundTrip(sel.boxConfig);
  }

  lemma ContainsMiddle(s: string, h: string, p: string, d: string, u: string, t: string)
    requires s == h + p + (d + (u + t))
    ensures Contains(s, p + d + u)
  {
    var sub := p + d + u;
    assert s == h + sub + t;
    assert s[|h|..|h| + |sub|] == sub;
    ContainsAt(s, sub, |h|);
  }

  /** A boxed bottle item's description mentions "每盒{boxConfig}瓶". */
  lemma BottleDetailsMentionBoxConfig(spec: ProductSpec, rule: BottleRule, sel: Selection, id: string, ts: int)
    requires sel.container != Round && sel.packaging != Bulk && sel.boxConfig >= 0
    ensures Contains(MakeItem(spec, rule, sel, id, ts).details, PerBoxPrefix + IntText(sel.boxConfig) + BottleUnit)
  {
    ItemDetails(spec, rule, sel, id, ts);
    BoxedDetailSplit(spec, rule, sel);
    ContainsMiddle(MakeItem(spec, rule, sel, id, ts).details, BoxedDetailHead(spec, rule, sel),
      PerBoxPrefix, NatText(sel.boxConfig), BottleUnit, ")");
  }

  /**
   * The label printed from the calculator counts every bottle of the order,
   * while the label reprinted from history counts the bottles in one box:
   * for two boxes of ten they show 20 and 10.
   */
  lemma CalculatorLabelCountsOrder(spec: ProductSpec, rule: BottleRule, sel: Selection, id: string, ts: int)
    requires sel.container != Round && sel.packaging != Bulk && '每' !in spec.name
    requires sel.quantity == 2 && sel.boxConfig == 10
    ensures CalculatorLabel(spec, rule, sel).totalBottles == 20
    ensures ExtractLabel(MakeItem(spec, rule, sel, id, ts)).totalBottles == 10
  {
    BottleCountRecovered(spec, rule, sel, id, ts);
  }

  /** The calculator's label data with the bottles of one box, as a box label counts them. */
  function UnitCalculatorLabel(spec: ProductSpec, rule: BottleRule, sel: Selection): (l: LabelData)
    ensures l.isBoxMode <==> sel.container == Round
    ensures l.totalBottles == if sel.container == Round then sel.quantity else sel.boxConfig
    ensures l.gramWeight == CurrentWeight(sel) && l.specName == spec.name
  {
    CalculatorLabel(spec, rule, sel).(totalBottles := if sel.container == Round then sel.quantity else sel.boxConfig)
  }

  /**
   * With the per-box count, the calculator's label and the label
   * reprinted from the stored item agree on the grade, the mode and the
   * bottle count of every boxed bottle order.
   */
  lemma UnitLabelsAgree(spec: ProductSpec, rule: BottleRule, sel: Selection, id: string, ts: int)
    requires sel.container != Round && sel.packaging != Bulk && sel.boxConfig >= 0 && '每' !in spec.name
    ensures var a, b := UnitCalculatorLabel(spec, rule, sel), ExtractLabel(MakeItem(spec, rule, sel, id, ts));
      a.totalBottles == b.totalBottles && a.specName == b.specName && a.isBoxMode == b.isBoxMode
      && a.rootsPerBottle == b.rootsPerBottle
  {
    BottleCountRecovered(spec, rule, sel, id, ts);
  }

  /** The part of a round-box head up to "根/", which is followed by "克". */
  function RoundHeadStart(spec: ProductSpec): string
  {
    "规格:" + spec.name + "(" + RootsPerGramText(spec) + "根/"
  }

  const RoundHeadRest: string := "克) - 豪华圆盒/礼盒装 ("

  /** What follows the weight in a round-box description. */
  function RoundTail(spec: ProductSpec, sel: Selection): string
  {
    "克/盒) (约" + IntText(RootsPerBox(spec, sel)) + "根) x " + IntText(sel.quantity) + "盒"
  }

  /** Regrouping a seven-part concatenation. */
  lemma Regroup(a: string, b: string, c: string, d: string, e: string, f: string, g: string)
    ensures a + b + c + d + e + f + g == a + (b + (c + d + e + f + g))
  {
  }

  lemma RoundSplit(spec: ProductSpec, sel: Selection)
    ensures RoundDescription(spec, sel) == RoundHeadStart(spec) + RoundHeadRest + (Text(CurrentWeight(sel)) + RoundTail(spec, sel))
    ensures StartsWith(RoundTail(spec, sel), WeightUnit)
  {
    RoundHeadSplit(spec);
    var r, q := IntText(RootsPerBox(spec, sel)), IntText(sel.quantity);
    Regroup(RoundHead(spec), Text(CurrentWeight(sel)), "克/盒) (约", r, "根) x ", q, "盒");
    RoundTailStart(r, q);
  }

  /** The round-box head is its part up to "根/", then the rest. */
  lemma RoundHeadSplit(spec: ProductSpec)
    ensures RoundHead(spec) == RoundHeadStart(spec) + RoundHeadRest
  {
    var h0 := "规格:" + spec.name + "(" + RootsPerGramText(spec);
    RoundHeadWords();
    assert h0 + "根/" + RoundHeadRest == h0 + ("根/" + RoundHeadRest);
  }

  lemma RoundHeadWords()
    ensures "根/克) - 豪华圆盒/礼盒装 (" == "根/" + RoundHeadRest
  {
  }

  lemma RoundTailStart(r: string, q: string)
    ensures StartsWith("克/盒) (约" + r + "根) x " + q + "盒", WeightUnit)
  {
    var t := "克/盒) (约" + r + "根) x " + q + "盒";
    assert t[..|WeightUnit|] == WeightUnit;
  }

  lemma RoundHeadStartShape(spec: ProductSpec)
    requires '克' !in spec.name
    ensures var a1 := RoundHeadStart(spec); '克' !in a1 && |a1| > 0 && a1[|a1| - 1] == '/'
  {
    RootsPerGramTextNumeral(spec);
    NotInNumeral(RootsPerGramText(spec), '克');
  }

  lemma RoundHeadRestHasNoDigit()
    ensures forall j :: 0 <= j < |RoundHeadRest| ==> !IsDigit(RoundHeadRest[j])
  {
  }

  /**
   * Neither regular expression ending in suf can match inside a1 + a2
   * when a1 has no suf[0] and ends in a character that is neither a digit
   * nor a point, and a2 has no digit.
   */
  lemma NoMatchInHead(a1: string, a2: string, u: string, suf: string)
    requires |suf| > 0 && suf[0] !in a1
    requires |a1| > 0 && !IsDigit(a1[|a1| - 1]) && a1[|a1| - 1] != '.'
    requires forall j :: 0 <= j < |a2| ==> !IsDigit(a2[j])
    ensures forall i :: 0 <= i < |a1 + a2| ==> !MatchesAt(a1 + a2 + u, [], suf, i)
    ensures forall i :: 0 <= i < |a1 + a2| ==> !DecimalMatchesAt(a1 + a2 + u, suf, i)
  {
    var s := a1 + a2 + u;
    assert s[..|a1|] == a1;
    assert s[|a1| - 1] == a1[|a1| - 1];
    NoMatchWithoutSuffixChar(s, suf, |a1|);
    NoDecimalMatchWithoutSuffixChar(s, suf, |a1|);
    assert forall i :: |a1| <= i < |a1| + |a2| ==> s[i] == a2[i - |a1|];
    NoDigitsNoMatch(s, suf, |a1|, |a1| + |a2|);
    NoDigitsNoDecimalMatch(s, suf, |a1|, |a1| + |a2|);
  }

  /** The stored round-box description is its head, then the weight's text and "克/盒", with no match in the head. */
  lemma RoundLayout(s: string, spec: ProductSpec, rule: BottleRule, sel: Selection, id: string, ts: int)
    requires s == MakeItem(spec, rule, sel, id, ts).details
    requires sel.container == Round && '克' !in spec.name
    ensures s == RoundHeadStart(spec) + RoundHeadRest + (Text(CurrentWeight(sel)) + RoundTail(spec, sel))
    ensures forall i :: 0 <= i < |RoundHeadStart(spec) + RoundHeadRest| ==> !MatchesAt(s, [], WeightUnit, i)
    ensures forall i :: 0 <= i < |RoundHeadStart(spec) + RoundHeadRest| ==> !DecimalMatchesAt(s, WeightUnit, i)
  {
    ItemDetails(spec, rule, sel, id, ts);
    RoundSplit(spec, sel);
    RoundHeadStartShape(spec);
    RoundHeadRestHasNoDigit();
    NoMatchInHead(RoundHeadStart(spec), RoundHeadRest, Text(CurrentWeight(sel)) + RoundTail(spec, sel), WeightUnit);
  }

  /** The capture of `(\d+)suf` right after a prefix in which nothing matches. */
  lemma CaptureAfterPrefix(s: string, p: string, ds: string, tail: string, suf: string)
    requires s == p + (ds + tail)
    requires |ds| > 0 && AllDigits(ds)
    requires |suf| > 0 && !IsDigit(suf[0]) && StartsWith(tail, suf)
    requires forall i :: 0 <= i < |p| ==> !MatchesAt(s, [], suf, i)
    ensures FirstCapture(s, [], suf, 0) == Some(ds)
  {
    var n, e := |p|, |p| + |ds|;
    PrefixSlices(s, p, ds, tail);
    DigitsAt(s, n, e, ds);
    var none: string := [];
    assert s[n..n + |none|] == none;
    CaptureOf(s, none, suf, n, e);
    assert s[n + |none|..e] == ds;
  }

  /** The pieces of p + (d + t) at their positions. */
  lemma PrefixSlices(s: string, p: string, d: string, t: string)
    requires s == p + (d + t)
    ensures |p| + |d| <= |s| && s[|p|..|p| + |d|] == d && s[|p| + |d|..] == t
  {
  }

  /**
   * A round-box order whose weight is a whole number of grams
   * (a preset or a whole custom entry): the label shows that weight.
   */
  lemma WholeWeightRecovered(spec: ProductSpec, rule: BottleRule, sel: Selection, id: string, ts: int, w: nat)
    requires sel.container == Round && Value(CurrentWeight(sel)) == w as real
    requires '克' !in spec.name
    ensures Value(ExtractLabel(MakeItem(spec, rule, sel, id, ts)).gramWeight) == w as real
  {
    var item := MakeItem(spec, rule, sel, id, ts);
    var s := item.details;
    var p, ds, tail := RoundHeadStart(spec) + RoundHeadRest, NatText(w), RoundTail(spec, sel);
    RoundLayout(s, spec, rule, sel, id, ts);
    RoundSplit(spec, sel);
    TextOfWhole(CurrentWeight(sel), w);
    assert s == p + (ds + tail);
    NatTextRoundTrip(w);
    CaptureAfterPrefix(s, p, ds, tail, WeightUnit);
    BoxWeightOf(item, ds);
  }

  /** "37.5" followed by suf: the leftmost `(\d+)suf` match is the "5". */
  lemma LastDigitCaptured(s: string, p: string, tail: string, suf: string)
    requires s == p + ("37.5" + tail)
    requires |suf| > 0 && !IsDigit(suf[0]) && suf[0] != '.' && StartsWith(tail, suf)
    requires forall i :: 0 <= i < |p| ==> !MatchesAt(s, [], suf, i)
    ensures FirstCapture(s, [], suf, 0) == Some("5")
  {
    var n := |p|;
    PrefixSlices(s, p, "37.5", tail);
    MisreadAt(s, n, tail, suf);
    FirstCaptureSkips(s, [], suf, 0, n);
  }

  /** At "37.5" followed by suf, the searches from the "3", the "7" and the "." fail and the one from the "5" captures it. */
  lemma MisreadAt(s: string, n: nat, tail: string, suf: string)
    requires n + 4 <= |s| && s[n..n + 4] == "37.5" && s[n + 4..] == tail
    requires |suf| > 0 && !IsDigit(suf[0]) && suf[0] != '.' && StartsWith(tail, suf)
    ensures FirstCapture(s, [], suf, n) == Some("5")
  {
    assert s[n] == '3' && s[n + 1] == '7' && s[n + 2] == '.' && s[n + 3] == '5';
    DigitRunEndAt(s, n, n + 2);
    DigitRunEndAt(s, n + 1, n + 2);
    DigitRunEndAt(s, n + 2, n + 2);
    assert s[n + 2..][0] == '.';
    var none: string := [];
    assert s[n + 3..n + 3 + |none|] == none;
    CaptureHere(s, none, suf, n + 3, n + 4);
    assert s[n + 3..n + 4] == "5";
    assert !MatchesAt(s, none, suf, n) && !MatchesAt(s, none, suf, n + 1) && !MatchesAt(s, none, suf, n + 2);
    FirstCaptureSkips(s, none, suf, n, n + 3);
  }

  /**
   * A custom weight of 37.5 grams is stored as "37.5克/盒", and the label
   * reads only the digits right before "克/盒": it shows 5 grams.
   */
  lemma FractionalWeightMisread(spec: ProductSpec, rule: BottleRule, sel: Selection, id: string, ts: int)
    requires sel.container == Round && CurrentWeight(sel) == Decimal(375, 1)
    requires '克' !in spec.name
    ensures Value(CurrentWeight(sel)) == 37.5
    ensures Value(ExtractLabel(MakeItem(spec, rule, sel, id, ts)).gramWeight) == 5.0
  {
    ThirtySevenAndAHalf();
    var item := MakeItem(spec, rule, sel, id, ts);
    var s := item.details;
    var p, tail := RoundHeadStart(spec) + RoundHeadRest, RoundTail(spec, sel);
    RoundLayout(s, spec, rule, sel, id, ts);
    RoundSplit(spec, sel);
    assert s == p + ("37.5" + tail);
    LastDigitCaptured(s, p, tail, WeightUnit);
    BoxWeightOf(item, "5");
    assert DigitsValue("5") == 5;
  }

  /** 37.5 as a decimal: its value and its text. */
  lemma ThirtySevenAndAHalf()
    ensures Value(Decimal(375, 1)) == 37.5 && Text(Decimal(375, 1)) == "37.5"
  {
    assert Pow10Nat(1) == 10;
    assert NatText(375) == "375";
  }

  /** A box item's label shows the value of the digits `(\d+)克/盒` captures. */
  lemma BoxWeightOf(item: LineItem, c: string)
    requires item.kind == BoxItem && FirstCapture(item.details, [], WeightUnit, 0) == Some(c)
    ensures AllDigits(c) && Value(ExtractLabel(item).gramWeight) == DigitsValue(c) as real
  {
  }

  /** The weight in a description, read as `(\d+(\.\d+)?)克/盒` with its fraction; 0 when absent. */
  function CorrectedWeight(details: string): (w: Decimal)
    ensures FirstDecimalCapture(details, WeightUnit, 0).None? ==> w == Zero
    ensures FirstDecimalCapture(details, WeightUnit, 0).Some? ==> Value(w) >= 0.0
  {
    match FirstDecimalCapture(details, WeightUnit, 0)
    case Some((x, y)) =>
      var r := FromParts(x, y);
      assert r.m >= 0;
      SignOfValue(r);
      r
    case None => Zero
  }

  /** The label of a stored item, with a box item's weight read by `CorrectedWeight`. */
  function CorrectedLabel(item: LineItem): (l: LabelData)
    ensures l.isBoxMode <==> item.kind == BoxItem
    ensures l.specName == item.specName && l.rootsPerBottle == item.rootsPerBottle
    ensures l.totalBottles == ExtractLabel(item).totalBottles
    ensures item.kind == BottleItem ==> l == ExtractLabel(item)
  {
    var l := ExtractLabel(item);
    if item.kind == BoxItem then l.(gramWeight := CorrectedWeight(item.details)) else l
  }

  /** The capture of `(\d+(\.\d+)?)suf` right after a prefix in which nothing matches. */
  lemma DecimalCaptureAfterPrefix(s: string, p: string, x: string, y: string, tail: string, suf: string)
    requires s == p + ((if y == [] then x else x + "." + y) + tail)
    requires |x| > 0 && AllDigits(x) && AllDigits(y)
    requires |suf| > 0 && !IsDigit(suf[0]) && suf[0] != '.' && StartsWith(tail, suf)
    requires forall i :: 0 <= i < |p| ==> !DecimalMatchesAt(s, suf, i)
    ensures FirstDecimalCapture(s, suf, 0) == Some((x, y))
  {
    var n := |p|;
    if y == [] {
      PrefixSlices(s, p, x, tail);
    } else {
      assert x + "." + y + tail == x + ("." + (y + tail));
      PrefixSlices(s, p, x, "." + (y + tail));
      PrefixSlices(s, p + x + ".", y, tail);
      assert s[n + |x|] == s[n + |x|..][0];
    }
    DecimalCaptureOf(s, suf, n, x, y);
  }

  /** With the fraction read, the label shows every non-negative weight the order was made with. */
  lemma CorrectedWeightRecovered(spec: ProductSpec, rule: BottleRule, sel: Selection, id: string, ts: int)
    requires sel.container == Round && Value(CurrentWeight(sel)) >= 0.0
    requires '克' !in spec.name
    ensures Value(CorrectedLabel(MakeItem(spec, rule, sel, id, ts)).gramWeight) == Value(CurrentWeight(sel))
  {
    var cw := CurrentWeight(sel);
    var item := MakeItem(spec, rule, sel, id, ts);
    var s := item.details;
    RoundLayout(s, spec, rule, sel, id, ts);
    TextParts(cw);
    var x, y := WholeDigits(cw), FracDigits(cw);
    assert Text(cw) == if y == [] then x else x + "." + y;
    DecimalCaptureAfterPrefix(s, RoundHeadStart(spec) + RoundHeadRest, x, y, RoundTail(spec, sel), WeightUnit);
    CorrectedBoxWeight(item, x, y);
  }

  /** A box item's corrected label shows the decimal its captured parts parse to. */
  lemma CorrectedBoxWeight(item: LineItem, x: string, y: string)
    requires item.kind == BoxItem
    requires FirstDecimalCapture(item.details, WeightUnit, 0) == Some((x, y))
    ensures AllDigits(x) && AllDigits(y) && CorrectedLabel(item).gramWeight == FromParts(x, y)
  {
  }
}
