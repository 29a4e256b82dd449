/**
 * The printable product label: its date line, the batch number and
 * barcode payload derived from the date, the grade line and the quantity
 * line.
 */
module Labels {
  import opened Strings
  import opened Num

  /** What a label is printed from. */
  datatype LabelData = LabelData(
    specName: string,
    rootsPerBottle: int,
    totalBottles: int,
    gramWeight: Decimal,
    isBoxMode: bool)

  /** A calendar day as the clock reports it: the month is counted from 0. */
  datatype CalendarDate = CalendarDate(year: int, monthIndex: int, day: int)

  predicate ValidDate(d: CalendarDate)
  {
    0 <= d.monthIndex <= 11 && 1 <= d.day <= 31
  }

  /** The date line "{year}年{month}月{day}日", month and day without padding. */
  function FormatDate(d: CalendarDate): string
  {
    IntText(d.year) + "年" + IntText(d.monthIndex + 1) + "月" + IntText(d.day) + "日"
  }

  lemma NoMarkerInNumeral(n: int, c: char)
    requires !IsDigit(c) && c != '-'
    ensures c !in IntText(n)
  {
    IntTextChars(n);
  }

  /** A numeral followed by a marker that is not a numeral character is read back unambiguously. */
  lemma NumeralThenMarker(m: int, n: int, c: char, r1: string, r2: string)
    requires !IsDigit(c) && c != '-'
    requires IntText(m) + [c] + r1 == IntText(n) + [c] + r2
    ensures m == n && r1 == r2
  {
    NoMarkerInNumeral(m, c);
    NoMarkerInNumeral(n, c);
    SplitAtMarker(IntText(m), r1, IntText(n), r2, c);
    IntTextInjective(m, n);
  }

  lemma DateLineParts(a: CalendarDate)
    ensures FormatDate(a) == IntText(a.year) + ['年'] + (IntText(a.monthIndex + 1) + ['月'] + (IntText(a.day) + ['日']))
  {
    var y, m, d := IntText(a.year), IntText(a.monthIndex + 1), IntText(a.day);
    assert FormatDate(a) == y + "年" + m + "月" + d + "日";
    assert y + "年" + m + "月" + d + "日" == y + ['年'] + (m + ['月'] + (d + ['日']));
  }

  /** Different days give different date lines: the text determines the date. */
  lemma FormatDateInjective(a: CalendarDate, b: CalendarDate)
    requires FormatDate(a) == FormatDate(b)
    ensures a == b
  {
    var da, db := IntText(a.day) + ['日'], IntText(b.day) + ['日'];
    var ma, mb := IntText(a.monthIndex + 1) + ['月'] + da, IntText(b.monthIndex + 1) + ['月'] + db;
    DateLineParts(a);
    DateLineParts(b);
    NumeralThenMarker(a.year, b.year, '年', ma, mb);
    NumeralThenMarker(a.monthIndex + 1, b.monthIndex + 1, '月', da, db);
    NumeralThenMarker(a.day, b.day, '日', [], []);
  }

  /** The date part of the batch number: the year, then month and day padded to two digits. */
  function BatchDatePart(d: CalendarDate): string
  {
    IntText(d.year) + PadStart(IntText(d.monthIndex + 1), 2) + PadStart(IntText(d.day), 2)
  }

  /** A number from 1 to 99 padded to two digits reads back as itself. */
  lemma TwoDigits(n: int)
    requires 1 <= n <= 99
    ensures var p := PadStart(IntText(n), 2);
      |p| == 2 && AllDigits(p) && DigitsValue(p) == n
  {
    NatTextRoundTrip(n);
    if n < 10 {
      NatTextLength(n, 1);
      LeadingZeros(1, NatText(n));
    } else {
      NatTextLength(n, 2);
    }
  }

  /**
   * For a four-digit year the date part is eight digits, and the year,
   * month and day can be read back from fixed positions.
   */
  lemma BatchDatePartLayout(d: CalendarDate)
    requires ValidDate(d) && 1000 <= d.year <= 9999
    ensures var p := BatchDatePart(d);
      && |p| == 8 && AllDigits(p)
      && DigitsValue(p[..4]) == d.year
      && DigitsValue(p[4..6]) == d.monthIndex + 1
      && DigitsValue(p[6..]) == d.day
  {
    var y, m, dd := IntText(d.year), PadStart(IntText(d.monthIndex + 1), 2), PadStart(IntText(d.day), 2);
    assert Pow10Nat(3) == 1000 && Pow10Nat(4) == 10000;
    NatTextLength(d.year, 4);
    NatTextRoundTrip(d.year);
    TwoDigits(d.monthIndex + 1);
    TwoDigits(d.day);
    ThreeParts(y, m, dd);
  }

  /** The three parts of a concatenation at their positions; digits throughout when each part is digits. */
  lemma ThreeParts(a: string, b: string, c: string)
    ensures var p := a + b + c;
      && p[..|a|] == a && p[|a|..|a| + |b|] == b && p[|a| + |b|..] == c
      && (AllDigits(a) && AllDigits(b) && AllDigits(c) ==> AllDigits(p))
  {
  }

  const DefaultSuffix: string := "01"

  const BarcodePrefix: string := "NQDCXC"

  /** The batch number: the date part followed by the operator's suffix. */
  function BatchId(d: CalendarDate, suffix: string): string
  {
    BatchDatePart(d) + suffix
  }

  /** The barcode payload: the fixed prefix, then the batch number. */
  function BarcodeValue(d: CalendarDate, suffix: string): (b: string)
    ensures StartsWith(b, BarcodePrefix) && b[|BarcodePrefix|..] == BatchId(d, suffix)
    ensures b[|b| - |suffix|..] == suffix
  {
    BarcodePrefix + BatchId(d, suffix)
  }

  /** With the default suffix and a four-digit year the payload is 16 characters, 14 of them digits. */
  lemma DefaultBarcodeLength(d: CalendarDate)
    requires ValidDate(d) && 1000 <= d.year <= 9999
    ensures |BarcodeValue(d, DefaultSuffix)| == 16
    ensures AllDigits(BarcodeValue(d, DefaultSuffix)[6..])
  {
    BatchDatePartLayout(d);
    PrefixedDigits(BatchDatePart(d), DefaultSuffix);
  }

  /** The prefix followed by eight digits and two more: 16 characters, digits after the prefix. */
  lemma PrefixedDigits(p: string, s: string)
    requires |p| == 8 && AllDigits(p) && s == DefaultSuffix
    ensures |BarcodePrefix + (p + s)| == 16 && AllDigits((BarcodePrefix + (p + s))[6..])
  {
    assert (BarcodePrefix + (p + s))[6..] == p + s;
  }

  /** The grade line: a name that already says "规格" is kept, any other gets the unit "根/斤". */
  function SpecString(name: string): (r: string)
    ensures r == name <==> Contains(name, "规格")
    ensures !Contains(name, "规格") ==> r == name + "根/斤"
  {
    if Contains(name, "规格") then name else name + "根/斤"
  }

  /** The quantity line. */
  function QuantityString(data: LabelData): (r: string)
    ensures data.isBoxMode ==> StartsWith(r, Text(data.gramWeight) + "克/盒")
    ensures data.isBoxMode ==> (r == Text(data.gramWeight) + "克/盒" <==> data.totalBottles == 1)
  {
    if data.isBoxMode then
      if data.totalBottles == 1 then Text(data.gramWeight) + "克/盒"
      else Text(data.gramWeight) + "克/盒  共 " + IntText(data.totalBottles) + "盒"
    else IntText(data.rootsPerBottle) + "根/瓶  x " + IntText(data.totalBottles) + "瓶"
  }

  /** In box mode the quantity line determines both the weight and the box count. */
  lemma BoxQuantityInjective(a: LabelData, b: LabelData)
    requires a.isBoxMode && b.isBoxMode
    requires QuantityString(a) == QuantityString(b)
    ensures a.totalBottles == b.totalBottles && Value(a.gramWeight) == Value(b.gramWeight)
  {
    var wa, wb := Text(a.gramWeight), Text(b.gramWeight);
    var ca, cb := IntText(a.totalBottles), IntText(b.totalBottles);
    var ra := if a.totalBottles == 1 then "/盒" else "/盒  共 " + ca + "盒";
    var rb := if b.totalBottles == 1 then "/盒" else "/盒  共 " + cb + "盒";
    BoxLine(wa, ca);
    BoxLine(wb, cb);
    NotInNumeral(wa, '克');
    NotInNumeral(wb, '克');
    SplitAtMarker(wa, ra, wb, rb, '克');
    TextInjective(a.gramWeight, b.gramWeight);
    if a.totalBottles != 1 && b.totalBottles != 1 {
      assert ca + ['盒'] == ra[6..] && cb + ['盒'] == rb[6..];
      var none: string := [];
      assert ca + ['盒'] + none == cb + ['盒'] + none;
      NumeralThenMarker(a.totalBottles, b.totalBottles, '盒', none, none);
    } else if a.totalBottles != b.totalBottles {
      assert false;
    }
  }

  /** The box-mode quantity line split at "克", with the count after a fixed six-character run. */
  lemma BoxLine(w: string, c: string)
    ensures w + "克/盒" == w + ['克'] + "/盒"
    ensures w + "克/盒  共 " + c + "盒" == w + ['克'] + ("/盒  共 " + c + "盒")
    ensures ("/盒  共 " + c + "盒")[6..] == c + ['盒'] && |"/盒  共 " + c + "盒"| > 2
  {
    assert "克/盒" == ['克'] + "/盒";
    assert "克/盒  共 " == ['克'] + "/盒  共 ";
  }

  /** In bottle mode the quantity line determines both roots per bottle and the bottle count. */
  lemma BottleQuantityInjective(a: LabelData, b: LabelData)
    requires !a.isBoxMode && !b.isBoxMode
    requires QuantityString(a) == QuantityString(b)
    ensures a.rootsPerBottle == b.rootsPerBottle && a.totalBottles == b.totalBottles
  {
    var ta, tb := IntText(a.totalBottles), IntText(b.totalBottles);
    var ra, rb := "/瓶  x " + ta + "瓶", "/瓶  x " + tb + "瓶";
    BottleLine(IntText(a.rootsPerBottle), ta);
    BottleLine(IntText(b.rootsPerBottle), tb);
    NumeralThenMarker(a.rootsPerBottle, b.rootsPerBottle, '根', ra, rb);
    var none: string := [];
    assert ta + ['瓶'] + none == tb + ['瓶'] + none;
    NumeralThenMarker(a.totalBottles, b.totalBottles, '瓶', none, none);
  }

  /** The bottle-mode quantity line split at its two markers. */
  lemma BottleLine(x: string, t: string)
    ensures x + "根/瓶  x " + t + "瓶" == x + ['根'] + ("/瓶  x " + t + "瓶")
    ensures ("/瓶  x " + t + "瓶")[6..] == t + ['瓶']
  {
    assert "根/瓶  x " == ['根'] + "/瓶  x ";
  }
}
