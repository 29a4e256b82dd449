/**
 * The pricing engine: what the calculator derives from the selected grade,
 * its bottle rule and the selection, in bottle mode (bottles times roots
 * per bottle) and in round-box mode (weight times average roots per gram);
 * the description and e-commerce texts; the line item added to the queue;
 * and the label data the calculator prints from.
 */
module Pricing {
  import opened Wrappers
  import opened Strings
  import opened Num
  import opened Catalog
  import opened Selection
  import opened Records
  import opened Labels

  /** The roots-per-gram text: one number when the range is a single value, else "min-max". */
  function RootsPerGramText(spec: ProductSpec): string
  {
    if Value(spec.rootsPerGramMin) == Value(spec.rootsPerGramMax) then Text(spec.rootsPerGramMin)
    else Text(spec.rootsPerGramMin) + "-" + Text(spec.rootsPerGramMax)
  }

  /** For a non-negative range the text shows a dash exactly when the range has two ends. */
  lemma RootsPerGramTextDash(spec: ProductSpec)
    requires Value(spec.rootsPerGramMin) >= 0.0 && Value(spec.rootsPerGramMax) >= 0.0
    ensures '-' in RootsPerGramText(spec) <==> Value(spec.rootsPerGramMin) != Value(spec.rootsPerGramMax)
    ensures Value(spec.rootsPerGramMin) == Value(spec.rootsPerGramMax) ==> RootsPerGramText(spec) == Text(spec.rootsPerGramMax)
  {
    var t := Text(spec.rootsPerGramMin);
    if Value(spec.rootsPerGramMin) == Value(spec.rootsPerGramMax) {
      assert forall i :: 0 <= i < |t| ==> t[i] != '-';
      TextCanonical(spec.rootsPerGramMin, spec.rootsPerGramMax);
    } else {
      assert RootsPerGramText(spec)[|t|] == '-';
    }
  }

  /** The text never contains a character other than digits, points and dashes. */
  lemma RootsPerGramTextNumeral(spec: ProductSpec)
    ensures Numeral(RootsPerGramText(spec))
  {
  }

  lemma Halve(m: int, e: nat)
    ensures (m * 5) as real / Pow10Nat(e + 1) as real == (m as real / Pow10Nat(e) as real) / 2.0
  {
    var p := Pow10Nat(e) as real;
    assert Pow10Nat(e + 1) as real == 10.0 * p;
    MulAsReal(m, 5);
  }

  /** The average roots per gram, the midpoint of the range. */
  function Avg(spec: ProductSpec): (r: Decimal)
    ensures Value(r) == (Value(spec.rootsPerGramMin) + Value(spec.rootsPerGramMax)) / 2.0
  {
    var s := Plus(spec.rootsPerGramMin, spec.rootsPerGramMax);
    Halve(s.m, s.e);
    Decimal(s.m * 5, s.e + 1)
  }

  /** The recommended packaging colour by roots per jin. */
  function TierOf(rootsPerJin: int): (t: Tier)
    ensures t == Gold <==> rootsPerJin <= 1500
    ensures t == Green <==> 1500 < rootsPerJin <= 2200
    ensures t == Red <==> 2200 < rootsPerJin
  {
    if rootsPerJin <= 1500 then Gold else if rootsPerJin <= 2200 then Green else Red
  }

  /** The default grades 900 to 1500 are gold, 1600-1800 and 2000-2200 green, the two finest red. */
  lemma DefaultTiers()
    ensures forall i :: 0 <= i < 5 ==> TierOf(DefaultSpecs[i].rootsPerJin) == Gold
    ensures TierOf(DefaultSpecs[5].rootsPerJin) == Green && TierOf(DefaultSpecs[6].rootsPerJin) == Green
    ensures TierOf(DefaultSpecs[7].rootsPerJin) == Red && TierOf(DefaultSpecs[8].rootsPerJin) == Red
  {
  }

  /** Roots per bottle: 1 in a single small bottle, else the rule's small- or medium-bottle count. */
  function RootsPerBottle(rule: BottleRule, c: Container): int
  {
    if c == SmallSingle then 1
    else if c == SmallMulti then rule.smallBottleCount
    else rule.mediumBottleCount
  }

  function TypeName(c: Container): string
  {
    match c
    case SmallSingle => "单根小瓶"
    case SmallMulti => "多根小瓶"
    case Medium => "中瓶"
    case Round => ""
  }

  /** The packaging as the description names it. */
  function PackagingDesc(p: Packaging): string
  {
    match p
    case Bulk => "散装/简易包装"
    case Exquisite => "精致礼盒"
    case Business => "商务礼盒"
    case Luxury => "豪华礼盒"
  }

  /** The packaging as the line item's box type names it. */
  function BoxTypeName(p: Packaging): string
  {
    match p
    case Bulk => "散装"
    case Exquisite => "精致礼盒"
    case Business => "商务礼盒"
    case Luxury => "豪华礼盒"
  }

  /**
   * Roots in one round box: the weight times the average roots per gram,
   * rounded half up, so the nearest whole number with halves rounded up.
   */
  function RootsPerBox(spec: ProductSpec, sel: Selection): (n: int)
    ensures var x := Value(CurrentWeight(sel)) * Value(Avg(spec)); n as real - 0.5 <= x < n as real + 0.5
  {
    RoundHalfUp(Value(CurrentWeight(sel)) * Value(Avg(spec)))
  }

  /** The quantity detail at the end of a bottle description. */
  function DetailText(sel: Selection): string
  {
    if sel.packaging == Bulk then "(" + IntText(sel.quantity) + "瓶散装)"
    else "(共" + IntText(sel.quantity) + "盒, 每盒" + IntText(sel.boxConfig) + "瓶)"
  }

  /** The part of a bottle description before its quantity detail. */
  function BottleHead(spec: ProductSpec, rule: BottleRule, sel: Selection): string
  {
    "规格:" + spec.name + "(" + RootsPerGramText(spec) + "根/克) - " + TypeName(sel.container)
      + " (" + IntText(RootsPerBottle(rule, sel.container)) + "根/瓶) x "
      + IntText(sel.quantity * sel.boxConfig) + "瓶 - " + PackagingDesc(sel.packaging) + " "
  }

  function BottleDescription(spec: ProductSpec, rule: BottleRule, sel: Selection): string
  {
    BottleHead(spec, rule, sel) + DetailText(sel)
  }

  /** The part of a round-box description before the weight. */
  function RoundHead(spec: ProductSpec): string
  {
    "规格:" + spec.name + "(" + RootsPerGramText(spec) + "根/克) - 豪华圆盒/礼盒装 ("
  }

  function RoundDescription(spec: ProductSpec, sel: Selection): string
  {
    RoundHead(spec) + Text(CurrentWeight(sel)) + "克/盒) (约" + IntText(RootsPerBox(spec, sel)) + "根) x "
      + IntText(sel.quantity) + "盒"
  }

  /** The calculator's result: total roots, the three price totals and the description. */
  datatype Calc = Calc(totalRoots: int, nagqu: Decimal, channel: Decimal, retail: Decimal, description: string)

  /**
   * The calculation. Bottle mode: quantity times bottles per box times
   * roots per bottle. Round mode: roots per box times quantity. Each price
   * total is the total roots times that unit price.
   */
  function Calculate(spec: ProductSpec, rule: BottleRule, sel: Selection): (r: Calc)
    ensures sel.container != Round ==>
      r.totalRoots == sel.quantity * sel.boxConfig * RootsPerBottle(rule, sel.container)
    ensures sel.container == Round ==> r.totalRoots == RootsPerBox(spec, sel) * sel.quantity
    ensures PricedAt(spec, r)
  {
    if sel.container != Round then
      var totalBottles := sel.quantity * sel.boxConfig;
      Priced(spec, totalBottles * RootsPerBottle(rule, sel.container), BottleDescription(spec, rule, sel))
    else
      Priced(spec, RootsPerBox(spec, sel) * sel.quantity, RoundDescription(spec, sel))
  }

  /** Each price total is the total roots times that unit price. */
  predicate PricedAt(spec: ProductSpec, r: Calc)
  {
    && Value(r.nagqu) == r.totalRoots as real * Value(spec.nagquPrice)
    && Value(r.channel) == r.totalRoots as real * Value(spec.channelPrice)
    && Value(r.retail) == r.totalRoots as real * Value(spec.retailPrice)
  }

  function Priced(spec: ProductSpec, roots: int, description: string): (r: Calc)
    ensures r.totalRoots == roots && r.description == description
    ensures PricedAt(spec, r)
  {
    Calc(roots, Times(roots, spec.nagquPrice), Times(roots, spec.channelPrice), Times(roots, spec.retailPrice),
      description)
  }

  lemma QuantityDoublesRoots(spec: ProductSpec, rule: BottleRule, sel: Selection)
    ensures Calculate(spec, rule, sel.(quantity := 2 * sel.quantity)).totalRoots
         == 2 * Calculate(spec, rule, sel).totalRoots
  {
    var sel2 := sel.(quantity := 2 * sel.quantity);
    var q := sel.quantity;
    if sel.container != Round {
      var k := RootsPerBottle(rule, sel.container);
      TwiceLeft(q, sel.boxConfig, k);
    } else {
      assert CurrentWeight(sel2) == CurrentWeight(sel);
      var n := RootsPerBox(spec, sel);
      assert RootsPerBox(spec, sel2) == n;
      TwiceRight(n, q);
    }
  }

  lemma TwiceLeft(q: int, b: int, k: int)
    ensures (2 * q) * b * k == 2 * (q * b * k)
  {
  }

  lemma TwiceRight(n: int, q: int)
    ensures n * (2 * q) == 2 * (n * q)
  {
  }

  lemma ScaleByTwo(t: real, v: real)
    ensures (2.0 * t) * v == 2.0 * (t * v)
  {
  }

  lemma MulMono(t: real, x: real, y: real)
    requires t >= 0.0 && x <= y
    ensures t * x <= t * y
  {
  }

  /** Doubling the quantity doubles the total roots and all three price totals, in both modes. */
  lemma DoubleQuantity(spec: ProductSpec, rule: BottleRule, sel: Selection)
    ensures var a, b := Calculate(spec, rule, sel), Calculate(spec, rule, sel.(quantity := 2 * sel.quantity));
      && b.totalRoots == 2 * a.totalRoots
      && Value(b.nagqu) == 2.0 * Value(a.nagqu)
      && Value(b.channel) == 2.0 * Value(a.channel)
      && Value(b.retail) == 2.0 * Value(a.retail)
  {
    QuantityDoublesRoots(spec, rule, sel);
    PricedDouble(spec, Calculate(spec, rule, sel), Calculate(spec, rule, sel.(quantity := 2 * sel.quantity)));
  }

  lemma PricedDouble(spec: ProductSpec, a: Calc, b: Calc)
    requires PricedAt(spec, a) && PricedAt(spec, b) && b.totalRoots == 2 * a.totalRoots
    ensures Value(b.nagqu) == 2.0 * Value(a.nagqu)
    ensures Value(b.channel) == 2.0 * Value(a.channel)
    ensures Value(b.retail) == 2.0 * Value(a.retail)
  {
    var t := a.totalRoots as real;
    assert b.totalRoots as real == 2.0 * t;
    ScaleByTwo(t, Value(spec.nagquPrice));
    ScaleByTwo(t, Value(spec.channelPrice));
    ScaleByTwo(t, Value(spec.retailPrice));
  }

  /** With ordered unit prices and a non-negative total, the price totals keep the same order. */
  lemma PriceTotalsOrdered(spec: ProductSpec, r: Calc)
    requires SpecOk(spec) && PricedAt(spec, r) && r.totalRoots >= 0
    ensures Value(r.nagqu) <= Value(r.channel) <= Value(r.retail)
  {
    var t := r.totalRoots as real;
    MulMono(t, Value(spec.nagquPrice), Value(spec.channelPrice));
    MulMono(t, Value(spec.channelPrice), Value(spec.retailPrice));
  }

  /** The e-commerce specification text. */
  function EcommerceSpec(spec: ProductSpec, rule: BottleRule, sel: Selection): string
  {
    if sel.container != Round then
      spec.name + "规格(" + RootsPerGramText(spec) + "根/克) " + TypeName(sel.container) + " ("
        + IntText(RootsPerBottle(rule, sel.container)) + "根/瓶)x" + IntText(sel.quantity * sel.boxConfig) + "瓶"
    else
      spec.name + "规格(" + RootsPerGramText(spec) + "根/克) 圆盒/礼盒装 (" + Text(CurrentWeight(sel))
        + "克/盒)x" + IntText(sel.quantity) + "盒"
  }

  /**
   * What the calculator shows, or None ("loading") while the selected grade
   * or its bottle rule is missing from the catalog.
   */
  function Compute(data: AppData, sel: Selection): (r: Option<Calc>)
    ensures r.None? <==> FindSpec(data.specs, sel.specId).None? || FindRule(data.bottleRules, sel.specId).None?
    ensures r.Some? ==> r.value == Calculate(FindSpec(data.specs, sel.specId).value, FindRule(data.bottleRules, sel.specId).value, sel)
  {
    match (FindSpec(data.specs, sel.specId), FindRule(data.bottleRules, sel.specId))
    case (Some(spec), Some(rule)) => Some(Calculate(spec, rule, sel))
    case _ => None
  }

  /** The line item snapshot taken when the order is added; id and timestamp come from outside. */
  function MakeItem(spec: ProductSpec, rule: BottleRule, sel: Selection, id: string, timestamp: int): (item: LineItem)
    ensures item.kind == BoxItem <==> sel.container == Round
    ensures item.bottleCount == (if sel.container == Round then 0 else sel.quantity * sel.boxConfig)
    ensures item.rootsPerBottle == (if sel.container == Round then 0 else RootsPerBottle(rule, sel.container))
    ensures var c := Calculate(spec, rule, sel);
      && item.totalRoots == c.totalRoots && item.totalNagquPrice == c.nagqu
      && item.totalChannelPrice == c.channel && item.totalRetail == c.retail
      && item.details == c.description
    ensures item.packagingColor == TierName(TierOf(spec.rootsPerJin))
    ensures item.specName == spec.name && item.rootsPerGram == RootsPerGramText(spec)
    ensures item.ecommerceSpec == EcommerceSpec(spec, rule, sel)
  {
    var c := Calculate(spec, rule, sel);
    var round := sel.container == Round;
    LineItem(
      id, spec.name, RootsPerGramText(spec),
      if round then 0 else RootsPerBottle(rule, sel.container),
      if round then 0 else sel.quantity * sel.boxConfig,
      if round then "无(圆盒)" else TypeName(sel.container),
      if round then "豪华圆盒" else BoxTypeName(sel.packaging),
      TierName(TierOf(spec.rootsPerJin)),
      EcommerceSpec(spec, rule, sel),
      if round then BoxItem else BottleItem,
      c.description, c.totalRoots, c.nagqu, c.channel, c.retail, timestamp)
  }

  /** The label the calculator prints: the whole order's bottle count, and the current weight. */
  function CalculatorLabel(spec: ProductSpec, rule: BottleRule, sel: Selection): (l: LabelData)
    ensures l.isBoxMode <==> sel.container == Round
    ensures l.totalBottles == if sel.container == Round then sel.quantity else sel.quantity * sel.boxConfig
    ensures l.gramWeight == CurrentWeight(sel)
  {
    LabelData(spec.name, RootsPerBottle(rule, sel.container),
      if sel.container == Round then sel.quantity else sel.quantity * sel.boxConfig,
      CurrentWeight(sel), sel.container == Round)
  }
}
