/**
 * The catalog: product specifications (size grades with their unit
 * prices), one bottle rule per specification, the packaging-colour tiers,
 * and the default catalog the application starts with.
 */
module Catalog {
  import opened Wrappers
  import opened Num

  /** One size grade: `rootsPerJin` roots per jin, a roots-per-gram range and four unit prices. */
  datatype ProductSpec = ProductSpec(
    id: string,
    name: string,
    rootsPerJin: int,
    rootsPerGramMin: Decimal,
    rootsPerGramMax: Decimal,
    nagquPrice: Decimal,
    channelPrice: Decimal,
    minSalesPrice: Decimal,
    retailPrice: Decimal)

  /** Bottle capacities and the box-size options offered for one grade. */
  datatype BottleRule = BottleRule(
    specId: string,
    smallBottleCount: int,
    mediumBottleCount: int,
    smallBottlesSmallBox: seq<int>,
    smallBottlesLargeBox: seq<int>,
    mediumBottlesPerBox: seq<int>)

  datatype AppData = AppData(specs: seq<ProductSpec>, bottleRules: seq<BottleRule>)

  /** The three packaging colours recommended by grade. */
  datatype Tier = Gold | Green | Red

  /** The display name stored on a line item as `packagingColor`. */
  function TierName(t: Tier): string
  {
    match t
    case Gold => "帝王金"
    case Green => "松石绿"
    case Red => "朱砂红"
  }

  lemma TierNamesDistinct(a: Tier, b: Tier)
    ensures TierName(a) == TierName(b) <==> a == b
  {
  }

  /** Position of the first specification with the given id, or |specs| when there is none. */
  function SpecIndex(specs: seq<ProductSpec>, id: string): (k: nat)
    ensures k <= |specs|
    ensures k < |specs| ==> specs[k].id == id
    ensures forall j :: 0 <= j < k ==> specs[j].id != id
  {
    if |specs| == 0 then 0
    else if specs[0].id == id then 0
    else 1 + SpecIndex(specs[1..], id)
  }

  /** `specs.find(s => s.id === id)`. */
  function FindSpec(specs: seq<ProductSpec>, id: string): (r: Option<ProductSpec>)
    ensures r.None? <==> forall j :: 0 <= j < |specs| ==> specs[j].id != id
    ensures r.Some? ==> r.value == specs[SpecIndex(specs, id)] && r.value.id == id
  {
    var k := SpecIndex(specs, id);
    if k < |specs| then Some(specs[k]) else None
  }

  /** Position of the first rule for the given specification id, or |rules| when there is none. */
  function RuleIndex(rules: seq<BottleRule>, id: string): (k: nat)
    ensures k <= |rules|
    ensures k < |rules| ==> rules[k].specId == id
    ensures forall j :: 0 <= j < k ==> rules[j].specId != id
  {
    if |rules| == 0 then 0
    else if rules[0].specId == id then 0
    else 1 + RuleIndex(rules[1..], id)
  }

  /** `bottleRules.find(r => r.specId === id)`. */
  function FindRule(rules: seq<BottleRule>, id: string): (r: Option<BottleRule>)
    ensures r.None? <==> forall j :: 0 <= j < |rules| ==> rules[j].specId != id
    ensures r.Some? ==> r.value == rules[RuleIndex(rules, id)] && r.value.specId == id
  {
    var k := RuleIndex(rules, id);
    if k < |rules| then Some(rules[k]) else None
  }

  predicate StrictlyIncreasing(s: seq<int>)
  {
    forall i, j :: 0 <= i < j < |s| ==> s[i] < s[j]
  }

  /** The box-size options of a rule: non-empty and listed smallest first. */
  predicate GoodOptions(s: seq<int>)
  {
    |s| > 0 && StrictlyIncreasing(s)
  }

  /**
   * What the default catalog satisfies and the calculator relies on:
   * distinct ids, one rule per specification in the same order, ordered
   * roots-per-gram ranges and prices, usable box-size options.
   */
  predicate WellFormed(data: AppData)
  {
    && DistinctIds(data.specs)
    && |data.bottleRules| == |data.specs|
    && (forall i :: 0 <= i < |data.specs| ==> data.bottleRules[i].specId == data.specs[i].id)
    && (forall i :: 0 <= i < |data.specs| ==> SpecOk(data.specs[i]))
    && (forall i :: 0 <= i < |data.bottleRules| ==> RuleOk(data.bottleRules[i]))
  }

  predicate DistinctIds(specs: seq<ProductSpec>)
  {
    forall i, j :: 0 <= i < j < |specs| ==> specs[i].id != specs[j].id
  }

  /** Ordered roots-per-gram range and prices. */
  predicate SpecOk(s: ProductSpec)
  {
    && Value(s.rootsPerGramMin) <= Value(s.rootsPerGramMax)
    && Value(s.nagquPrice) <= Value(s.channelPrice) <= Value(s.retailPrice)
  }

  predicate RuleOk(r: BottleRule)
  {
    && r.smallBottleCount >= 1 && r.mediumBottleCount >= 1
    && GoodOptions(r.smallBottlesSmallBox)
    && GoodOptions(r.smallBottlesLargeBox)
    && GoodOptions(r.mediumBottlesPerBox)
  }

  /** In a well-formed catalog every specification finds its own rule, the one at its index. */
  lemma RuleOfSpec(data: AppData, i: nat)
    requires WellFormed(data) && i < |data.specs|
    ensures FindSpec(data.specs, data.specs[i].id) == Some(data.specs[i])
    ensures FindRule(data.bottleRules, data.specs[i].id) == Some(data.bottleRules[i])
  {
    var id := data.specs[i].id;
    var k := SpecIndex(data.specs, id);
    if k < i {
      assert false;
    }
    var r := RuleIndex(data.bottleRules, id);
    if r < i {
      assert false;
    }
  }

  function D(m: int, e: nat): Decimal { Decimal(m, e) }

  /** The specifications the application starts with. */
  const DefaultSpecs: seq<ProductSpec> :=
    [ ProductSpec("900", "900", 900, D(18, 1), D(18, 1), D(174, 0), D(247, 0), D(304, 0), D(380, 0)),
      ProductSpec("1000", "1000", 1000, D(20, 1), D(20, 1), D(137, 0), D(195, 0), D(240, 0), D(300, 0)),
      ProductSpec("1200", "1200", 1200, D(24, 1), D(24, 1), D(102, 0), D(146, 0), D(180, 0), D(225, 0)),
      ProductSpec("1400", "1400", 1400, D(28, 1), D(28, 1), D(77, 0), D(108, 0), D(132, 0), D(165, 0)),
      ProductSpec("1500", "1500", 1500, D(30, 1), D(30, 1), D(62, 0), D(91, 0), D(112, 0), D(140, 0)),
      ProductSpec("1600-1800", "1600-1800", 1700, D(32, 1), D(36, 1), D(47, 0), D(65, 0), D(80, 0), D(100, 0)),
      ProductSpec("2000-2200", "2000-2200", 2100, D(40, 1), D(44, 1), D(41, 0), D(52, 0), D(64, 0), D(80, 0)),
      ProductSpec("2200-2500", "2200-2500", 2350, D(44, 1), D(50, 1), D(32, 0), D(455, 1), D(56, 0), D(70, 0)),
      ProductSpec("2500-3000", "2500-3000", 2750, D(50, 1), D(60, 1), D(26, 0), D(39, 0), D(48, 0), D(60, 0)) ]

  /** The bottle rules the application starts with, one per default specification. */
  const DefaultRules: seq<BottleRule> :=
    [ BottleRule("900", 5, 12, [2, 3, 4], [8, 10], [2, 3, 4, 5]),
      BottleRule("1000", 5, 12, [2, 3, 4], [8, 10], [2, 3, 4, 5]),
      BottleRule("1200", 5, 15, [2, 3, 4], [8, 10], [2, 3, 4, 5]),
      BottleRule("1400", 5, 15, [2, 3, 4], [8, 10], [2, 3, 4, 5]),
      BottleRule("1500", 5, 15, [2, 3, 4], [8, 10], [2, 3, 4, 5]),
      BottleRule("1600-1800", 6, 15, [2, 3, 4], [8, 10], [2, 3, 4, 5]),
      BottleRule("2000-2200", 8, 20, [2, 3, 4], [8, 10], [2, 3, 4, 5]),
      BottleRule("2200-2500", 8, 20, [2, 3, 4], [8, 10], [2, 3, 4, 5]),
      BottleRule("2500-3000", 8, 20, [2, 3, 4], [8, 10], [2, 3, 4, 5]) ]

  /** The catalog the application starts with. */
  const DefaultData: AppData := AppData(DefaultSpecs, DefaultRules)

  lemma DefaultIdsDistinct()
    ensures DistinctIds(DefaultSpecs)
  {
  }

  lemma DefaultRulesAligned()
    ensures |DefaultRules| == |DefaultSpecs|
    ensures forall i :: 0 <= i < |DefaultSpecs| ==> DefaultRules[i].specId == DefaultSpecs[i].id
  {
  }

  lemma DefaultSpecsOk()
    ensures forall i :: 0 <= i < |DefaultSpecs| ==> SpecOk(DefaultSpecs[i])
  {
  }

  lemma DefaultRulesOk()
    ensures forall i :: 0 <= i < |DefaultRules| ==> RuleOk(DefaultRules[i])
  {
  }

  /** The default catalog is well formed. */
  lemma DefaultDataWellFormed()
    ensures WellFormed(DefaultData)
  {
    DefaultIdsDistinct();
    DefaultRulesAligned();
    DefaultSpecsOk();
    DefaultRulesOk();
  }
}
