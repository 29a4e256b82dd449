/**
 * The settings screen: copy-on-write edits of one numeric field of one
 * specification or bottle rule, and the low-margin warning shown beside
 * a specification's minimum sales price.
 */
module Settings {
  import opened Num
  import opened Catalog

  /** The editable numeric fields of a specification. */
  datatype SpecField = RootsPerGramMin | RootsPerGramMax | NagquPrice | ChannelPrice | MinSalesPrice | RetailPrice

  /** The editable fields of a bottle rule. */
  datatype RuleField = SmallBottleCount | MediumBottleCount

  function SpecFieldOf(s: ProductSpec, f: SpecField): Decimal
  {
    match f
    case RootsPerGramMin => s.rootsPerGramMin
    case RootsPerGramMax => s.rootsPerGramMax
    case NagquPrice => s.nagquPrice
    case ChannelPrice => s.channelPrice
    case MinSalesPrice => s.minSalesPrice
    case RetailPrice => s.retailPrice
  }

  /** `{ ...spec, [field]: value }`: only the named field takes the new value. */
  function WithSpecField(s: ProductSpec, f: SpecField, v: Decimal): (r: ProductSpec)
    ensures SpecFieldOf(r, f) == v
    ensures forall g :: g != f ==> SpecFieldOf(r, g) == SpecFieldOf(s, g)
    ensures r.id == s.id && r.name == s.name && r.rootsPerJin == s.rootsPerJin
  {
    match f
    case RootsPerGramMin => s.(rootsPerGramMin := v)
    case RootsPerGramMax => s.(rootsPerGramMax := v)
    case NagquPrice => s.(nagquPrice := v)
    case ChannelPrice => s.(channelPrice := v)
    case MinSalesPrice => s.(minSalesPrice := v)
    case RetailPrice => s.(retailPrice := v)
  }

  function RuleFieldOf(r: BottleRule, f: RuleField): int
  {
    match f
    case SmallBottleCount => r.smallBottleCount
    case MediumBottleCount => r.mediumBottleCount
  }

  /** `{ ...rule, [field]: value }`: only the named count takes the new value. */
  function WithRuleField(r: BottleRule, f: RuleField, v: int): (q: BottleRule)
    ensures RuleFieldOf(q, f) == v
    ensures forall g :: g != f ==> RuleFieldOf(q, g) == RuleFieldOf(r, g)
    ensures q.specId == r.specId && q.smallBottlesSmallBox == r.smallBottlesSmallBox
    ensures q.smallBottlesLargeBox == r.smallBottlesLargeBox && q.mediumBottlesPerBox == r.mediumBottlesPerBox
  {
    match f
    case SmallBottleCount => r.(smallBottleCount := v)
    case MediumBottleCount => r.(mediumBottleCount := v)
  }

  /**
   * An edit of row i of the pricing table: entry i gets the new field
   * value, every other specification and all bottle rules stay as they were.
   */
  function UpdateSpec(data: AppData, i: nat, f: SpecField, v: Decimal): (r: AppData)
    requires i < |data.specs|
    ensures |r.specs| == |data.specs| && r.bottleRules == data.bottleRules
    ensures forall j :: 0 <= j < |data.specs| && j != i ==> r.specs[j] == data.specs[j]
    ensures SpecFieldOf(r.specs[i], f) == v
    ensures forall g :: g != f ==> SpecFieldOf(r.specs[i], g) == SpecFieldOf(data.specs[i], g)
    ensures r.specs[i].id == data.specs[i].id && r.specs[i].name == data.specs[i].name
    ensures r.specs[i].rootsPerJin == data.specs[i].rootsPerJin
  {
    data.(specs := data.specs[i := WithSpecField(data.specs[i], f, v)])
  }

  /** An edit of row i of the bottle table, leaving the specifications untouched. */
  function UpdateRule(data: AppData, i: nat, f: RuleField, v: int): (r: AppData)
    requires i < |data.bottleRules|
    ensures |r.bottleRules| == |data.bottleRules| && r.specs == data.specs
    ensures forall j :: 0 <= j < |data.bottleRules| && j != i ==> r.bottleRules[j] == data.bottleRules[j]
    ensures RuleFieldOf(r.bottleRules[i], f) == v
    ensures forall g :: g != f ==> RuleFieldOf(r.bottleRules[i], g) == RuleFieldOf(data.bottleRules[i], g)
    ensures var a, b := r.bottleRules[i], data.bottleRules[i];
      && a.specId == b.specId && a.smallBottlesSmallBox == b.smallBottlesSmallBox
      && a.smallBottlesLargeBox == b.smallBottlesLargeBox && a.mediumBottlesPerBox == b.mediumBottlesPerBox
  {
    data.(bottleRules := data.bottleRules[i := WithRuleField(data.bottleRules[i], f, v)])
  }

  /** Typing the old value back undoes a specification edit. */
  lemma UpdateSpecUndo(data: AppData, i: nat, f: SpecField, v: Decimal)
    requires i < |data.specs|
    ensures UpdateSpec(UpdateSpec(data, i, f, v), i, f, SpecFieldOf(data.specs[i], f)) == data
  {
    var s := data.specs[i];
    var back := UpdateSpec(UpdateSpec(data, i, f, v), i, f, SpecFieldOf(s, f));
    assert back.specs[i] == s by {
      var t := back.specs[i];
      assert forall g :: SpecFieldOf(t, g) == SpecFieldOf(s, g);
      assert SpecFieldOf(t, RootsPerGramMin) == SpecFieldOf(s, RootsPerGramMin);
      assert SpecFieldOf(t, RootsPerGramMax) == SpecFieldOf(s, RootsPerGramMax);
      assert SpecFieldOf(t, NagquPrice) == SpecFieldOf(s, NagquPrice);
      assert SpecFieldOf(t, ChannelPrice) == SpecFieldOf(s, ChannelPrice);
      assert SpecFieldOf(t, MinSalesPrice) == SpecFieldOf(s, MinSalesPrice);
      assert SpecFieldOf(t, RetailPrice) == SpecFieldOf(s, RetailPrice);
    }
    assert back.specs == data.specs;
  }

  /** Typing the old value back undoes a bottle-rule edit. */
  lemma UpdateRuleUndo(data: AppData, i: nat, f: RuleField, v: int)
    requires i < |data.bottleRules|
    ensures UpdateRule(UpdateRule(data, i, f, v), i, f, RuleFieldOf(data.bottleRules[i], f)) == data
  {
    var r := data.bottleRules[i];
    var back := UpdateRule(UpdateRule(data, i, f, v), i, f, RuleFieldOf(r, f));
    assert back.bottleRules[i] == r by {
      var t := back.bottleRules[i];
      assert RuleFieldOf(t, SmallBottleCount) == RuleFieldOf(r, SmallBottleCount);
      assert RuleFieldOf(t, MediumBottleCount) == RuleFieldOf(r, MediumBottleCount);
    }
    assert back.bottleRules == data.bottleRules;
  }

  /**
   * The settings screen does not check edits, but an edit that leaves the
   * edited specification ordered keeps the catalog well formed: ids and
   * the specification-to-rule pairing are untouched.
   */
  lemma UpdateSpecKeepsWellFormed(data: AppData, i: nat, f: SpecField, v: Decimal)
    requires WellFormed(data) && i < |data.specs|
    requires SpecOk(WithSpecField(data.specs[i], f, v))
    ensures WellFormed(UpdateSpec(data, i, f, v))
  {
    var r := UpdateSpec(data, i, f, v);
    assert forall j :: 0 <= j < |r.specs| ==> r.specs[j].id == data.specs[j].id;
  }

  /** A bottle-capacity edit to a positive count keeps the catalog well formed. */
  lemma UpdateRuleKeepsWellFormed(data: AppData, i: nat, f: RuleField, v: int)
    requires WellFormed(data) && i < |data.bottleRules| && v >= 1
    ensures WellFormed(UpdateRule(data, i, f, v))
  {
    var r := UpdateRule(data, i, f, v);
    assert RuleOk(r.bottleRules[i]) by {
      var b := data.bottleRules[i];
      assert RuleOk(b);
      assert RuleFieldOf(b, SmallBottleCount) >= 1 && RuleFieldOf(b, MediumBottleCount) >= 1;
    }
  }

  /** The warning shown when the minimum sales price is below 80% of the retail price. */
  predicate LowMargin(s: ProductSpec)
  {
    Value(s.minSalesPrice) < Value(s.retailPrice) * 0.8
  }

  /** Every default grade's minimum sales price is exactly 80% of its retail price: no warning. */
  lemma DefaultHasNoLowMargin()
    ensures forall i :: 0 <= i < |DefaultSpecs| ==> !LowMargin(DefaultSpecs[i])
    ensures forall i :: 0 <= i < |DefaultSpecs| ==> Value(DefaultSpecs[i].minSalesPrice) == Value(DefaultSpecs[i].retailPrice) * 0.8
  {
  }

  /** Lowering the minimum price of a default grade by any amount raises the warning. */
  lemma DefaultMarginIsTight(i: nat, v: Decimal)
    requires i < |DefaultSpecs| && Value(v) < Value(DefaultSpecs[i].minSalesPrice)
    ensures LowMargin(UpdateSpec(DefaultData, i, MinSalesPrice, v).specs[i])
  {
    DefaultHasNoLowMargin();
  }
}
