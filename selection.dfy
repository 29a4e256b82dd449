/**
 * The calculator's selection state (grade, container, packaging,
 * bottles per box, quantity, box weight) and the correction effect that
 * keeps packaging and bottles-per-box consistent with the container.
 *
 * The effect is one pass of `Correct`; React runs it again whenever the
 * grade, container, packaging or bottle rule changed, so `Settle` is the
 * effect run to quiescence.
 */
module Selection {
  import opened Wrappers
  import opened Num
  import opened Catalog

  datatype Container = SmallSingle | SmallMulti | Medium | Round
  datatype Packaging = Exquisite | Business | Luxury | Bulk

  /** Which packaging each container may be sold in. */
  predicate Allowed(c: Container, p: Packaging)
  {
    match c
    case Round => p == Luxury
    case Medium => p == Luxury || p == Bulk
    case SmallSingle => p == Exquisite || p == Bulk
    case SmallMulti => p == Exquisite || p == Business || p == Bulk
  }

  /** The packaging a correction pass falls back to when the current one is not allowed. */
  function Fallback(c: Container): Packaging
  {
    if c == SmallSingle || c == SmallMulti then Exquisite else Luxury
  }

  /** Step 1 of the effect: force the packaging into the set the container allows. */
  function ValidPackaging(c: Container, p: Packaging): (q: Packaging)
    ensures Allowed(c, q)
    ensures Allowed(c, p) ==> q == p
    ensures !Allowed(c, p) ==> q == Fallback(c)
  {
    if c == Round then Luxury
    else if c == Medium then (if p != Luxury && p != Bulk then Luxury else p)
    else if c == SmallSingle then (if p != Exquisite && p != Bulk then Exquisite else p)
    else (if p != Exquisite && p != Business && p != Bulk then Exquisite else p)
  }

  /** Step 2 of the effect: the default bottles-per-box for an already valid packaging. */
  function DefaultBox(rule: BottleRule, c: Container, p: Packaging): int
  {
    if p == Bulk then 1
    else if p == Exquisite then
      (if c == SmallSingle then 10
       else if |rule.smallBottlesSmallBox| > 0 then rule.smallBottlesSmallBox[0] else 1)
    else if p == Business then
      (if |rule.smallBottlesLargeBox| > 0 then rule.smallBottlesLargeBox[0] else 1)
    else
      (if c == Medium && |rule.mediumBottlesPerBox| > 0 then rule.mediumBottlesPerBox[0] else 1)
  }

  /** The bottles-per-box choices the configuration menu offers. */
  function BoxOptions(rule: BottleRule, c: Container, p: Packaging): seq<int>
  {
    match p
    case Exquisite =>
      if c == SmallSingle then [10, 11, 12]
      else if c == SmallMulti then rule.smallBottlesSmallBox
      else []
    case Business => rule.smallBottlesLargeBox
    case Luxury => rule.mediumBottlesPerBox
    case Bulk => [1]
  }

  /**
   * With a usable rule, the default bottles-per-box of every bottle
   * configuration is one of the menu's choices, and the smallest one.
   */
  lemma DefaultBoxIsSmallestOption(rule: BottleRule, c: Container, p: Packaging)
    requires RuleOk(rule) && Allowed(c, p) && c != Round
    ensures DefaultBox(rule, c, p) in BoxOptions(rule, c, p)
    ensures forall n :: n in BoxOptions(rule, c, p) ==> DefaultBox(rule, c, p) <= n
  {
    var opts := BoxOptions(rule, c, p);
    assert |opts| > 0 && DefaultBox(rule, c, p) == opts[0];
    forall n | n in opts
      ensures opts[0] <= n
    {
      var j :| 0 <= j < |opts| && opts[j] == n;
      if j > 0 {
        assert GoodOptions(opts);
      }
    }
  }

  /** The packaging and bottles-per-box after a correction pass. */
  datatype Packing = Packing(pkg: Packaging, box: int)

  /**
   * One run of the effect: nothing without a rule; otherwise either fix
   * the packaging and return early, or keep it and choose the default box.
   */
  function Correct(rule: Option<BottleRule>, c: Container, p: Packaging, box: int): (r: Packing)
    ensures rule.None? ==> r == Packing(p, box)
    ensures rule.Some? && !Allowed(c, p) ==> r == Packing(Fallback(c), box)
    ensures rule.Some? && Allowed(c, p) ==> r == Packing(p, DefaultBox(rule.value, c, p))
  {
    match rule
    case None => Packing(p, box)
    case Some(r) =>
      var valid := ValidPackaging(c, p);
      if valid != p then Packing(valid, box)
      else Packing(p, DefaultBox(r, c, p))
  }

  /** The effect re-run while it keeps changing the packaging, one of its own dependencies. */
  function Settle(rule: Option<BottleRule>, c: Container, p: Packaging, box: int): Packing
  {
    var first := Correct(rule, c, p, box);
    if first.pkg != p then Correct(rule, c, first.pkg, first.box) else first
  }

  /**
   * Correction reaches a fixed point within two passes: after `Settle` a
   * further pass changes nothing, the packaging is allowed, and the box is
   * the default for it.
   */
  lemma {:induction false} SettleIsFixedPoint(rule: BottleRule, c: Container, p: Packaging, box: int)
    ensures var s := Settle(Some(rule), c, p, box);
      && Correct(Some(rule), c, s.pkg, s.box) == s
      && s.pkg == ValidPackaging(c, p)
      && s.box == DefaultBox(rule, c, s.pkg)
  {
    var first := Correct(Some(rule), c, p, box);
    if first.pkg != p {
      assert !Allowed(c, p) && first.pkg == Fallback(c);
      assert Allowed(c, first.pkg);
    }
  }

  /** Without a bottle rule the effect never changes anything. */
  lemma SettleWithoutRule(c: Container, p: Packaging, box: int)
    ensures Settle(None, c, p, box) == Packing(p, box)
  {
  }

  /** Custom weight text: empty, or typed text with what `parseFloat` made of it (`None` for NaN). */
  datatype CustomGram = CustomGram(text: string, parsed: Option<Decimal>)

  datatype Selection = Selection(
    specId: string,
    container: Container,
    packaging: Packaging,
    boxConfig: int,
    quantity: int,
    gramWeight: int,
    customGram: CustomGram)

  /**
   * The weight per round box: the parsed custom text (0 when it does not
   * parse or parses to 0) whenever that text is non-empty, else the preset.
   */
  function CurrentWeight(sel: Selection): (w: Decimal)
    ensures sel.customGram.text == [] ==> Value(w) == sel.gramWeight as real
    ensures sel.customGram.text != [] && sel.customGram.parsed.None? ==> Value(w) == 0.0
    ensures sel.customGram.text != [] && sel.customGram.parsed.Some? ==> w == sel.customGram.parsed.value
  {
    if sel.customGram.text != [] then
      match sel.customGram.parsed
      case Some(v) => v
      case None => Zero
    else FromInt(sel.gramWeight)
  }

  /** The user's actions on the calculator, plus a reload of the selected grade's bottle rule. */
  datatype Event =
    | ChooseSpec(id: string)
    | ChooseContainer(c: Container)
    | ChoosePackaging(p: Packaging)
    | ChooseBox(n: int)
    | Decrement
    | Increment
    | TypeQuantity(parsed: Option<int>)
    | PresetWeight(w: int)
    | TypeWeight(g: CustomGram)
    | RuleReloaded

  function Max(a: int, b: int): int { if a >= b then a else b }

  /** The state setters an event's handler calls. */
  function Apply(sel: Selection, ev: Event): Selection
  {
    match ev
    case ChooseSpec(id) => sel.(specId := id)
    case ChooseContainer(c) => sel.(container := c)
    case ChoosePackaging(p) => sel.(packaging := p)
    case ChooseBox(n) => sel.(boxConfig := n)
    case Decrement => sel.(quantity := Max(1, sel.quantity - 1))
    case Increment => sel.(quantity := sel.quantity + 1)
    case TypeQuantity(parsed) =>
      sel.(quantity := Max(1, match parsed case Some(q) => q case None => 0))
    case PresetWeight(w) => sel.(gramWeight := w, customGram := CustomGram([], None))
    case TypeWeight(g) => sel.(customGram := g, gramWeight := 0)
    case RuleReloaded => sel
  }

  /** Whether the effect's dependencies changed, so that it runs again. */
  predicate Fires(before: Selection, after: Selection, ev: Event)
  {
    || ev.RuleReloaded?
    || before.specId != after.specId
    || before.container != after.container
    || before.packaging != after.packaging
  }

  /** The selection after the effect has settled. */
  function Settled(data: AppData, s: Selection): Selection
  {
    var p := Settle(FindRule(data.bottleRules, s.specId), s.container, s.packaging, s.boxConfig);
    s.(packaging := p.pkg, boxConfig := p.box)
  }

  /** One user action followed by the effect runs it triggers. */
  function Step(data: AppData, sel: Selection, ev: Event): Selection
  {
    var s := Apply(sel, ev);
    if Fires(sel, s, ev) then Settled(data, s) else s
  }

  /** The initial state, after the effect's first run on mount. */
  function Mount(data: AppData): Selection
  {
    var id := if |data.specs| > 0 then data.specs[0].id else "";
    Settled(data, Selection(id, SmallSingle, Exquisite, 0, 1, 50, CustomGram([], None)))
  }

  /** The state the calculator maintains whenever its grade has a bottle rule. */
  predicate Consistent(data: AppData, sel: Selection)
  {
    && sel.quantity >= 1
    && (FindRule(data.bottleRules, sel.specId).Some? ==> Allowed(sel.container, sel.packaging))
  }

  lemma SettledConsistent(data: AppData, s: Selection)
    requires s.quantity >= 1
    ensures Consistent(data, Settled(data, s))
  {
    var rule := FindRule(data.bottleRules, s.specId);
    if rule.Some? {
      SettleIsFixedPoint(rule.value, s.container, s.packaging, s.boxConfig);
    }
  }

  lemma MountConsistent(data: AppData)
    ensures Consistent(data, Mount(data))
  {
    var id := if |data.specs| > 0 then data.specs[0].id else "";
    SettledConsistent(data, Selection(id, SmallSingle, Exquisite, 0, 1, 50, CustomGram([], None)));
  }

  /** Every action keeps the selection consistent: quantity at least 1, packaging allowed once a rule exists. */
  lemma StepPreservesConsistent(data: AppData, sel: Selection, ev: Event)
    requires Consistent(data, sel)
    ensures Consistent(data, Step(data, sel, ev))
  {
    var s := Apply(sel, ev);
    assert s.quantity >= 1;
    if Fires(sel, s, ev) {
      SettledConsistent(data, s);
    } else {
      assert s.specId == sel.specId && s.container == sel.container && s.packaging == sel.packaging;
    }
  }

  /** On the default catalog the calculator opens on grade 900, single small bottles in a gift box of 10. */
  lemma MountDefault()
    ensures Mount(DefaultData) == Selection("900", SmallSingle, Exquisite, 10, 1, 50, CustomGram([], None))
  {
    assert FindRule(DefaultData.bottleRules, "900") == Some(DefaultRules[0]);
  }

  /** Choosing bottles-per-box is kept: it is not a dependency of the effect. */
  lemma ChooseBoxKept(data: AppData, sel: Selection, n: int)
    ensures Step(data, sel, ChooseBox(n)) == sel.(boxConfig := n)
  {
  }

  /** The quantity controls never go below 1, and text that is not a number gives 1. */
  lemma QuantityControls(data: AppData, sel: Selection, q: int)
    ensures Step(data, sel, Decrement).quantity == (if sel.quantity - 1 >= 1 then sel.quantity - 1 else 1)
    ensures Step(data, sel, Increment).quantity == sel.quantity + 1
    ensures Step(data, sel, TypeQuantity(None)).quantity == 1
    ensures Step(data, sel, TypeQuantity(Some(q))).quantity == (if q >= 1 then q else 1)
  {
  }

  /**
   * A weight preset sets that weight and clears the custom text; typing a
   * custom weight zeroes the preset, so clearing the text again leaves weight 0.
   */
  lemma WeightControls(data: AppData, sel: Selection, w: int, g: CustomGram)
    ensures Value(CurrentWeight(Step(data, sel, PresetWeight(w)))) == w as real
    ensures Value(CurrentWeight(Step(data, Step(data, sel, TypeWeight(g)), TypeWeight(CustomGram([], None))))) == 0.0
  {
  }
}
