/**
 An AVAC quote by its figures: which rules it comes from, which unit every room gets and at what price, when an
 allowance, a surcharge or an adder is charged, and what labour, margin and tax amount to.
 */
module AvacFigures {
  import opened Avac
  import opened AvacQuotes
  import opened InsertionOrder
  import opened Rounding
  import opened Sums
  import opened Text
  import opened VerticalFigures
  import opened VerticalPricing
  import opened Wrappers

  // ---------- Where the rules come from ----------

  lemma BookComesFromTheRules(facts: Facts, all: seq<Rule<Config>>, catalog: seq<Sku>, taxRate: Option<real>)
    ensures var b := InputsOf(facts, all, catalog, taxRate).book;
      && ComesFrom(b.indoor, all, AVAC, CATALOG_UNIT, IsIndoor)
      && ComesFrom(b.outdoor, all, AVAC, CATALOG_UNIT, IsOutdoor)
      && ComesFrom(b.labor, all, AVAC, LABOR_HOURS, IsLabor)
      && ComesFrom(b.margin, all, AVAC, MARGIN_MARKUP, IsPercentage)
      && ComesFrom(b.tax, all, AVAC, TAX, IsPercentage)
  {
    hide ComesFrom;
    FirstComesFrom(all, AVAC, CATALOG_UNIT, IsIndoor);
    FirstComesFrom(all, AVAC, CATALOG_UNIT, IsOutdoor);
    FirstComesFrom(all, AVAC, LABOR_HOURS, IsLabor);
    FirstComesFrom(all, AVAC, MARGIN_MARKUP, IsPercentage);
    FirstComesFrom(all, AVAC, TAX, IsPercentage);
  }

  // ---------- The totals ----------

  /** The tax percentage: the given rate, else the rule's, else none. */
  function DueTax(t: Inputs): real
    requires WellFormed(t.book)
  {
    if t.taxRate.Some? then 100.0 * t.taxRate.value
    else if t.book.tax.Some? then t.book.tax.value.percentage else 0.0
  }

  lemma TaxIsDue(t: Inputs)
    requires WellFormed(t.book)
    ensures IsPercent(TaxOf(t), DueTax(t), Total(WithMargin(t)))
  {
    hide IsPercent, PercentOf, WithMargin;
    PercentOfIsPercent(Total(WithMargin(t)), DueTax(t));
    NoneOfNothing(Total(WithMargin(t)));
  }

  lemma NoneOfNothing(base: real)
    ensures IsPercent(0, 0.0, base)
  {
  }

  /** Tax and total by the subtotal, no discount, the lead time by the products. */
  lemma TotalsAreDue(t: Inputs)
    requires WellFormed(t.book)
    ensures var q := Quoted(t);
      && q.discountMinor == 0 && IsPercent(q.taxMinor, DueTax(t), q.subtotalMinor)
      && q.totalMinor == q.subtotalMinor + q.taxMinor as real
      && q.currency == "EUR" && IsSlowestOn(q.lines, t.catalog, q.leadTimeDays)
  {
    hide IsPercent, IsSlowestOn, DueTax, WithMargin, TaxOf, AllDrafts, Numbered, RelevantSkus, MaxLeadTime,
      ClosingRoles, BasePart, Total;
    TaxIsDue(t);
    LeadTimeIsOfTheSlowest(Quoted(t).lines, t.catalog);
  }

  /** The subtotal is the lines before the margin plus the margin, its percentage of them; the tax comes last. */
  lemma SubtotalIsDue(t: Inputs) returns (before: seq<QuoteLine>, margin: seq<QuoteLine>, tax: seq<QuoteLine>)
    requires WellFormed(t.book)
    ensures var q := Quoted(t);
      && q.lines == Numbered(before + margin + tax)
      && IsMarginOf(margin, before, if t.book.margin.Some? then Some(t.book.margin.value.percentage) else None)
      && q.subtotalMinor == Total(before) + Total(margin)
      && IsTaxLine(tax, q.taxMinor, t.book.tax.Some?)
      && before == IndoorPart(t).drafts + OutdoorPart(t).drafts + AddedLines(t) + LaborPart(t).drafts
  {
    hide IndoorPart, OutdoorPart, AddedLines, LaborPart;
    before := BasePart(t).drafts;
    margin := MarginDrafts(Total(before), t.book);
    tax := TaxDrafts(TaxOf(t), t.book);
    SumByConcat(before, margin, AmountOf);
    if t.book.margin.Some? {
      var amount := PercentOf(Total(before), t.book.margin.value.percentage);
      PercentOfIsPercent(Total(before), t.book.margin.value.percentage);
      assert (amount as real).Floor == amount;
    }
  }

  // ---------- Units ----------

  /** The code room i is served by: the first selection whose limit its area keeps within, the default otherwise. */
  ghost predicate IsCodeFor(code: string, facts: Facts, rule: Config, i: nat)
    requires rule.IndoorUnit?
  {
    if i >= |facts.areas| || facts.areas[i].None? then code == rule.defaultSkuCode
    else
      var area := facts.areas[i].value;
      || (code == rule.defaultSkuCode
          && forall s :: s in rule.selections ==> s.maxAreaM2.Some? && area > s.maxAreaM2.value)
      || exists n ::
          && 0 <= n < |rule.selections| && rule.selections[n].skuCode == code
          && (rule.selections[n].maxAreaM2.Some? ==> area <= rule.selections[n].maxAreaM2.value)
          && forall m :: 0 <= m < n ==>
               rule.selections[m].maxAreaM2.Some? && area > rule.selections[m].maxAreaM2.value
  }

  lemma CodeIsForTheRoom(facts: Facts, rule: Config, i: nat)
    requires rule.IndoorUnit?
    ensures IsCodeFor(CodeAt(facts, rule, i), facts, rule, i)
  {
    if i < |facts.areas| && facts.areas[i].Some? {
      FirstFittingCovers(rule.selections, facts.areas[i].value);
    }
  }

  /** An indoor line bills one SKU for all the rooms its code is for. */
  ghost predicate IsIndoorLine(l: QuoteLine, code: string, codes: seq<string>, catalog: seq<Sku>) {
    exists sku: Sku ::
      && sku in catalog && sku.active && sku.code == code && l.description == sku.name
      && BillsUnits(l, sku, multiset(codes)[code] as real, Equipment)
  }

  lemma UnitsAreBilled(catalog: seq<Sku>, code: string, codes: seq<string>)
    requires UnitsPart(catalog, code, multiset(codes)[code]).missing == []
    ensures var drafts := UnitsPart(catalog, code, multiset(codes)[code]).drafts;
      |drafts| == 1 && IsIndoorLine(drafts[0], code, codes, catalog)
  {
    SkuByCodeFinds(catalog, code);
    var sku := SkuByCode(catalog, code).value;
    CatalogDraftBills(sku, sku.name, multiset(codes)[code] as real, Equipment);
  }

  lemma {:induction false} AllUnitsAreBilled(catalog: seq<Sku>, keys: seq<string>, codes: seq<string>)
    requires AllUnitsPart(catalog, keys, codes).missing == []
    ensures var drafts := AllUnitsPart(catalog, keys, codes).drafts;
      |drafts| == |keys| && forall i :: 0 <= i < |keys| ==> IsIndoorLine(drafts[i], keys[i], codes, catalog)
  {
    if keys != [] {
      hide IsIndoorLine, UnitsPart;
      var last := |keys| - 1;
      var before := AllUnitsPart(catalog, keys[..last], codes);
      var part := UnitsPart(catalog, keys[last], multiset(codes)[keys[last]]);
      assert before.missing == [] && part.missing == [];
      AllUnitsAreBilled(catalog, keys[..last], codes);
      UnitsAreBilled(catalog, keys[last], codes);
    }
  }

  /**
   The units of an unblocked quote: every room has a code by its area, each code one line with the rooms it serves as
   quantity at the catalog price, and then one outdoor unit of the rule's SKU.
   */
  lemma UnitsAreByRoom(t: Inputs) returns (codes: seq<string>)
    requires WellFormed(t.book) && !Quoted(t).blocked
    ensures t.book.indoor.Some? && t.book.outdoor.Some? && |codes| == UnitCount(t.facts)
    ensures forall i :: 0 <= i < |codes| ==> IsCodeFor(codes[i], t.facts, t.book.indoor.value, i)
    ensures var keys, lines := Distinct(codes), Quoted(t).lines;
      && |keys| < |lines|
      && (forall n :: 0 <= n < |keys| ==> IsIndoorLine(lines[n], keys[n], codes, t.catalog))
      && IsOutdoorLine(lines[|keys|], t.book.outdoor.value.skuCode, t.catalog)
  {
    hide Quoted, IndoorPart, OutdoorPart, IsCodeFor, IsIndoorLine, IsOutdoorLine;
    UnblockedMeansNothingMissing(t);
    UnblockedUnits(t);
    codes := Codes(t.facts, t.book.indoor.value, UnitCount(t.facts));
    forall i | 0 <= i < |codes| {
      CodeIsForTheRoom(t.facts, t.book.indoor.value, i);
    }
    IndoorIsBilled(t, codes);
    OutdoorIsBilled(t);
    UnitsComeFirst(t);
    var indoor := IndoorPart(t).drafts;
    forall n | 0 <= n < |indoor| {
      MovedUnit(indoor[n], Quoted(t).lines[n], Distinct(codes)[n], codes, t.catalog);
    }
    MovedOutdoor(OutdoorPart(t).drafts[0], Quoted(t).lines[|indoor|], t.book.outdoor.value.skuCode, t.catalog);
  }

  lemma IndoorIsBilled(t: Inputs, codes: seq<string>)
    requires WellFormed(t.book) && t.book.indoor.Some? && IndoorPart(t).missing == []
    requires codes == Codes(t.facts, t.book.indoor.value, UnitCount(t.facts))
    ensures var drafts, keys := IndoorPart(t).drafts, Distinct(codes);
      |drafts| == |keys| && forall n :: 0 <= n < |keys| ==> IsIndoorLine(drafts[n], keys[n], codes, t.catalog)
  {
    AllUnitsAreBilled(t.catalog, Distinct(codes), codes);
  }

  ghost predicate IsOutdoorLine(l: QuoteLine, code: string, catalog: seq<Sku>) {
    exists sku: Sku ::
      && sku in catalog && sku.active && sku.code == code && l.description == sku.name
      && BillsUnits(l, sku, 1.0, Equipment)
  }

  lemma OutdoorIsBilled(t: Inputs)
    requires WellFormed(t.book) && t.book.outdoor.Some? && OutdoorPart(t).missing == []
    requires 1 <= UnitCount(t.facts) <= t.book.outdoor.value.maxIndoorUnits
    ensures |OutdoorPart(t).drafts| == 1
    ensures IsOutdoorLine(OutdoorPart(t).drafts[0], t.book.outdoor.value.skuCode, t.catalog)
  {
    SkuByCodeFinds(t.catalog, t.book.outdoor.value.skuCode);
    var sku := SkuByCode(t.catalog, t.book.outdoor.value.skuCode).value;
    CatalogDraftBills(sku, sku.name, 1.0, Equipment);
  }

  lemma MovedUnit(l: QuoteLine, m: QuoteLine, code: string, codes: seq<string>, catalog: seq<Sku>)
    requires IsIndoorLine(l, code, codes, catalog) && m == l.(position := m.position)
    ensures IsIndoorLine(m, code, codes, catalog)
  {
  }

  lemma MovedOutdoor(l: QuoteLine, m: QuoteLine, code: string, catalog: seq<Sku>)
    requires IsOutdoorLine(l, code, catalog) && m == l.(position := m.position)
    ensures IsOutdoorLine(m, code, catalog)
  {
  }

  lemma UnitsComeFirst(t: Inputs)
    requires WellFormed(t.book)
    ensures var units, lines := IndoorPart(t).drafts + OutdoorPart(t).drafts, Quoted(t).lines;
      |units| <= |lines| && forall n :: 0 <= n < |units| ==> lines[n] == units[n].(position := n + 1)
  {
    hide IndoorPart, OutdoorPart, RestDrafts;
    UnitsThenRest(t);
  }

  // ---------- Allowances, surcharges, adders ----------

  /** What a fact is compared with, where it is known. */
  ghost predicate CircumstanceHolds(facts: Facts, c: Circumstance, operator: Operator, value: Value) {
    match c
    case InstallHeight => facts.installHeightM.Some? && NumberHolds(facts.installHeightM.value, operator, value)
    case DistanceKm => facts.distanceKm.Some? && NumberHolds(facts.distanceKm.value, operator, value)
    case WallType => facts.wallType.Some? && operator == Eq && value == Word(facts.wallType.value)
    case InstallType => facts.installType.Some? && operator == Eq && value == Word(facts.installType.value)
  }

  ghost predicate NumberHolds(actual: real, operator: Operator, value: Value) {
    value.Number? && if operator == Gt then actual > value.n else actual == value.n
  }

  function Length(facts: Facts, m: Measure): Option<real> {
    match m
    case PipeLength => facts.pipeLengthM
    case OutdoorUnitDistance => facts.outdoorUnitDistanceM
  }

  /** The line a rule charges, and when: by the facts of the request. */
  ghost predicate Charges(rule: Rule<Config>, facts: Facts, l: QuoteLine) {
    match rule.ruleType
    case INCLUDED_ALLOWANCE =>
      && rule.config.Allowance? && Length(facts, rule.config.measure).Some?
      && var excess := Length(facts, rule.config.measure).value - rule.config.included;
         && excess > 0.0 && l.skuId.None? && l.description == rule.config.description && l.kind == rule.config.kind
         && l.quantity == excess && l.unitPriceMinor == rule.config.unitPriceMinor as real
         && l.amountMinor == l.amountMinor.Floor as real
         && -0.5 <= l.amountMinor - excess * rule.config.unitPriceMinor as real <= 0.5
    case CONDITIONAL_SURCHARGE =>
      && rule.config.Conditional?
      && CircumstanceHolds(facts, rule.config.circumstance, rule.config.operator, rule.config.value)
      && IsFixed(l, rule.config.description, rule.config.amountMinor as real, rule.config.kind)
    case FIXED_ADDER =>
      && rule.config.ElectricalPanel? && facts.needsElectricalPanel == Some(rule.config.when)
      && IsFixed(l, rule.config.description, rule.config.amountMinor as real, rule.config.kind)
    case _ => false
  }

  /** Whether a rule charges anything. */
  ghost predicate IsCharged(rule: Rule<Config>, facts: Facts) {
    match rule.ruleType
    case INCLUDED_ALLOWANCE =>
      && rule.config.Allowance? && Length(facts, rule.config.measure).Some?
      && Length(facts, rule.config.measure).value > rule.config.included
    case CONDITIONAL_SURCHARGE =>
      && rule.config.Conditional?
      && CircumstanceHolds(facts, rule.config.circumstance, rule.config.operator, rule.config.value)
    case FIXED_ADDER => rule.config.ElectricalPanel? && facts.needsElectricalPanel == Some(rule.config.when)
    case _ => false
  }

  lemma ConditionIsTheCircumstance(facts: Facts, c: Config)
    requires c.Conditional?
    ensures CircumstanceHolds(facts, c.circumstance, c.operator, c.value) <==>
      Actual(facts, c.circumstance).Some?
      && ConditionMatches(Actual(facts, c.circumstance).value, c.operator, c.value)
  {
  }

  lemma RuleIsCharged(rule: Rule<Config>, facts: Facts)
    ensures var drafts := RuleDrafts(rule, rule.ruleType, facts);
      if IsCharged(rule, facts) then |drafts| == 1 && Charges(rule, facts, drafts[0]) && drafts[0].position == 0
      else drafts == []
  {
    if rule.ruleType == CONDITIONAL_SURCHARGE && rule.config.Conditional? {
      ConditionIsTheCircumstance(facts, rule.config);
    }
    if rule.ruleType == INCLUDED_ALLOWANCE && IsCharged(rule, facts) {
      RoundNear((Length(facts, rule.config.measure).value - rule.config.included) * rule.config.unitPriceMinor as real);
    }
  }

  /** The rules of a type that charge something, in their order. */
  ghost function Due(rules: seq<Rule<Config>>, t: RuleType, facts: Facts): seq<Rule<Config>> {
    if rules == [] then []
    else
      var last := rules[|rules| - 1];
      Due(rules[..|rules| - 1], t, facts) + if last.ruleType == t && IsCharged(last, facts) then [last] else []
  }

  /** One line each, in the same order. */
  ghost predicate AreChargedFor(lines: seq<QuoteLine>, rules: seq<Rule<Config>>, facts: Facts) {
    |lines| == |rules| && forall i :: 0 <= i < |lines| ==> Charges(rules[i], facts, lines[i])
  }

  lemma {:induction false} AddedByIsDue(rules: seq<Rule<Config>>, t: RuleType, facts: Facts)
    requires t in {INCLUDED_ALLOWANCE, CONDITIONAL_SURCHARGE, FIXED_ADDER}
    ensures AreChargedFor(AddedBy(rules, t, facts), Due(rules, t, facts), facts)
  {
    hide RuleDrafts, IsCharged, Charges;
    if rules != [] {
      var last := rules[|rules| - 1];
      AddedByIsDue(rules[..|rules| - 1], t, facts);
      RuleIsCharged(last, facts);
      NothingOfAnotherType(last, t, facts);
    }
  }

  lemma NothingOfAnotherType(rule: Rule<Config>, t: RuleType, facts: Facts)
    ensures rule.ruleType != t ==> RuleDrafts(rule, t, facts) == []
  {
  }

  /** What the rules add: the allowances that are due, then the surcharges, then the adders. */
  ghost predicate AreAdded(lines: seq<QuoteLine>, t: Inputs) {
    AreChargedFor(lines,
      Due(t.rules, INCLUDED_ALLOWANCE, t.facts) + Due(t.rules, CONDITIONAL_SURCHARGE, t.facts)
      + Due(t.rules, FIXED_ADDER, t.facts), t.facts)
  }

  lemma AddedLinesAreDue(t: Inputs)
    ensures AreAdded(AddedLines(t), t)
  {
    hide AddedBy, Due, Charges;
    AddedByIsDue(t.rules, INCLUDED_ALLOWANCE, t.facts);
    AddedByIsDue(t.rules, CONDITIONAL_SURCHARGE, t.facts);
    AddedByIsDue(t.rules, FIXED_ADDER, t.facts);
  }

  // ---------- Labour ----------

  /** The hours of the unit count at the rule's rate, not rounded. */
  ghost predicate IsLaborOf(work: seq<QuoteLine>, t: Inputs)
    requires WellFormed(t.book)
  {
    && t.book.labor.Some? && UnitCount(t.facts) in t.book.labor.value.hours && |work| == 1
    && var hours := t.book.labor.value.hours[UnitCount(t.facts)];
       && work[0].skuId.None? && work[0].kind == Labor && work[0].description == t.book.labor.value.description
       && work[0].quantity == hours && work[0].unitPriceMinor == t.book.labor.value.rateMinor as real
       && work[0].amountMinor == hours * t.book.labor.value.rateMinor as real
  }

  lemma LaborIsBilled(t: Inputs)
    requires WellFormed(t.book) && !Quoted(t).blocked
    ensures IsLaborOf(LaborPart(t).drafts, t)
  {
    hide Quoted, UnitLines, AddedLines, UnitCount, ClosingRoles, RelevantSkus, AllEuro;
    UnblockedMeansNothingMissing(t);
    assert LaborPart(t).missing == [];
  }

  /** An unblocked quote is its units, what the rules add, the labour, the margin and the tax, in this order. */
  lemma WorkIsBilled(t: Inputs)
    returns (units: seq<QuoteLine>, added: seq<QuoteLine>, labor: seq<QuoteLine>, rest: seq<QuoteLine>)
    requires WellFormed(t.book) && !Quoted(t).blocked
    ensures t.book.indoor.Some? && Quoted(t).lines == Numbered(units + added + labor + rest)
    ensures |units| == |Distinct(Codes(t.facts, t.book.indoor.value, UnitCount(t.facts)))| + 1
    ensures forall l :: l in units ==> l.kind == Equipment
    ensures AreAdded(added, t) && IsLaborOf(labor, t)
    ensures forall l :: l in rest ==> l.kind == Margin || l.kind == Tax
  {
    hide Quoted, IndoorPart, OutdoorPart, LaborPart, AddedLines, AreAdded, IsLaborOf, MarginDrafts, TaxDrafts;
    units := IndoorPart(t).drafts + OutdoorPart(t).drafts;
    added, labor := AddedLines(t), LaborPart(t).drafts;
    rest := MarginDrafts(Total(BasePart(t).drafts), t.book) + TaxDrafts(TaxOf(t), t.book);
    AddedLinesAreDue(t);
    LaborIsBilled(t);
    DraftsInOrder(t);
    AddedToTheWork(Total(BasePart(t).drafts), TaxOf(t), t.book);
    HowManyUnits(t);
  }

  lemma AddedToTheWork(base: real, tax: int, book: RuleBook)
    requires WellFormed(book)
    ensures forall l :: l in MarginDrafts(base, book) + TaxDrafts(tax, book) ==> l.kind == Margin || l.kind == Tax
  {
  }

  lemma DraftsInOrder(t: Inputs)
    requires WellFormed(t.book)
    ensures Quoted(t).lines == Numbered(
      IndoorPart(t).drafts + OutdoorPart(t).drafts + AddedLines(t) + LaborPart(t).drafts
      + (MarginDrafts(Total(BasePart(t).drafts), t.book) + TaxDrafts(TaxOf(t), t.book)))
  {
    hide IndoorPart, OutdoorPart, AddedLines, LaborPart, MarginDrafts, TaxDrafts, TaxOf, Total, Numbered;
    var margin, tax := MarginDrafts(Total(BasePart(t).drafts), t.book), TaxDrafts(TaxOf(t), t.book);
    assert BasePart(t).drafts ==
      IndoorPart(t).drafts + OutdoorPart(t).drafts + AddedLines(t) + LaborPart(t).drafts;
    assert BasePart(t).drafts + margin + tax == BasePart(t).drafts + (margin + tax);
  }

  lemma HowManyUnits(t: Inputs)
    requires WellFormed(t.book) && !Quoted(t).blocked
    ensures t.book.indoor.Some?
    ensures var units := IndoorPart(t).drafts + OutdoorPart(t).drafts;
      && |units| == |Distinct(Codes(t.facts, t.book.indoor.value, UnitCount(t.facts)))| + 1
      && forall l :: l in units ==> l.kind == Equipment
  {
    hide Quoted, IndoorPart, OutdoorPart, BasePart, StartPart, Codes, Distinct, UnitCount, OverCapacity;
    UnblockedMeansNothingMissing(t);
    UnblockedUnits(t);
    IndoorIsBilled(t, Codes(t.facts, t.book.indoor.value, UnitCount(t.facts)));
    OutdoorIsBilled(t);
  }
}
