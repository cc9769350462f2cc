/**
 The AVAC (air conditioning) engine: indoor units picked by room area and counted per SKU, one outdoor unit,
 allowances, surcharges and adders from tenant-owned rules, labour by unit count, margin and tax.
 */
module Avac {
  import opened InsertionOrder
  import opened Rounding
  import opened Text
  import opened VerticalPricing
  import opened Wrappers

  datatype AreaSelection = AreaSelection(maxAreaM2: Option<real>, skuCode: string)

  datatype Value = Word(text: string) | Number(n: real) | Flag(b: bool)

  datatype Operator = Eq | Gt

  datatype Measure = PipeLength | OutdoorUnitDistance

  datatype Circumstance = InstallHeight | WallType | DistanceKm | InstallType

  /** Rule configurations after schema validation. */
  datatype Config =
    | IndoorUnit(selections: seq<AreaSelection>, defaultSkuCode: string)
    | OutdoorUnit(skuCode: string, maxIndoorUnits: int)
    | Allowance(measure: Measure, included: real, unitPriceMinor: int, description: string, kind: Kind)
    | Conditional(circumstance: Circumstance, operator: Operator, value: Value, amountMinor: int, description: string,
        kind: Kind)
    | ElectricalPanel(when: bool, amountMinor: int, description: string, kind: Kind)
    | LaborByUnitCount(rateMinor: int, hours: map<nat, real>, description: string)
    | Percentage(percentage: real)
    | Malformed

  /** The facts of the request; areas are the rooms' areas where known. */
  datatype Facts = Facts(
    areas: seq<Option<real>>, indoorUnitsRequested: Option<nat>, pipeLengthM: Option<real>,
    installHeightM: Option<real>,
    wallType: Option<string>, outdoorUnitDistanceM: Option<real>, needsElectricalPanel: Option<bool>,
    distanceKm: Option<real>, installType: Option<string>)

  datatype PricedQuote = PricedQuote(
    lines: seq<QuoteLine>, subtotalMinor: real, discountMinor: int, taxMinor: int, totalMinor: real,
    leadTimeDays: Option<int>, currency: string, blocked: bool, missingRules: seq<string>)

  datatype RuleBook = RuleBook(
    indoor: Option<Config>, outdoor: Option<Config>, labor: Option<Config>, margin: Option<Config>, tax: Option<Config>)

  datatype Inputs = Inputs(facts: Facts, rules: seq<Rule<Config>>, book: RuleBook, catalog: seq<Sku>,
      taxRate: Option<real>)

  predicate IsIndoor(c: Config) { c.IndoorUnit? }
  predicate IsOutdoor(c: Config) { c.OutdoorUnit? }
  predicate IsLabor(c: Config) { c.LaborByUnitCount? }
  predicate IsPercentage(c: Config) { c.Percentage? }

  function Book(rules: seq<Rule<Config>>): RuleBook {
    RuleBook(
      FirstConfig(rules, CATALOG_UNIT, IsIndoor), FirstConfig(rules, CATALOG_UNIT, IsOutdoor),
      FirstConfig(rules, LABOR_HOURS, IsLabor), FirstConfig(rules, MARGIN_MARKUP, IsPercentage),
      FirstConfig(rules, TAX, IsPercentage))
  }

  predicate WellFormed(book: RuleBook) {
    && (book.indoor.Some? ==> book.indoor.value.IndoorUnit?)
    && (book.outdoor.Some? ==> book.outdoor.value.OutdoorUnit?)
    && (book.labor.Some? ==> book.labor.value.LaborByUnitCount?)
    && (book.margin.Some? ==> book.margin.value.Percentage?)
    && (book.tax.Some? ==> book.tax.value.Percentage?)
  }

  lemma BookIsWellFormed(rules: seq<Rule<Config>>)
    ensures WellFormed(Book(rules))
  {
    FirstConfigParses(rules, CATALOG_UNIT, IsIndoor);
    FirstConfigParses(rules, CATALOG_UNIT, IsOutdoor);
    FirstConfigParses(rules, LABOR_HOURS, IsLabor);
    FirstConfigParses(rules, MARGIN_MARKUP, IsPercentage);
    FirstConfigParses(rules, TAX, IsPercentage);
  }

  function InputsOf(facts: Facts, allRules: seq<Rule<Config>>, catalog: seq<Sku>, taxRate: Option<real>): Inputs {
    var rules := ActiveRules(allRules, AVAC);
    Inputs(facts, rules, Book(rules), catalog, taxRate)
  }

  function UnitCount(facts: Facts): nat {
    if facts.indoorUnitsRequested.Some? then facts.indoorUnitsRequested.value else |facts.areas|
  }

  // ---------- Units ----------

  predicate Fits(area: real, s: AreaSelection) {
    s.maxAreaM2.None? || area <= s.maxAreaM2.value
  }

  function FirstFitting(selections: seq<AreaSelection>, area: real): Option<AreaSelection> {
    if selections == [] then None
    else if Fits(area, selections[0]) then Some(selections[0]) else FirstFitting(selections[1..], area)
  }

  function AreaAt(facts: Facts, index: nat): Option<real> {
    if index < |facts.areas| then facts.areas[index] else None
  }

  function CodeAt(facts: Facts, rule: Config, index: nat): string
    requires rule.IndoorUnit?
  {
    if AreaAt(facts, index).None? then rule.defaultSkuCode
    else
      match FirstFitting(rule.selections, AreaAt(facts, index).value)
      case Some(s) => s.skuCode
      case None => rule.defaultSkuCode
  }

  function Codes(facts: Facts, rule: Config, n: nat): seq<string>
    requires rule.IndoorUnit?
  {
    seq(n, i requires 0 <= i < n => CodeAt(facts, rule, i))
  }

  /** What one entry of the count map becomes. */
  function UnitsPart(catalog: seq<Sku>, code: string, count: nat): Part {
    match SkuByCode(catalog, code)
    case None => Absent(code)
    case Some(sku) => Part([CatalogDraft(sku, sku.name, count as real, Equipment)], [])
  }

  function AllUnitsPart(catalog: seq<Sku>, keys: seq<string>, codes: seq<string>): Part {
    if keys == [] then NOTHING
    else
      var last := |keys| - 1;
      Joined(AllUnitsPart(catalog, keys[..last], codes), UnitsPart(catalog, keys[last], multiset(codes)[keys[last]]))
  }

  function IndoorPart(t: Inputs): Part
    requires WellFormed(t.book)
  {
    if t.book.indoor.None? then NOTHING
    else
      var codes := Codes(t.facts, t.book.indoor.value, UnitCount(t.facts));
      AllUnitsPart(t.catalog, Distinct(codes), codes)
  }

  predicate OverCapacity(t: Inputs)
    requires WellFormed(t.book)
  {
    t.book.outdoor.Some? && UnitCount(t.facts) > t.book.outdoor.value.maxIndoorUnits
  }

  function StartPart(t: Inputs): Part
    requires WellFormed(t.book)
  {
    Part([],
      Unless(UnitCount(t.facts) >= 1, "critical_input.indoor_units_or_areas")
      + Unless(t.book.indoor.Some?, "avac.indoor.selection")
      + Unless(t.book.outdoor.Some?, "avac.outdoor.selection")
      + Unless(!OverCapacity(t), "avac.outdoor.capacity"))
  }

  function OutdoorPart(t: Inputs): Part
    requires WellFormed(t.book)
  {
    if t.book.outdoor.None? || UnitCount(t.facts) == 0 || OverCapacity(t) then NOTHING
    else
      match SkuByCode(t.catalog, t.book.outdoor.value.skuCode)
      case None => Absent(t.book.outdoor.value.skuCode)
      case Some(sku) => Part([CatalogDraft(sku, sku.name, 1.0, Equipment)], [])
  }

  // ---------- Rules that add a line ----------

  function Measured(facts: Facts, m: Measure): Option<real> {
    match m
    case PipeLength => facts.pipeLengthM
    case OutdoorUnitDistance => facts.outdoorUnitDistanceM
  }

  function OptionalNumber(n: Option<real>): Option<Value> {
    if n.None? then None else Some(Number(n.value))
  }

  function OptionalWord(s: Option<string>): Option<Value> {
    if s.None? then None else Some(Word(s.value))
  }

  function Actual(facts: Facts, c: Circumstance): Option<Value> {
    match c
    case InstallHeight => OptionalNumber(facts.installHeightM)
    case WallType => OptionalWord(facts.wallType)
    case DistanceKm => OptionalNumber(facts.distanceKm)
    case InstallType => OptionalWord(facts.installType)
  }

  predicate ConditionMatches(actual: Value, operator: Operator, expected: Value) {
    match operator
    case Eq => actual == expected
    case Gt => actual.Number? && expected.Number? && actual.n > expected.n
  }

  function ExcessDraft(c: Config, excess: real): QuoteLine
    requires c.Allowance?
  {
    QuoteLine(None, c.description, excess, c.unitPriceMinor as real, Round(excess * c.unitPriceMinor as real) as real,
      0, c.kind)
  }

  function LaborDraft(c: Config, hours: real): QuoteLine
    requires c.LaborByUnitCount?
  {
    QuoteLine(None, c.description, hours, c.rateMinor as real, hours * c.rateMinor as real, 0, Labor)
  }

  function AllowanceDrafts(rule: Rule<Config>, facts: Facts): seq<QuoteLine> {
    if !rule.config.Allowance? || Measured(facts, rule.config.measure).None? then []
    else
      var excess := Max(0.0, Measured(facts, rule.config.measure).value - rule.config.included);
      if excess == 0.0 then []
      else [ExcessDraft(rule.config, excess)]
  }

  function ConditionalDrafts(rule: Rule<Config>, facts: Facts): seq<QuoteLine> {
    if !rule.config.Conditional? then []
    else
      var actual := Actual(facts, rule.config.circumstance);
      if actual.None? || !ConditionMatches(actual.value, rule.config.operator, rule.config.value) then []
      else [FixedDraft(rule.config.description, rule.config.amountMinor as real, rule.config.kind)]
  }

  function PanelDrafts(rule: Rule<Config>, facts: Facts): seq<QuoteLine> {
    if !rule.config.ElectricalPanel? || facts.needsElectricalPanel != Some(rule.config.when) then []
    else [FixedDraft(rule.config.description, rule.config.amountMinor as real, rule.config.kind)]
  }

  /** What a rule adds when the loop for its type reaches it. */
  function RuleDrafts(rule: Rule<Config>, t: RuleType, facts: Facts): seq<QuoteLine> {
    if rule.ruleType != t then []
    else
      match t
      case INCLUDED_ALLOWANCE => AllowanceDrafts(rule, facts)
      case CONDITIONAL_SURCHARGE => ConditionalDrafts(rule, facts)
      case FIXED_ADDER => PanelDrafts(rule, facts)
      case _ => []
  }

  function AddedBy(rules: seq<Rule<Config>>, t: RuleType, facts: Facts): seq<QuoteLine> {
    if rules == [] then []
    else AddedBy(rules[..|rules| - 1], t, facts) + RuleDrafts(rules[|rules| - 1], t, facts)
  }

  function LaborPart(t: Inputs): Part
    requires WellFormed(t.book)
  {
    if t.book.labor.None? || UnitCount(t.facts) !in t.book.labor.value.hours then Part([], ["avac.installation.labor"])
    else
      Part([LaborDraft(t.book.labor.value, t.book.labor.value.hours[UnitCount(t.facts)])], [])
  }

  // ---------- The quote ----------

  function UnitLines(t: Inputs): Part
    requires WellFormed(t.book)
  {
    Joined(Joined(StartPart(t), IndoorPart(t)), OutdoorPart(t))
  }

  function AddedLines(t: Inputs): seq<QuoteLine> {
    AddedBy(t.rules, INCLUDED_ALLOWANCE, t.facts) + AddedBy(t.rules, CONDITIONAL_SURCHARGE, t.facts)
    + AddedBy(t.rules, FIXED_ADDER, t.facts)
  }

  /** Everything before margin. */
  function BasePart(t: Inputs): Part
    requires WellFormed(t.book)
  {
    Joined(Joined(UnitLines(t), Part(AddedLines(t), [])), LaborPart(t))
  }

  function ClosingRoles(book: RuleBook): seq<string> {
    Unless(book.margin.Some?, "avac.margin") + Unless(book.tax.Some?, "avac.iva")
  }

  function MarginDrafts(base: real, book: RuleBook): seq<QuoteLine>
    requires WellFormed(book)
  {
    if book.margin.None? then []
    else [FixedDraft("Margem comercial", PercentOf(base, book.margin.value.percentage) as real, Margin)]
  }

  function WithMargin(t: Inputs): seq<QuoteLine>
    requires WellFormed(t.book)
  {
    BasePart(t).drafts + MarginDrafts(Total(BasePart(t).drafts), t.book)
  }

  function TaxOf(t: Inputs): int
    requires WellFormed(t.book)
  {
    var subtotal := Total(WithMargin(t));
    if t.taxRate.Some? then PercentOf(subtotal, t.taxRate.value * 100.0)
    else if t.book.tax.Some? then PercentOf(subtotal, t.book.tax.value.percentage)
    else 0
  }

  function TaxDrafts(tax: int, book: RuleBook): seq<QuoteLine> {
    if book.tax.None? then [] else [FixedDraft("IVA", tax as real, Tax)]
  }

  function AllDrafts(t: Inputs): seq<QuoteLine>
    requires WellFormed(t.book)
  {
    WithMargin(t) + TaxDrafts(TaxOf(t), t.book)
  }

  /** What the engine returns; unlike its sibling it reports a missing name as often as it is missed. */
  function Quoted(t: Inputs): PricedQuote
    requires WellFormed(t.book)
  {
    var subtotal := Total(WithMargin(t));
    var lines := Numbered(AllDrafts(t));
    var skus := RelevantSkus(lines, t.catalog);
    var missing := BasePart(t).missing + ClosingRoles(t.book) + Unless(AllEuro(skus), "catalog.currency_must_be_eur");
    PricedQuote(
      lines, subtotal, 0, TaxOf(t), subtotal + TaxOf(t) as real, MaxLeadTime(skus), STRATOS_CURRENCY, missing != [],
      missing)
  }

  // ---------- The engine ----------

  /** The count map: each value with the number of its occurrences, in order of first occurrence. */
  method CountValues(values: seq<string>) returns (keys: seq<string>, counts: map<string, nat>)
    ensures keys == Distinct(values)
    ensures forall k: string :: k in counts <==> k in values
    ensures forall k: string :: k in values ==> counts[k] == multiset(values)[k]
  {
    keys, counts := [], map[];
    for i := 0 to |values|
      invariant keys == Distinct(values[..i])
      invariant forall k: string :: k in counts <==> k in values[..i]
      invariant forall k: string :: k in values[..i] ==> counts[k] == multiset(values[..i])[k]
    {
      var value := values[i];
      assert values[..i + 1] == values[..i] + [value];
      DistinctAppend(values[..i], value);
      DistinctKeeps(values[..i]);
      counts := counts[value := (if value in counts then counts[value] else 0) + 1];
      keys := Include(keys, value);
    }
    assert values[..|values|] == values;
  }

  method SelectCodes(facts: Facts, rule: Config, unitCount: nat) returns (selected: seq<string>)
    requires rule.IndoorUnit?
    ensures selected == Codes(facts, rule, unitCount)
  {
    selected := [];
    for index := 0 to unitCount
      invariant selected == Codes(facts, rule, index)
    {
      selected := selected + [CodeAt(facts, rule, index)];
    }
  }

  method PriceIndoor(sheet: Sheet, t: Inputs)
    requires sheet.Valid() && WellFormed(t.book)
    modifies sheet
    ensures sheet.Valid() && sheet.pushed == Joined(old(sheet.pushed), IndoorPart(t))
  {
    if t.book.indoor.Some? {
      var codes := SelectCodes(t.facts, t.book.indoor.value, UnitCount(t.facts));
      var keys, counts := CountValues(codes);
      DistinctKeeps(codes);
      PushUnits(sheet, t.catalog, keys, counts, codes);
    }
  }

  method PushUnits(sheet: Sheet, catalog: seq<Sku>, keys: seq<string>, counts: map<string, nat>,
      ghost codes: seq<string>)
    requires sheet.Valid() && forall k :: k in keys ==> k in counts && counts[k] == multiset(codes)[k]
    modifies sheet
    ensures sheet.Valid() && sheet.pushed == Joined(old(sheet.pushed), AllUnitsPart(catalog, keys, codes))
  {
    for i := 0 to |keys|
      invariant sheet.Valid() && sheet.pushed == Joined(old(sheet.pushed), AllUnitsPart(catalog, keys[..i], codes))
    {
      var code := keys[i];
      ghost var before := AllUnitsPart(catalog, keys[..i], codes);
      var sku := sheet.RequireSku(code, catalog);
      if sku.Some? {
        sheet.Push(CatalogDraft(sku.value, sku.value.name, counts[code] as real, Equipment));
      }
      assert keys[..i + 1][..i] == keys[..i];
      JoinedIsAssociative(old(sheet.pushed), before, UnitsPart(catalog, code, counts[code]));
    }
    assert keys[..|keys|] == keys;
  }

  method PriceOutdoor(sheet: Sheet, t: Inputs)
    requires sheet.Valid() && WellFormed(t.book)
    modifies sheet
    ensures sheet.Valid() && sheet.pushed == Joined(old(sheet.pushed), OutdoorPart(t))
  {
    var unitCount := UnitCount(t.facts);
    if t.book.outdoor.Some? && unitCount > 0 && unitCount <= t.book.outdoor.value.maxIndoorUnits {
      var sku := sheet.RequireSku(t.book.outdoor.value.skuCode, t.catalog);
      if sku.Some? {
        sheet.Push(CatalogDraft(sku.value, sku.value.name, 1.0, Equipment));
      }
    }
  }

  lemma OneMoreRule(rules: seq<Rule<Config>>, i: int, ruleType: RuleType, facts: Facts, before: Part)
    requires 0 <= i < |rules|
    ensures Joined(Joined(before, Part(AddedBy(rules[..i], ruleType, facts), [])),
      Part(RuleDrafts(rules[i], ruleType, facts), []))
            == Joined(before, Part(AddedBy(rules[..i + 1], ruleType, facts), []))
  {
    assert rules[..i + 1][..i] == rules[..i];
    JoinedIsAssociative(before, Part(AddedBy(rules[..i], ruleType, facts), []),
      Part(RuleDrafts(rules[i], ruleType, facts), []));
  }

  method PriceAllowances(sheet: Sheet, rules: seq<Rule<Config>>, facts: Facts)
    requires sheet.Valid()
    modifies sheet
    ensures sheet.Valid() && sheet.pushed ==
      Joined(old(sheet.pushed), Part(AddedBy(rules, INCLUDED_ALLOWANCE, facts), []))
  {
    for i := 0 to |rules|
      invariant sheet.Valid()
      invariant sheet.pushed == Joined(old(sheet.pushed), Part(AddedBy(rules[..i], INCLUDED_ALLOWANCE, facts), []))
    {
      OneMoreRule(rules, i, INCLUDED_ALLOWANCE, facts, old(sheet.pushed));
      PriceAllowance(sheet, rules[i], facts);
    }
    assert rules[..|rules|] == rules;
  }

  method PriceAllowance(sheet: Sheet, rule: Rule<Config>, facts: Facts)
    requires sheet.Valid()
    modifies sheet
    ensures sheet.Valid() && sheet.pushed ==
      Joined(old(sheet.pushed), Part(RuleDrafts(rule, INCLUDED_ALLOWANCE, facts), []))
  {
    if rule.ruleType == INCLUDED_ALLOWANCE && rule.config.Allowance? {
      var actual := Measured(facts, rule.config.measure);
      if actual.Some? {
        var excess := Max(0.0, actual.value - rule.config.included);
        if excess != 0.0 {
          sheet.Push(ExcessDraft(rule.config, excess));
        }
      }
    }
  }

  method PriceConditionals(sheet: Sheet, rules: seq<Rule<Config>>, facts: Facts)
    requires sheet.Valid()
    modifies sheet
    ensures sheet.Valid() && sheet.pushed ==
      Joined(old(sheet.pushed), Part(AddedBy(rules, CONDITIONAL_SURCHARGE, facts), []))
  {
    for i := 0 to |rules|
      invariant sheet.Valid()
      invariant sheet.pushed == Joined(old(sheet.pushed), Part(AddedBy(rules[..i], CONDITIONAL_SURCHARGE, facts), []))
    {
      var rule := rules[i];
      OneMoreRule(rules, i, CONDITIONAL_SURCHARGE, facts, old(sheet.pushed));
      if rule.ruleType == CONDITIONAL_SURCHARGE && rule.config.Conditional? {
        var actual := Actual(facts, rule.config.circumstance);
        if actual.Some? && ConditionMatches(actual.value, rule.config.operator, rule.config.value) {
          sheet.Push(FixedDraft(rule.config.description, rule.config.amountMinor as real, rule.config.kind));
        }
      }
    }
    assert rules[..|rules|] == rules;
  }

  method PriceAdders(sheet: Sheet, rules: seq<Rule<Config>>, facts: Facts)
    requires sheet.Valid()
    modifies sheet
    ensures sheet.Valid() && sheet.pushed == Joined(old(sheet.pushed), Part(AddedBy(rules, FIXED_ADDER, facts), []))
  {
    for i := 0 to |rules|
      invariant sheet.Valid()
      invariant sheet.pushed == Joined(old(sheet.pushed), Part(AddedBy(rules[..i], FIXED_ADDER, facts), []))
    {
      var rule := rules[i];
      OneMoreRule(rules, i, FIXED_ADDER, facts, old(sheet.pushed));
      if rule.ruleType == FIXED_ADDER && rule.config.ElectricalPanel? &&
        facts.needsElectricalPanel == Some(rule.config.when) {
        sheet.Push(FixedDraft(rule.config.description, rule.config.amountMinor as real, rule.config.kind));
      }
    }
    assert rules[..|rules|] == rules;
  }

  method PriceLabor(sheet: Sheet, t: Inputs)
    requires sheet.Valid() && WellFormed(t.book)
    modifies sheet
    ensures sheet.Valid() && sheet.pushed == Joined(old(sheet.pushed), LaborPart(t))
  {
    if t.book.labor.None? || UnitCount(t.facts) !in t.book.labor.value.hours {
      sheet.Miss("avac.installation.labor");
    } else {
      sheet.Push(LaborDraft(t.book.labor.value, t.book.labor.value.hours[UnitCount(t.facts)]));
    }
  }

  method ReportStart(t: Inputs) returns (sheet: Sheet)
    requires WellFormed(t.book)
    ensures fresh(sheet) && sheet.Valid() && sheet.pushed == StartPart(t)
  {
    sheet := new Sheet();
    sheet.MissUnless(UnitCount(t.facts) >= 1, "critical_input.indoor_units_or_areas");
    sheet.MissUnless(t.book.indoor.Some?, "avac.indoor.selection");
    sheet.MissUnless(t.book.outdoor.Some?, "avac.outdoor.selection");
    sheet.MissUnless(!OverCapacity(t), "avac.outdoor.capacity");
  }

  method PriceUnits(t: Inputs) returns (sheet: Sheet)
    requires WellFormed(t.book)
    ensures fresh(sheet) && sheet.Valid() && sheet.pushed == UnitLines(t)
  {
    sheet := ReportStart(t);
    PriceIndoor(sheet, t);
    PriceOutdoor(sheet, t);
  }

  method PriceBase(t: Inputs) returns (sheet: Sheet)
    requires WellFormed(t.book)
    ensures fresh(sheet) && sheet.Valid() && sheet.pushed == BasePart(t)
  {
    sheet := PriceUnits(t);
    PriceAllowances(sheet, t.rules, t.facts);
    PriceConditionals(sheet, t.rules, t.facts);
    PriceAdders(sheet, t.rules, t.facts);
    AddedTogether(UnitLines(t), t);
    PriceLabor(sheet, t);
  }

  lemma AddedTogether(before: Part, t: Inputs)
    ensures Joined(Joined(Joined(before, Part(AddedBy(t.rules, INCLUDED_ALLOWANCE, t.facts), [])),
                          Part(AddedBy(t.rules, CONDITIONAL_SURCHARGE, t.facts), [])),
                   Part(AddedBy(t.rules, FIXED_ADDER, t.facts), []))
            == Joined(before, Part(AddedLines(t), []))
  {
    var a, c, f := Part(AddedBy(t.rules, INCLUDED_ALLOWANCE, t.facts), []),
                   Part(AddedBy(t.rules, CONDITIONAL_SURCHARGE, t.facts), []),
                   Part(AddedBy(t.rules, FIXED_ADDER, t.facts), []);
    JoinedIsAssociative(before, a, c);
    JoinedIsAssociative(before, Joined(a, c), f);
  }

  /** Margin and the roles the closing needs; answers the subtotal. */
  method CloseMargin(sheet: Sheet, t: Inputs) returns (subtotalMinor: real)
    requires sheet.Valid() && WellFormed(t.book) && sheet.pushed == BasePart(t)
    modifies sheet
    ensures sheet.Valid() && sheet.pushed == Part(WithMargin(t), BasePart(t).missing + ClosingRoles(t.book))
    ensures subtotalMinor == Total(WithMargin(t))
  {
    NumberedTotal(sheet.pushed.drafts);
    var baseMinor := Total(sheet.lines);
    ReportClosing(sheet, t.book);
    if t.book.margin.Some? {
      sheet.Push(FixedDraft("Margem comercial", PercentOf(baseMinor, t.book.margin.value.percentage) as real, Margin));
    }
    NumberedTotal(sheet.pushed.drafts);
    subtotalMinor := Total(sheet.lines);
  }

  method ReportClosing(sheet: Sheet, book: RuleBook)
    requires sheet.Valid()
    modifies sheet
    ensures sheet.Valid() && sheet.pushed == Joined(old(sheet.pushed), Part([], ClosingRoles(book)))
  {
    sheet.MissUnless(book.margin.Some?, "avac.margin");
    sheet.MissUnless(book.tax.Some?, "avac.iva");
  }

  method CloseTax(sheet: Sheet, t: Inputs, subtotalMinor: real) returns (taxMinor: int)
    requires sheet.Valid() && WellFormed(t.book) && subtotalMinor == Total(WithMargin(t))
    requires sheet.pushed == Part(WithMargin(t), BasePart(t).missing + ClosingRoles(t.book))
    modifies sheet
    ensures sheet.Valid() && sheet.pushed == Part(AllDrafts(t), BasePart(t).missing + ClosingRoles(t.book))
    ensures taxMinor == TaxOf(t)
  {
    taxMinor := 0;
    if t.taxRate.Some? {
      taxMinor := PercentOf(subtotalMinor, t.taxRate.value * 100.0);
    } else if t.book.tax.Some? {
      taxMinor := PercentOf(subtotalMinor, t.book.tax.value.percentage);
    }
    if t.book.tax.Some? {
      sheet.Push(FixedDraft("IVA", taxMinor as real, Tax));
    }
  }

  method PriceInputs(t: Inputs) returns (quote: PricedQuote)
    requires WellFormed(t.book)
    ensures quote == Quoted(t)
  {
    var sheet := PriceBase(t);
    var subtotal := CloseMargin(sheet, t);
    var tax := CloseTax(sheet, t, subtotal);
    var skus := RelevantSkus(sheet.lines, t.catalog);
    sheet.MissUnless(AllEuro(skus), "catalog.currency_must_be_eur");
    quote := PricedQuote(
      sheet.lines, subtotal, 0, tax, subtotal + tax as real, MaxLeadTime(skus), STRATOS_CURRENCY,
      sheet.missingRules != [], sheet.missingRules);
  }

  method PriceAvacQuote(facts: Facts, allRules: seq<Rule<Config>>, catalog: seq<Sku>, taxRate: Option<real>)
    returns (quote: PricedQuote)
    ensures WellFormed(InputsOf(facts, allRules, catalog, taxRate).book)
    ensures quote == Quoted(InputsOf(facts, allRules, catalog, taxRate))
  {
    BookIsWellFormed(ActiveRules(allRules, AVAC));
    quote := PriceInputs(InputsOf(facts, allRules, catalog, taxRate));
  }
}
