/** What every AVAC quote guarantees, and what an unblocked one does. */
module AvacQuotes {
  import opened Avac
  import opened InsertionOrder
  import opened Rounding
  import opened StableSort
  import opened Sums
  import opened Text
  import opened VerticalPricing
  import opened Wrappers

  lemma UnblockedMeansNothingMissing(t: Inputs)
    requires WellFormed(t.book) && !Quoted(t).blocked
    ensures BasePart(t).missing == [] && ClosingRoles(t.book) == [] && AllEuro(RelevantSkus(Quoted(t).lines, t.catalog))
  {
  }

  // ---------- The lines add up ----------

  lemma TaxLine(tax: int, book: RuleBook)
    ensures Total(TaxDrafts(tax, book)) == if book.tax.Some? then tax as real else 0.0
    ensures ClosingRoles(book) == [] ==> book.tax.Some?
  {
    OneLineTotal(FixedDraft("IVA", tax as real, Tax));
    assert |ClosingRoles(book)| >= |Unless(book.tax.Some?, "avac.iva")|;
  }

  lemma TotalOfTheLines(t: Inputs)
    requires WellFormed(t.book)
    ensures Total(Quoted(t).lines) == Total(WithMargin(t)) + if t.book.tax.Some? then TaxOf(t) as real else 0.0
  {
    NumberedTotal(AllDrafts(t));
    SumByConcat(WithMargin(t), TaxDrafts(TaxOf(t), t.book), AmountOf);
    TaxLine(TaxOf(t), t.book);
  }

  lemma TotalBelowTheLines(t: Inputs)
    requires WellFormed(t.book)
    ensures Quoted(t).totalMinor == Total(WithMargin(t)) + Quoted(t).taxMinor as real
    ensures Quoted(t).taxMinor == TaxOf(t)
  {
  }

  lemma UnblockedHasTax(t: Inputs)
    requires WellFormed(t.book) && !Quoted(t).blocked
    ensures t.book.tax.Some?
  {
    UnblockedMeansNothingMissing(t);
    TaxLine(0, t.book);
  }

  /** Lines are numbered from one, and together they make up the total unless a tax has no line of its own. */
  lemma LinesAddUp(t: Inputs)
    requires WellFormed(t.book)
    ensures var q := Quoted(t);
      && (forall i :: 0 <= i < |q.lines| ==> q.lines[i].position == i + 1)
      && (Total(q.lines) == q.totalMinor <==> t.book.tax.Some? || q.taxMinor == 0)
      && (!q.blocked ==> Total(q.lines) == q.totalMinor)
  {
    TotalOfTheLines(t);
    TotalBelowTheLines(t);
    TaxOnALine(Total(WithMargin(t)), Quoted(t).taxMinor, t.book.tax.Some?, Total(Quoted(t).lines),
      Quoted(t).totalMinor);
    if !Quoted(t).blocked {
      UnblockedHasTax(t);
    }
  }

  // ---------- Which unit a room gets ----------

  /** A unit with a known area gets the first selection that covers it, and every other one the default. */
  lemma {:induction false} FirstFittingCovers(selections: seq<AreaSelection>, area: real)
    ensures match FirstFitting(selections, area)
      case None => forall s :: s in selections ==> !Fits(area, s)
      case Some(found) => exists i ::
        && 0 <= i < |selections| && selections[i] == found && Fits(area, found)
        && forall j :: 0 <= j < i ==> !Fits(area, selections[j])
  {
    if selections != [] {
      assert selections == [selections[0]] + selections[1..];
      if !Fits(area, selections[0]) {
        FirstFittingCovers(selections[1..], area);
        if FirstFitting(selections[1..], area).Some? {
          var i :| 0 <= i < |selections[1..]| && selections[1..][i] == FirstFitting(selections, area).value
            && forall j :: 0 <= j < i ==> !Fits(area, selections[1..][j]);
          assert forall j :: 0 < j < i + 1 ==> selections[j] == selections[1..][j - 1];
          assert selections[i + 1] == FirstFitting(selections, area).value;
        }
      }
    }
  }

  // ---------- Every requested unit is on the quote ----------

  function UnitsOn(l: QuoteLine): real {
    if l.kind.Equipment? then l.quantity else 0.0
  }

  /** How many of the codes are among the keys. */
  function Covered(keys: seq<string>, codes: seq<string>): nat {
    if keys == [] then 0 else Covered(keys[..|keys| - 1], codes) + multiset(codes)[keys[|keys| - 1]]
  }

  lemma {:induction false} CoveredOneMore(keys: seq<string>, codes: seq<string>, code: string)
    requires NoDuplicates(keys)
    ensures Covered(keys, codes + [code]) == Covered(keys, codes) + if code in keys then 1 else 0
  {
    if keys != [] {
      var init, last := keys[..|keys| - 1], keys[|keys| - 1];
      assert keys == init + [last];
      assert multiset(codes + [code]) == multiset(codes) + multiset{code};
      CoveredOneMore(init, codes, code);
      forall i | 0 <= i < |init|
        ensures init[i] != last
      {
        assert init[i] == keys[i];
      }
    }
  }

  lemma {:induction false} CoveredByFewer(keys: seq<string>, codes: seq<string>, fresh': string)
    requires fresh' !in codes
    ensures Covered(keys + [fresh'], codes) == Covered(keys, codes)
  {
    assert (keys + [fresh'])[..|keys|] == keys;
    assert fresh' !in multiset(codes);
  }

  /** Counting per distinct code counts every code. */
  lemma {:induction false} CountsCoverEveryUnit(codes: seq<string>)
    ensures Covered(Distinct(codes), codes) == |codes|
  {
    if codes != [] {
      var init, last := codes[..|codes| - 1], codes[|codes| - 1];
      assert codes == init + [last];
      CountsCoverEveryUnit(init);
      DistinctKeeps(init);
      DistinctKeeps(codes);
      if last !in init {
        CoveredByFewer(Distinct(init), init, last);
      }
      CoveredOneMore(Distinct(codes), init, last);
    }
  }

  lemma OneUnitLine(l: QuoteLine)
    ensures SumBy([l], UnitsOn) == UnitsOn(l)
  {
    assert SumBy([l][1..], UnitsOn) == 0.0;
    assert SumBy([l], UnitsOn) == UnitsOn(l);
  }

  lemma {:induction false} UnitLinesCount(catalog: seq<Sku>, keys: seq<string>, codes: seq<string>)
    requires AllUnitsPart(catalog, keys, codes).missing == []
    ensures SumBy(AllUnitsPart(catalog, keys, codes).drafts, UnitsOn) == Covered(keys, codes) as real
  {
    if keys != [] {
      var last := |keys| - 1;
      var count := multiset(codes)[keys[last]];
      var part := UnitsPart(catalog, keys[last], count);
      UnitLinesCount(catalog, keys[..last], codes);
      assert part.missing == [];
      OneUnitLine(part.drafts[0]);
      assert part.drafts == [part.drafts[0]];
      PartSum(AllUnitsPart(catalog, keys[..last], codes), part, UnitsOn);
    }
  }

  lemma {:induction false} AddedIsNoEquipment(rules: seq<Rule<Config>>, t: RuleType, facts: Facts)
    requires forall r :: r in rules ==> ValidConfig(r.config)
    ensures SumBy(AddedBy(rules, t, facts), UnitsOn) == 0.0
  {
    if rules != [] {
      var init, last := rules[..|rules| - 1], rules[|rules| - 1];
      assert last in rules;
      AddedIsNoEquipment(init, t, facts);
      SumByConcat(AddedBy(init, t, facts), RuleDrafts(last, t, facts), UnitsOn);
      if RuleDrafts(last, t, facts) != [] {
        OneUnitLine(RuleDrafts(last, t, facts)[0]);
        assert RuleDrafts(last, t, facts) == [RuleDrafts(last, t, facts)[0]];
      }
    }
  }

  /** All of the lines' units, then all of the lines that are not units. */
  function RestDrafts(t: Inputs): seq<QuoteLine>
    requires WellFormed(t.book)
  {
    AddedLines(t) + LaborPart(t).drafts + MarginDrafts(Total(BasePart(t).drafts), t.book) + TaxDrafts(TaxOf(t), t.book)
  }

  lemma Regroup<T>(units: seq<T>, added: seq<T>, labor: seq<T>, margin: seq<T>, tax: seq<T>)
    ensures units + added + labor + margin + tax == units + (added + labor + margin + tax)
  {
  }

  lemma UnitsThenRest(t: Inputs)
    requires WellFormed(t.book)
    ensures AllDrafts(t) == IndoorPart(t).drafts + OutdoorPart(t).drafts + RestDrafts(t)
  {
    var units := IndoorPart(t).drafts + OutdoorPart(t).drafts;
    assert UnitLines(t).drafts == units;
    assert BasePart(t).drafts == units + AddedLines(t) + LaborPart(t).drafts;
    Regroup(units, AddedLines(t), LaborPart(t).drafts, MarginDrafts(Total(BasePart(t).drafts), t.book),
      TaxDrafts(TaxOf(t), t.book));
  }

  lemma RestIsNoEquipment(t: Inputs)
    requires Valid(t)
    ensures SumBy(RestDrafts(t), UnitsOn) == 0.0
  {
    var labor, margin, tax := LaborPart(t).drafts, MarginDrafts(Total(BasePart(t).drafts), t.book),
      TaxDrafts(TaxOf(t), t.book);
    AddedLinesAreNoEquipment(t);
    NoEquipment(labor);
    NoEquipment(margin);
    NoEquipment(tax);
    SumByConcat(AddedLines(t) + labor + margin, tax, UnitsOn);
    SumByConcat(AddedLines(t) + labor, margin, UnitsOn);
    SumByConcat(AddedLines(t), labor, UnitsOn);
  }

  lemma NoEquipment(drafts: seq<QuoteLine>)
    requires |drafts| <= 1 && (drafts != [] ==> !drafts[0].kind.Equipment?)
    ensures SumBy(drafts, UnitsOn) == 0.0
  {
    if drafts != [] {
      OneUnitLine(drafts[0]);
      assert drafts == [drafts[0]];
    }
  }

  lemma AddedLinesAreNoEquipment(t: Inputs)
    requires Valid(t)
    ensures SumBy(AddedLines(t), UnitsOn) == 0.0
  {
    var a, c, f := AddedBy(t.rules, INCLUDED_ALLOWANCE, t.facts), AddedBy(t.rules, CONDITIONAL_SURCHARGE, t.facts),
                   AddedBy(t.rules, FIXED_ADDER, t.facts);
    AddedIsNoEquipment(t.rules, INCLUDED_ALLOWANCE, t.facts);
    AddedIsNoEquipment(t.rules, CONDITIONAL_SURCHARGE, t.facts);
    AddedIsNoEquipment(t.rules, FIXED_ADDER, t.facts);
    SumByConcat(a + c, f, UnitsOn);
    SumByConcat(a, c, UnitsOn);
  }

  lemma UnblockedUnits(t: Inputs)
    requires WellFormed(t.book) && BasePart(t).missing == []
    ensures t.book.indoor.Some? && t.book.outdoor.Some?
    ensures 1 <= UnitCount(t.facts) <= t.book.outdoor.value.maxIndoorUnits
    ensures IndoorPart(t).missing == [] && OutdoorPart(t).missing == []
  {
    assert StartPart(t).missing == [] && IndoorPart(t).missing == [] && OutdoorPart(t).missing == [];
    StartMissing(t);
  }

  lemma StartMissing(t: Inputs)
    requires WellFormed(t.book) && StartPart(t).missing == []
    ensures t.book.indoor.Some? && t.book.outdoor.Some?
    ensures 1 <= UnitCount(t.facts) <= t.book.outdoor.value.maxIndoorUnits
  {
    assert |StartPart(t).missing| ==
      |Unless(UnitCount(t.facts) >= 1, "critical_input.indoor_units_or_areas")|
      + |Unless(t.book.indoor.Some?, "avac.indoor.selection")|
      + |Unless(t.book.outdoor.Some?, "avac.outdoor.selection")|
      + |Unless(!OverCapacity(t), "avac.outdoor.capacity")|;
  }

  lemma IndoorCount(t: Inputs)
    requires WellFormed(t.book) && t.book.indoor.Some? && IndoorPart(t).missing == []
    ensures SumBy(IndoorPart(t).drafts, UnitsOn) == UnitCount(t.facts) as real
  {
    var codes := Codes(t.facts, t.book.indoor.value, UnitCount(t.facts));
    UnitLinesCount(t.catalog, Distinct(codes), codes);
    CountsCoverEveryUnit(codes);
  }

  lemma OutdoorCount(t: Inputs)
    requires WellFormed(t.book) && t.book.outdoor.Some? && OutdoorPart(t).missing == []
    requires 1 <= UnitCount(t.facts) <= t.book.outdoor.value.maxIndoorUnits
    ensures var outdoor := OutdoorPart(t).drafts;
      && SkuByCode(t.catalog, t.book.outdoor.value.skuCode).Some? && |outdoor| == 1 && outdoor[0].quantity == 1.0
      && outdoor[0].skuId == Some(SkuByCode(t.catalog, t.book.outdoor.value.skuCode).value.id)
      && SumBy(outdoor, UnitsOn) == 1.0
  {
    var outdoor := OutdoorPart(t).drafts;
    OneUnitLine(outdoor[0]);
    assert outdoor == [outdoor[0]];
  }

  /**
   An unblocked quote starts with the indoor units, whose quantities add up to the requested count however they are
   grouped, then exactly one outdoor unit that can serve them; no other line is equipment.
   */
  lemma UnblockedServesEveryUnit(t: Inputs)
    requires Valid(t) && !Quoted(t).blocked
    ensures var indoor := IndoorPart(t).drafts;
      && Quoted(t).lines == Numbered(indoor + OutdoorPart(t).drafts + RestDrafts(t))
      && SumBy(indoor, UnitsOn) == UnitCount(t.facts) as real
      && |OutdoorPart(t).drafts| == 1 && OutdoorPart(t).drafts[0].quantity == 1.0
      && SumBy(Quoted(t).lines, UnitsOn) == UnitCount(t.facts) as real + 1.0
    ensures t.book.outdoor.Some? && 1 <= UnitCount(t.facts) <= t.book.outdoor.value.maxIndoorUnits
  {
    UnblockedMeansNothingMissing(t);
    UnblockedUnits(t);
    UnitsThenRest(t);
    IndoorCount(t);
    OutdoorCount(t);
    RestIsNoEquipment(t);
    UnitsOfAll(IndoorPart(t).drafts, OutdoorPart(t).drafts, RestDrafts(t));
  }

  lemma UnitsOfAll(indoor: seq<QuoteLine>, outdoor: seq<QuoteLine>, rest: seq<QuoteLine>)
    ensures SumBy(Numbered(indoor + outdoor + rest), UnitsOn) ==
      SumBy(indoor, UnitsOn) + SumBy(outdoor, UnitsOn) + SumBy(rest, UnitsOn)
  {
    NumberedSum(indoor + outdoor + rest, UnitsOn);
    SumByConcat(indoor + outdoor, rest, UnitsOn);
    SumByConcat(indoor, outdoor, UnitsOn);
  }

  // ---------- Every line ----------

  ghost predicate ValidConfig(c: Config) {
    match c
    case Allowance(_, included, unitPrice, _, kind) => 0.0 <= included && 0 <= unitPrice && !kind.Equipment?
    case Conditional(_, _, _, amount, _, kind) => 0 <= amount && !kind.Equipment?
    case ElectricalPanel(_, amount, _, kind) => 0 <= amount && !kind.Equipment?
    case LaborByUnitCount(rate, hours, _) => 0 <= rate && forall h :: h in hours.Values ==> 0.0 < h
    case Percentage(pct) => 0.0 <= pct <= 100.0
    case _ => true
  }

  /** What the rule schemas and the catalog import admit. */
  ghost predicate Valid(t: Inputs) {
    && WellFormed(t.book)
    && (forall r :: r in t.rules ==> ValidConfig(r.config))
    && (t.book.labor.Some? ==> ValidConfig(t.book.labor.value))
    && (t.book.margin.Some? ==> ValidConfig(t.book.margin.value))
    && (forall s :: s in t.catalog ==> 0 <= s.basePriceMinor)
  }

  lemma FoundUnitsAreSound(catalog: seq<Sku>, code: string, count: nat)
    requires forall s :: s in catalog ==> 0 <= s.basePriceMinor
    ensures AllSound(UnitsPart(catalog, code, count).drafts, catalog)
    ensures SkuByCode(catalog, code).Some? ==>
      Sound(CatalogDraft(SkuByCode(catalog, code).value, SkuByCode(catalog, code).value.name, 1.0, Equipment), catalog)
  {
    if SkuByCode(catalog, code).Some? {
      SkuByCodeFinds(catalog, code);
      var sku := SkuByCode(catalog, code).value;
      UnitLineIsSound(catalog, sku, sku.name, count as real, Equipment);
      UnitLineIsSound(catalog, sku, sku.name, 1.0, Equipment);
    }
  }

  lemma {:induction false} IndoorIsSound(catalog: seq<Sku>, keys: seq<string>, codes: seq<string>)
    requires forall s :: s in catalog ==> 0 <= s.basePriceMinor
    ensures AllSound(AllUnitsPart(catalog, keys, codes).drafts, catalog)
  {
    if keys != [] {
      IndoorIsSound(catalog, keys[..|keys| - 1], codes);
      FoundUnitsAreSound(catalog, keys[|keys| - 1], multiset(codes)[keys[|keys| - 1]]);
    }
  }

  lemma RuleIsSound(rule: Rule<Config>, t: RuleType, facts: Facts, catalog: seq<Sku>)
    requires ValidConfig(rule.config)
    ensures AllSound(RuleDrafts(rule, t, facts), catalog)
  {
    if rule.config.Allowance? && Measured(facts, rule.config.measure).Some? {
      var excess := Max(0.0, Measured(facts, rule.config.measure).value - rule.config.included);
      ProductNonNegative(excess, rule.config.unitPriceMinor as real);
      RoundNonNegative(excess * rule.config.unitPriceMinor as real);
      assert 0.0 <= ExcessDraft(rule.config, excess).amountMinor;
    }
  }

  lemma {:induction false} AddedIsSound(rules: seq<Rule<Config>>, t: RuleType, facts: Facts, catalog: seq<Sku>)
    requires forall r :: r in rules ==> ValidConfig(r.config)
    ensures AllSound(AddedBy(rules, t, facts), catalog)
  {
    if rules != [] {
      AddedIsSound(rules[..|rules| - 1], t, facts, catalog);
      RuleIsSound(rules[|rules| - 1], t, facts, catalog);
    }
  }

  lemma LaborIsSound(t: Inputs)
    requires Valid(t)
    ensures AllSound(LaborPart(t).drafts, t.catalog)
  {
    if t.book.labor.Some? && UnitCount(t.facts) in t.book.labor.value.hours {
      var hours := t.book.labor.value.hours[UnitCount(t.facts)];
      assert hours in t.book.labor.value.hours.Values;
      ProductNonNegative(hours, t.book.labor.value.rateMinor as real);
      assert 0.0 <= LaborDraft(t.book.labor.value, hours).amountMinor;
    }
  }

  lemma UnitsAreSound(t: Inputs)
    requires Valid(t)
    ensures AllSound(UnitLines(t).drafts, t.catalog)
  {
    if t.book.indoor.Some? {
      var codes := Codes(t.facts, t.book.indoor.value, UnitCount(t.facts));
      IndoorIsSound(t.catalog, Distinct(codes), codes);
    }
    if t.book.outdoor.Some? {
      FoundUnitsAreSound(t.catalog, t.book.outdoor.value.skuCode, 1);
    }
  }

  lemma AddedLinesAreSound(t: Inputs)
    requires Valid(t)
    ensures AllSound(AddedLines(t), t.catalog)
  {
    var a, c, f := AddedBy(t.rules, INCLUDED_ALLOWANCE, t.facts), AddedBy(t.rules, CONDITIONAL_SURCHARGE, t.facts),
                   AddedBy(t.rules, FIXED_ADDER, t.facts);
    AddedIsSound(t.rules, INCLUDED_ALLOWANCE, t.facts, t.catalog);
    AddedIsSound(t.rules, CONDITIONAL_SURCHARGE, t.facts, t.catalog);
    AddedIsSound(t.rules, FIXED_ADDER, t.facts, t.catalog);
    SoundConcat(a, c, t.catalog);
    SoundConcat(a + c, f, t.catalog);
  }

  lemma BaseIsSound(t: Inputs)
    requires Valid(t)
    ensures AllSound(BasePart(t).drafts, t.catalog)
  {
    UnitsAreSound(t);
    AddedLinesAreSound(t);
    LaborIsSound(t);
    SoundConcat(UnitLines(t).drafts, AddedLines(t), t.catalog);
    SoundConcat(UnitLines(t).drafts + AddedLines(t), LaborPart(t).drafts, t.catalog);
  }

  lemma MarginIsSound(base: real, t: Inputs)
    requires Valid(t) && 0.0 <= base
    ensures AllSound(MarginDrafts(base, t.book), t.catalog)
  {
    if t.book.margin.Some? {
      PercentNonNegative(base, t.book.margin.value.percentage);
    }
  }

  lemma SubtotalIsSound(t: Inputs)
    requires Valid(t)
    ensures AllSound(WithMargin(t), t.catalog) && 0.0 <= Total(WithMargin(t))
  {
    BaseIsSound(t);
    SoundTotal(BasePart(t).drafts, t.catalog);
    MarginIsSound(Total(BasePart(t).drafts), t);
    SoundConcat(BasePart(t).drafts, MarginDrafts(Total(BasePart(t).drafts), t.book), t.catalog);
    SoundTotal(WithMargin(t), t.catalog);
  }

  /**
   No line before tax is negative, so neither is the subtotal, and every SKU on a line is an active catalog row: in
   euros, if the quote is not blocked.
   */
  lemma LinesAreSound(t: Inputs)
    requires Valid(t)
    ensures AllSound(WithMargin(t), t.catalog)
    ensures 0.0 <= Quoted(t).subtotalMinor
    ensures forall l :: l in Quoted(t).lines && l.skuId.Some? ==> exists s :: ActiveRow(s, l.skuId.value, t.catalog)
  {
    SubtotalIsSound(t);
    NumberedRows(WithMargin(t), TaxDrafts(TaxOf(t), t.book), t.catalog);
  }

  /** Of an unblocked quote, every line with a SKU is backed by an active catalog row in euros. */
  lemma PricedInEuros(t: Inputs, l: QuoteLine)
    requires Valid(t) && UniqueSkus(t.catalog) && !Quoted(t).blocked
    requires l in Quoted(t).lines && l.skuId.Some?
    ensures exists s :: ActiveRow(s, l.skuId.value, t.catalog) && s.currency == STRATOS_CURRENCY
  {
    LinesAreSound(t);
    UnblockedMeansNothingMissing(t);
    EuroRow(Quoted(t).lines, t.catalog, l);
  }

  // ---------- The order of the stored rows ----------

  lemma {:induction false} SameUnits(a: seq<Sku>, b: seq<Sku>, keys: seq<string>, codes: seq<string>)
    requires SameLookups(a, b)
    ensures AllUnitsPart(a, keys, codes) == AllUnitsPart(b, keys, codes)
  {
    if keys != [] {
      SameUnits(a, b, keys[..|keys| - 1], codes);
    }
  }

  lemma SameBase(t: Inputs, u: Inputs)
    requires WellFormed(t.book) && SameLookups(t.catalog, u.catalog) && u == t.(catalog := u.catalog)
    ensures BasePart(t) == BasePart(u)
  {
    if t.book.indoor.Some? {
      var codes := Codes(t.facts, t.book.indoor.value, UnitCount(t.facts));
      SameUnits(t.catalog, u.catalog, Distinct(codes), codes);
    }
    assert UnitLines(t) == UnitLines(u);
  }

  lemma SameClosing(t: Inputs, u: Inputs)
    requires WellFormed(t.book) && u == t.(catalog := u.catalog) && BasePart(t) == BasePart(u)
    ensures WithMargin(t) == WithMargin(u) && TaxOf(t) == TaxOf(u) && AllDrafts(t) == AllDrafts(u)
  {
  }

  lemma SameWhateverTheCatalogOrder(t: Inputs, u: Inputs)
    requires WellFormed(t.book) && u == t.(catalog := u.catalog)
    requires multiset(t.catalog) == multiset(u.catalog) && UniqueSkus(t.catalog)
    ensures Quoted(t) == Quoted(u)
  {
    SameLookupsOfPermutation(t.catalog, u.catalog);
    SameBase(t, u);
    SameClosing(t, u);
    RelevantOfPermutation(Numbered(AllDrafts(t)), t.catalog, u.catalog);
  }

  /** With distinct sort orders and unique SKU ids and codes, the order of the rule and catalog rows does not matter. */
  lemma QuoteIgnoresRowOrder(
    facts: Facts, rules: seq<Rule<Config>>, rules': seq<Rule<Config>>, catalog: seq<Sku>,
    catalog': seq<Sku>, taxRate: Option<real>)
    requires multiset(rules) == multiset(rules') && DistinctKeys(rules, BySortOrder)
    requires multiset(catalog) == multiset(catalog') && UniqueSkus(catalog)
    ensures WellFormed(InputsOf(facts, rules, catalog, taxRate).book) &&
      WellFormed(InputsOf(facts, rules', catalog', taxRate).book)
    ensures Quoted(InputsOf(facts, rules, catalog, taxRate)) == Quoted(InputsOf(facts, rules', catalog', taxRate))
  {
    BookIsWellFormed(ActiveRules(rules, AVAC));
    ActiveRulesOfPermutation(rules, rules', AVAC);
    SameWhateverTheCatalogOrder(InputsOf(facts, rules, catalog, taxRate), InputsOf(facts, rules', catalog', taxRate));
  }
}
