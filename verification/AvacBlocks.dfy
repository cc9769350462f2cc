/** When an AVAC quote is blocked: exactly if the request, the rules or the catalog lack something it needs. */
module AvacBlocks {
  import opened Avac
  import opened InsertionOrder
  import opened VerticalFigures
  import opened VerticalPricing
  import opened Wrappers

  /** Everything the engine asks for is there: units to serve, the rules, a capacity, stocked products, labour hours. */
  ghost predicate HasAllItNeeds(t: Inputs)
    requires WellFormed(t.book)
  {
    && t.book.indoor.Some? && t.book.outdoor.Some? && t.book.labor.Some? && t.book.margin.Some? && t.book.tax.Some?
    && 1 <= UnitCount(t.facts) <= t.book.outdoor.value.maxIndoorUnits
    && UnitCount(t.facts) in t.book.labor.value.hours
    && (forall i :: 0 <= i < UnitCount(t.facts) ==> IsStocked(t.catalog, CodeAt(t.facts, t.book.indoor.value, i)))
    && IsStocked(t.catalog, t.book.outdoor.value.skuCode)
  }

  lemma {:induction false} UnitsStockedIff(catalog: seq<Sku>, keys: seq<string>, codes: seq<string>)
    ensures AllUnitsPart(catalog, keys, codes).missing == [] <==> forall k :: k in keys ==> IsStocked(catalog, k)
  {
    hide IsStocked;
    if keys != [] {
      var init, last := keys[..|keys| - 1], keys[|keys| - 1];
      assert keys == init + [last];
      UnitsStockedIff(catalog, init, codes);
      StockedIff(catalog, last);
    }
  }

  lemma IndoorStockedIff(t: Inputs)
    requires WellFormed(t.book) && t.book.indoor.Some?
    ensures IndoorPart(t).missing == [] <==>
      forall i :: 0 <= i < UnitCount(t.facts) ==> IsStocked(t.catalog, CodeAt(t.facts, t.book.indoor.value, i))
  {
    hide IsStocked, AllUnitsPart, CodeAt;
    var codes := Codes(t.facts, t.book.indoor.value, UnitCount(t.facts));
    UnitsStockedIff(t.catalog, Distinct(codes), codes);
    DistinctKeeps(codes);
    forall i | 0 <= i < UnitCount(t.facts)
      ensures CodeAt(t.facts, t.book.indoor.value, i) in Distinct(codes)
    {
      assert codes[i] == CodeAt(t.facts, t.book.indoor.value, i);
    }
    forall k | k in Distinct(codes)
      ensures exists i :: 0 <= i < UnitCount(t.facts) && k == CodeAt(t.facts, t.book.indoor.value, i)
    {
      var i :| 0 <= i < |codes| && codes[i] == k;
      assert k == CodeAt(t.facts, t.book.indoor.value, i);
    }
  }

  lemma StartIff(t: Inputs)
    requires WellFormed(t.book)
    ensures StartPart(t).missing == [] <==>
      && t.book.indoor.Some? && t.book.outdoor.Some? && 1 <= UnitCount(t.facts) <= t.book.outdoor.value.maxIndoorUnits
  {
    assert |StartPart(t).missing| ==
      |Unless(UnitCount(t.facts) >= 1, "critical_input.indoor_units_or_areas")|
      + |Unless(t.book.indoor.Some?, "avac.indoor.selection")|
      + |Unless(t.book.outdoor.Some?, "avac.outdoor.selection")|
      + |Unless(!OverCapacity(t), "avac.outdoor.capacity")|;
  }

  lemma OutdoorIff(t: Inputs)
    requires WellFormed(t.book) && StartPart(t).missing == []
    ensures t.book.outdoor.Some?
    ensures OutdoorPart(t).missing == [] <==> IsStocked(t.catalog, t.book.outdoor.value.skuCode)
  {
    StartIff(t);
    StockedIff(t.catalog, t.book.outdoor.value.skuCode);
  }

  lemma ClosingIff(book: RuleBook)
    ensures ClosingRoles(book) == [] <==> book.margin.Some? && book.tax.Some?
  {
    assert |ClosingRoles(book)| == |Unless(book.margin.Some?, "avac.margin")| + |Unless(book.tax.Some?, "avac.iva")|;
  }

  lemma NothingOf<T>(a: seq<T>, b: seq<T>)
    ensures a + b == [] <==> a == [] && b == []
  {
  }

  lemma MissingParts(t: Inputs)
    requires WellFormed(t.book)
    ensures BasePart(t).missing == [] <==>
      && StartPart(t).missing == [] && IndoorPart(t).missing == [] && OutdoorPart(t).missing == []
      && LaborPart(t).missing == []
  {
    hide StartPart, IndoorPart, OutdoorPart, LaborPart, AddedLines;
    NothingOf(StartPart(t).missing, IndoorPart(t).missing);
    NothingOf(StartPart(t).missing + IndoorPart(t).missing, OutdoorPart(t).missing);
    NothingOf(UnitLines(t).missing, []);
    NothingOf(UnitLines(t).missing + [], LaborPart(t).missing);
  }

  lemma MissingIff(t: Inputs)
    requires WellFormed(t.book)
    ensures BasePart(t).missing == [] && ClosingRoles(t.book) == [] <==> HasAllItNeeds(t)
  {
    hide BasePart, ClosingRoles, StartPart, IndoorPart, OutdoorPart, IsStocked, UnitCount, CodeAt;
    MissingParts(t);
    ClosingIff(t.book);
    StartIff(t);
    if StartPart(t).missing == [] {
      IndoorStockedIff(t);
      OutdoorIff(t);
    }
  }

  /** A quote is unblocked if and only if everything it needs is there and its products are priced in euros. */
  lemma UnblockedIff(t: Inputs)
    requires WellFormed(t.book)
    ensures !Quoted(t).blocked <==> HasAllItNeeds(t) && IsInEuros(Quoted(t).lines, t.catalog)
    ensures Quoted(t).blocked <==> Quoted(t).missingRules != []
  {
    hide HasAllItNeeds, IsInEuros, BasePart, ClosingRoles, AllEuro, RelevantSkus, MaxLeadTime, TaxOf, AllDrafts, Total,
      WithMargin, Numbered;
    MissingIff(t);
    EurosIff(Quoted(t).lines, t.catalog);
    var euros := Unless(AllEuro(RelevantSkus(Quoted(t).lines, t.catalog)), "catalog.currency_must_be_eur");
    NothingOf(BasePart(t).missing, ClosingRoles(t.book));
    NothingOf(BasePart(t).missing + ClosingRoles(t.book), euros);
  }

  /** A missing rule, count or capacity is named. */
  lemma MissingIsNamed(t: Inputs)
    requires WellFormed(t.book)
    ensures var named := Quoted(t).missingRules;
      && (UnitCount(t.facts) == 0 ==> "critical_input.indoor_units_or_areas" in named)
      && (t.book.indoor.None? ==> "avac.indoor.selection" in named)
      && (t.book.outdoor.None? ==> "avac.outdoor.selection" in named)
      && (t.book.outdoor.Some? && t.book.outdoor.value.maxIndoorUnits < UnitCount(t.facts) ==>
            "avac.outdoor.capacity" in named)
      && (t.book.labor.None? || UnitCount(t.facts) !in t.book.labor.value.hours ==>
            "avac.installation.labor" in named)
      && (t.book.margin.None? ==> "avac.margin" in named) && (t.book.tax.None? ==> "avac.iva" in named)
  {
    hide IndoorPart, OutdoorPart, AddedLines, AllEuro, RelevantSkus, MaxLeadTime, TaxOf, AllDrafts, Total, WithMargin,
      Numbered, UnitCount;
    var start := StartPart(t).missing;
    var before := start + IndoorPart(t).missing + OutdoorPart(t).missing + [];
    assert BasePart(t).missing == before + LaborPart(t).missing;
    assert forall n :: n in start ==> n in before;
    assert forall n :: n in before || n in LaborPart(t).missing ==> n in BasePart(t).missing;
    assert forall n :: n in BasePart(t).missing || n in ClosingRoles(t.book) ==> n in Quoted(t).missingRules;
    StartNames(t);
    ClosingNames(t.book);
  }

  lemma StartNames(t: Inputs)
    requires WellFormed(t.book)
    ensures var named := StartPart(t).missing;
      && (UnitCount(t.facts) == 0 ==> "critical_input.indoor_units_or_areas" in named)
      && (t.book.indoor.None? ==> "avac.indoor.selection" in named)
      && (t.book.outdoor.None? ==> "avac.outdoor.selection" in named)
      && (t.book.outdoor.Some? && t.book.outdoor.value.maxIndoorUnits < UnitCount(t.facts) ==>
            "avac.outdoor.capacity" in named)
  {
  }

  lemma ClosingNames(book: RuleBook)
    ensures (book.margin.None? ==> "avac.margin" in ClosingRoles(book))
    ensures (book.tax.None? ==> "avac.iva" in ClosingRoles(book))
  {
  }
}
