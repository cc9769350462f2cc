/**
 When a caixilharia quote is blocked: exactly if an opening, the rules or the catalog lack something it needs, or its
 products are not all priced in euros.
 */
module CaixilhariaBlocks {
  import opened Caixilharia
  import opened CaixilhariaFigures
  import opened CaixilhariaQuotes
  import opened InsertionOrder
  import opened VerticalFigures
  import opened VerticalPricing
  import opened Wrappers

  /** Every rule that every quote needs, whatever the request says. */
  ghost predicate HasItsRules(book: RuleBook) {
    && book.profile.Some? && book.glass.Some? && book.hardware.Some? && book.blind.Some? && book.screen.Some?
    && book.minimumArea.Some? && book.labor.Some? && book.margin.Some? && book.discount.Some? && book.tax.Some?
  }

  /** The code the preference of an opening selects is stocked. */
  ghost predicate HasChoice(
    preference: Option<string>, selections: seq<Selection>, fallback: string, t: Inputs)
  {
    exists code :: IsChosen(code, preference, selections, fallback, t.contains) && IsStocked(t.catalog, code)
  }

  /** An opening can be priced: it is measured and of a known type, and what it is made of is ruled on and stocked. */
  ghost predicate CanBePriced(o: Opening, t: Inputs)
    requires WellFormed(t.book) && HasItsRules(t.book)
  {
    && o.widthMm.Some? && o.heightMm.Some? && o.openingType.Some?
    && (o.blind == Some(true) ==> IsStocked(t.catalog, t.book.blind.value.skuCode))
    && (o.insectScreen == Some(true) ==> IsStocked(t.catalog, t.book.screen.value.skuCode))
    && var profile, glass, hardware := t.book.profile.value, t.book.glass.value, t.book.hardware.value;
       && HasChoice(o.profilePreference, profile.selections, profile.defaultSkuCode, t)
       && o.openingType.value in profile.multipliers
       && HasChoice(o.glassPreference, glass.selections, glass.defaultSkuCode, t)
       && (o.openingType.value != Fixo ==>
             && o.openingType.value in hardware.skuByOpeningType
             && IsStocked(t.catalog, hardware.skuByOpeningType[o.openingType.value]))
  }

  /** The work can be priced. */
  ghost predicate WorkCanBePriced(t: Inputs)
    requires WellFormed(t.book) && HasItsRules(t.book)
  {
    && (OpeningCount(t.extraction.openings) > 0 ==> IsStocked(t.catalog, t.book.labor.value.skuCode))
    && (t.extraction.removeExisting == Some(true) ==> t.book.removal.Some?)
    && (t.extraction.distanceKm.Some? ==>
          && t.book.transport.Some?
          && (t.extraction.distanceKm.value > t.book.transport.value.includedKm ==>
                IsStocked(t.catalog, t.book.transport.value.skuCode)))
  }

  // ---------- The chosen code ----------

  lemma ChosenIsSelected(
    code: string, preference: Option<string>, selections: seq<Selection>, fallback: string,
    contains: (string, string) -> bool)
    requires IsChosen(code, preference, selections, fallback, contains)
    ensures code == SelectSkuCode(preference, selections, fallback, contains)
  {
    if preference.Some? {
      FirstMatchingSelection(selections, preference.value, contains);
      KeywordsMentioned(selections, preference.value, contains);
    }
  }

  lemma ChoiceIff(preference: Option<string>, selections: seq<Selection>, fallback: string, t: Inputs)
    ensures HasChoice(preference, selections, fallback, t) <==>
      SkuByCode(t.catalog, SelectSkuCode(preference, selections, fallback, t.contains)).Some?
  {
    hide IsChosen, IsStocked;
    var code := SelectSkuCode(preference, selections, fallback, t.contains);
    SelectedIsChosen(preference, selections, fallback, t.contains);
    StockedIff(t.catalog, code);
    if HasChoice(preference, selections, fallback, t) {
      var other :| IsChosen(other, preference, selections, fallback, t.contains) && IsStocked(t.catalog, other);
      ChosenIsSelected(other, preference, selections, fallback, t.contains);
    }
  }

  // ---------- One opening ----------

  lemma NothingOf<T>(a: seq<T>, b: seq<T>)
    ensures a + b == [] <==> a == [] && b == []
  {
  }

  lemma CriticalIff(o: Opening)
    ensures CriticalPart(o).missing == [] <==> o.widthMm.Some? && o.heightMm.Some? && o.openingType.Some?
  {
    assert |CriticalPart(o).missing| ==
      |Unless(o.widthMm.Some?, "critical_input.openings." + o.ref + ".width_mm")|
      + |Unless(o.heightMm.Some?, "critical_input.openings." + o.ref + ".height_mm")|
      + |Unless(o.openingType.Some?, "critical_input.openings." + o.ref + ".opening_type")|;
  }

  lemma FrameIff(o: Opening, t: Inputs)
    requires Measured(o) && o.openingType.Some? && WellFormed(t.book) && HasItsRules(t.book)
    ensures var profile, glass, hardware := t.book.profile.value, t.book.glass.value, t.book.hardware.value;
      && (ProfilePart(o, t).missing == [] <==>
            && HasChoice(o.profilePreference, profile.selections, profile.defaultSkuCode, t)
            && o.openingType.value in profile.multipliers)
      && (GlassPart(o, t).missing == [] <==>
            HasChoice(o.glassPreference, glass.selections, glass.defaultSkuCode, t))
      && (HardwarePart(o, t).missing == [] <==>
            o.openingType.value != Fixo ==>
              && o.openingType.value in hardware.skuByOpeningType
              && IsStocked(t.catalog, hardware.skuByOpeningType[o.openingType.value]))
  {
    hide HasChoice, IsStocked, SelectSkuCode;
    var profile, glass, hardware := t.book.profile.value, t.book.glass.value, t.book.hardware.value;
    ChoiceIff(o.profilePreference, profile.selections, profile.defaultSkuCode, t);
    ChoiceIff(o.glassPreference, glass.selections, glass.defaultSkuCode, t);
    if o.openingType.value in hardware.skuByOpeningType {
      StockedIff(t.catalog, hardware.skuByOpeningType[o.openingType.value]);
    }
  }

  lemma ExtrasIff(o: Opening, t: Inputs)
    requires Measured(o) && WellFormed(t.book) && HasItsRules(t.book)
    ensures BlindPart(o, t).missing == [] <==>
      (o.blind == Some(true) ==> IsStocked(t.catalog, t.book.blind.value.skuCode))
    ensures ScreenPart(o, t).missing == [] <==>
      (o.insectScreen == Some(true) ==> IsStocked(t.catalog, t.book.screen.value.skuCode))
  {
    hide IsStocked;
    StockedIff(t.catalog, t.book.blind.value.skuCode);
    StockedIff(t.catalog, t.book.screen.value.skuCode);
  }

  lemma OpeningMissing(o: Opening, t: Inputs)
    requires Measured(o) && WellFormed(t.book)
    ensures OpeningPart(o, t).missing == [] <==>
      && CriticalPart(o).missing == [] && ProfilePart(o, t).missing == [] && GlassPart(o, t).missing == []
      && HardwarePart(o, t).missing == [] && BlindPart(o, t).missing == [] && ScreenPart(o, t).missing == []
  {
    hide CriticalPart, ProfilePart, GlassPart, HardwarePart, BlindPart, ScreenPart;
    var c, p, g, h, b, s :=
      CriticalPart(o).missing, ProfilePart(o, t).missing, GlassPart(o, t).missing, HardwarePart(o, t).missing,
      BlindPart(o, t).missing, ScreenPart(o, t).missing;
    assert OpeningPart(o, t).missing == c + p + g + h + b + s;
    assert |c + p + g + h + b + s| == |c| + |p| + |g| + |h| + |b| + |s|;
  }

  lemma OpeningIff(o: Opening, t: Inputs)
    requires WellFormed(t.book) && HasItsRules(t.book)
    ensures OpeningPart(o, t).missing == [] <==> CanBePriced(o, t)
  {
    hide CriticalPart, ProfilePart, GlassPart, HardwarePart, BlindPart, ScreenPart, HasChoice, IsStocked;
    CriticalIff(o);
    if Measured(o) {
      OpeningMissing(o, t);
      ExtrasIff(o, t);
      if o.openingType.Some? {
        FrameIff(o, t);
      }
    }
  }

  // ---------- The whole quote ----------

  lemma RolesIff(book: RuleBook)
    ensures Roles(book) == [] && ClosingRoles(book) == [] <==> HasItsRules(book)
  {
    FrameRolesIff(book);
    ExtraRolesIff(book);
    ClosingIff(book);
    NothingOf(FrameRoles(book), ExtraRoles(book));
  }

  lemma FrameRolesIff(book: RuleBook)
    ensures FrameRoles(book) == [] <==> book.profile.Some? && book.glass.Some? && book.hardware.Some?
  {
    assert |FrameRoles(book)| ==
      |Unless(book.profile.Some?, "caixilharia.profile")| + |Unless(book.glass.Some?, "caixilharia.glass")|
      + |Unless(book.hardware.Some?, "caixilharia.hardware")|;
  }

  lemma ExtraRolesIff(book: RuleBook)
    ensures ExtraRoles(book) == [] <==>
      book.blind.Some? && book.screen.Some? && book.minimumArea.Some? && book.labor.Some?
  {
    assert |ExtraRoles(book)| ==
      |Unless(book.blind.Some?, "caixilharia.blind")| + |Unless(book.screen.Some?, "caixilharia.insect_screen")|
      + |Unless(book.minimumArea.Some?, "caixilharia.minimum_billable_area")|
      + |Unless(book.labor.Some?, "caixilharia.installation.labor")|;
  }

  lemma ClosingIff(book: RuleBook)
    ensures ClosingRoles(book) == [] <==> book.margin.Some? && book.discount.Some? && book.tax.Some?
  {
    assert |ClosingRoles(book)| ==
      |Unless(book.margin.Some?, "caixilharia.margin")| + |Unless(book.discount.Some?, "caixilharia.area_discount")|
      + |Unless(book.tax.Some?, "caixilharia.iva")|;
  }

  lemma {:induction false} OpeningsIff(openings: seq<Opening>, t: Inputs)
    requires WellFormed(t.book)
    ensures OpeningsPart(openings, t).missing == [] <==>
      Roles(t.book) == [] && forall o :: o in openings ==> OpeningPart(o, t).missing == []
  {
    hide OpeningPart, Roles;
    if openings != [] {
      var init, last := openings[..|openings| - 1], openings[|openings| - 1];
      assert openings == init + [last];
      OpeningsIff(init, t);
      NothingOf(OpeningsPart(init, t).missing, OpeningPart(last, t).missing);
    }
  }

  lemma WorkIff(t: Inputs)
    requires WellFormed(t.book) && HasItsRules(t.book)
    ensures LaborPart(t).missing == [] && RemovalPart(t).missing == [] && TransportPart(t).missing == [] <==>
      WorkCanBePriced(t)
  {
    hide IsStocked, OpeningCount;
    StockedIff(t.catalog, t.book.labor.value.skuCode);
    if t.book.transport.Some? {
      StockedIff(t.catalog, t.book.transport.value.skuCode);
    }
  }

  lemma MissingParts(t: Inputs)
    requires WellFormed(t.book)
    ensures BasePart(t).missing == [] <==>
      && OpeningsPart(t.extraction.openings, t).missing == [] && LaborPart(t).missing == []
      && RemovalPart(t).missing == [] && TransportPart(t).missing == []
  {
    hide OpeningsPart, LaborPart, RemovalPart, TransportPart;
    NothingOf(OpeningsPart(t.extraction.openings, t).missing, LaborPart(t).missing);
    NothingOf(OpeningsPart(t.extraction.openings, t).missing + LaborPart(t).missing, RemovalPart(t).missing);
    NothingOf(
      OpeningsPart(t.extraction.openings, t).missing + LaborPart(t).missing + RemovalPart(t).missing,
      TransportPart(t).missing);
  }

  ghost predicate HasAllItNeeds(t: Inputs)
    requires WellFormed(t.book)
  {
    HasItsRules(t.book) && (forall o :: o in t.extraction.openings ==> CanBePriced(o, t)) && WorkCanBePriced(t)
  }

  lemma MissingIff(t: Inputs)
    requires WellFormed(t.book)
    ensures BasePart(t).missing == [] && ClosingRoles(t.book) == [] <==> HasAllItNeeds(t)
  {
    hide BasePart, ClosingRoles, Roles, OpeningsPart, OpeningPart, LaborPart, RemovalPart, TransportPart, HasItsRules,
      CanBePriced, WorkCanBePriced;
    MissingParts(t);
    RolesIff(t.book);
    OpeningsIff(t.extraction.openings, t);
    if HasItsRules(t.book) {
      WorkIff(t);
      forall o | o in t.extraction.openings
        ensures OpeningPart(o, t).missing == [] <==> CanBePriced(o, t)
      {
        OpeningIff(o, t);
      }
    }
  }

  lemma CurrencyIff(lines: seq<QuoteLine>, catalog: seq<Sku>)
    ensures CurrencyProblems(RelevantSkus(lines, catalog)) == [] <==> IsInEuros(lines, catalog)
  {
    hide IsInEuros, RelevantSkus;
    var skus := RelevantSkus(lines, catalog);
    EurosIff(lines, catalog);
    assert |CurrencyProblems(skus)| ==
      |Unless(!ManyCurrencies(skus), "catalog.currency_mismatch")|
      + |Unless(AllEuro(skus), "catalog.currency_must_be_eur")|;
  }

  /** A quote is unblocked if and only if everything it needs is there and its products are priced in euros. */
  lemma UnblockedIff(t: Inputs)
    requires WellFormed(t.book)
    ensures !Quoted(t).blocked <==> HasAllItNeeds(t) && IsInEuros(Quoted(t).lines, t.catalog)
    ensures Quoted(t).blocked <==> Quoted(t).missingRules != []
  {
    hide HasAllItNeeds, IsInEuros, BasePart, ClosingRoles, CurrencyProblems, RelevantSkus, MaxLeadTime, TaxOf,
      AllDrafts, Total, WithMargin, Numbered, Discount, Distinct;
    var lines := Quoted(t).lines;
    var currency := CurrencyProblems(RelevantSkus(lines, t.catalog));
    var missing := BasePart(t).missing + ClosingRoles(t.book) + currency;
    MissingIff(t);
    CurrencyIff(lines, t.catalog);
    NothingOf(BasePart(t).missing, ClosingRoles(t.book));
    NothingOf(BasePart(t).missing + ClosingRoles(t.book), currency);
    DistinctKeeps(missing);
    if missing != [] {
      assert missing[0] in Distinct(missing);
    }
    if Distinct(missing) != [] {
      assert Distinct(missing)[0] in missing;
    }
  }

  // ---------- Names ----------

  lemma FrameNames(book: RuleBook)
    ensures var named := FrameRoles(book);
      && (book.profile.None? ==> "caixilharia.profile" in named)
      && (book.glass.None? ==> "caixilharia.glass" in named)
      && (book.hardware.None? ==> "caixilharia.hardware" in named)
  {
  }

  lemma ExtraNames(book: RuleBook)
    ensures var named := ExtraRoles(book);
      && (book.blind.None? ==> "caixilharia.blind" in named)
      && (book.screen.None? ==> "caixilharia.insect_screen" in named)
      && (book.minimumArea.None? ==> "caixilharia.minimum_billable_area" in named)
      && (book.labor.None? ==> "caixilharia.installation.labor" in named)
  {
  }

  lemma ClosingNames(book: RuleBook)
    ensures var named := ClosingRoles(book);
      && (book.margin.None? ==> "caixilharia.margin" in named)
      && (book.discount.None? ==> "caixilharia.area_discount" in named)
      && (book.tax.None? ==> "caixilharia.iva" in named)
  {
  }

  lemma {:induction false} RolesAreReported(openings: seq<Opening>, t: Inputs)
    requires WellFormed(t.book)
    ensures forall n :: n in Roles(t.book) ==> n in OpeningsPart(openings, t).missing
  {
    hide Roles, OpeningPart;
    if openings != [] {
      RolesAreReported(openings[..|openings| - 1], t);
    }
  }

  /** A missing rule is named. */
  lemma MissingIsNamed(t: Inputs)
    requires WellFormed(t.book)
    ensures forall n :: n in FrameRoles(t.book) || n in ExtraRoles(t.book) || n in ClosingRoles(t.book) ==>
      n in Quoted(t).missingRules
  {
    hide OpeningsPart, LaborPart, RemovalPart, TransportPart, FrameRoles, ExtraRoles, ClosingRoles, CurrencyProblems,
      RelevantSkus, MaxLeadTime, TaxOf, AllDrafts, Total, WithMargin, Numbered, Discount, Distinct;
    var currency := CurrencyProblems(RelevantSkus(Quoted(t).lines, t.catalog));
    RolesAreReported(t.extraction.openings, t);
    assert forall n :: n in Roles(t.book) ==> n in BasePart(t).missing;
    DistinctKeeps(BasePart(t).missing + ClosingRoles(t.book) + currency);
  }

  lemma CurrenciesNamed(skus: seq<Sku>)
    ensures "catalog.currency_mismatch" in CurrencyProblems(skus) <==>
      exists a, b :: a in skus && b in skus && a.currency != b.currency
    ensures "catalog.currency_must_be_eur" in CurrencyProblems(skus) <==> exists a :: a in skus && a.currency != "EUR"
  {
    if a, b :| a in skus && b in skus && a.currency != b.currency {
      var i :| 0 <= i < |skus| && skus[i] == a;
      var j :| 0 <= j < |skus| && skus[j] == b;
      assert ManyCurrencies(skus) by {
        if i < j {
          assert skus[i].currency != skus[j].currency;
        } else {
          assert skus[j].currency != skus[i].currency;
        }
      }
    }
  }

  /** And so is a second currency among its products, and one that is not the euro. */
  lemma CurrencyIsNamed(t: Inputs)
    requires WellFormed(t.book)
    ensures var named, skus := Quoted(t).missingRules, RelevantSkus(Quoted(t).lines, t.catalog);
      && ((exists a, b :: a in skus && b in skus && a.currency != b.currency) ==> "catalog.currency_mismatch" in named)
      && ((exists a :: a in skus && a.currency != "EUR") ==> "catalog.currency_must_be_eur" in named)
  {
    hide BasePart, ClosingRoles, CurrencyProblems, RelevantSkus, MaxLeadTime, TaxOf, AllDrafts, Total, WithMargin,
      Numbered, Discount, Distinct;
    var skus := RelevantSkus(Quoted(t).lines, t.catalog);
    CurrenciesNamed(skus);
    DistinctKeeps(BasePart(t).missing + ClosingRoles(t.book) + CurrencyProblems(skus));
  }
}
