/**
 A caixilharia quote by its figures: which rules it comes from, what each opening, the work, margin, discount and tax
 are billed at, read off the returned lines and totals.
 */
module CaixilhariaFigures {
  import opened Caixilharia
  import opened CaixilhariaDiscount
  import opened CaixilhariaQuotes
  import opened InsertionOrder
  import opened Rounding
  import opened Sums
  import opened Text
  import opened VerticalFigures
  import opened VerticalPricing
  import opened Wrappers

  // ---------- Where the rules come from ----------

  /** Every role of the book is filled by the stored rules of its own type. */
  lemma BookComesFromTheRules(e: Extraction, all: seq<Rule<Config>>, catalog: seq<Sku>,
      contains: (string, string) -> bool, taxRate: Option<real>)
    ensures var b := InputsOf(e, all, catalog, contains, taxRate).book;
      && ComesFrom(b.profile, all, CAIXILHARIA, CATALOG_UNIT, IsProfile)
      && ComesFrom(b.glass, all, CAIXILHARIA, CATALOG_UNIT, IsGlass)
      && ComesFrom(b.hardware, all, CAIXILHARIA, CATALOG_UNIT, IsHardware)
      && ComesFrom(b.blind, all, CAIXILHARIA, CATALOG_UNIT, IsBlind)
      && ComesFrom(b.screen, all, CAIXILHARIA, CATALOG_UNIT, IsScreen)
      && ComesFrom(b.minimumArea, all, CAIXILHARIA, FIXED_ADDER, IsMinimumArea)
  {
    hide ComesFrom;
    FirstComesFrom(all, CAIXILHARIA, CATALOG_UNIT, IsProfile);
    FirstComesFrom(all, CAIXILHARIA, CATALOG_UNIT, IsGlass);
    FirstComesFrom(all, CAIXILHARIA, CATALOG_UNIT, IsHardware);
    FirstComesFrom(all, CAIXILHARIA, CATALOG_UNIT, IsBlind);
    FirstComesFrom(all, CAIXILHARIA, CATALOG_UNIT, IsScreen);
    FirstComesFrom(all, CAIXILHARIA, FIXED_ADDER, IsMinimumArea);
  }

  lemma WorkComesFromTheRules(e: Extraction, all: seq<Rule<Config>>, catalog: seq<Sku>,
      contains: (string, string) -> bool, taxRate: Option<real>)
    ensures var b := InputsOf(e, all, catalog, contains, taxRate).book;
      && ComesFrom(b.labor, all, CAIXILHARIA, LABOR_HOURS, IsLabor)
      && ComesFrom(b.removal, all, CAIXILHARIA, FIXED_ADDER, IsRemoval)
      && ComesFrom(b.transport, all, CAIXILHARIA, CONDITIONAL_SURCHARGE, IsTransport)
      && ComesFrom(b.margin, all, CAIXILHARIA, MARGIN_MARKUP, IsPercentage)
      && ComesFrom(b.discount, all, CAIXILHARIA, QTY_BREAK, IsAreaDiscount)
      && ComesFrom(b.tax, all, CAIXILHARIA, TAX, IsPercentage)
  {
    hide ComesFrom;
    FirstComesFrom(all, CAIXILHARIA, LABOR_HOURS, IsLabor);
    FirstComesFrom(all, CAIXILHARIA, FIXED_ADDER, IsRemoval);
    FirstComesFrom(all, CAIXILHARIA, CONDITIONAL_SURCHARGE, IsTransport);
    FirstComesFrom(all, CAIXILHARIA, MARGIN_MARKUP, IsPercentage);
    FirstComesFrom(all, CAIXILHARIA, QTY_BREAK, IsAreaDiscount);
    FirstComesFrom(all, CAIXILHARIA, TAX, IsPercentage);
  }

  // ---------- The totals ----------

  /** The tax percentage: the given rate, else the rule's, else none. */
  function DueTax(t: Inputs): real
    requires WellFormed(t.book)
  {
    if t.taxRate.Some? then 100.0 * t.taxRate.value
    else if t.book.tax.Some? then t.book.tax.value.percentage else 0.0
  }

  /** The discount percentage: that of the largest threshold the total area exceeds. */
  function DueDiscount(t: Inputs, area: real): real
    requires WellFormed(t.book)
  {
    if t.book.discount.None? then 0.0
    else
      match LargestExceeded(t.book.discount.value.thresholds, area)
      case None => 0.0
      case Some(threshold) => threshold.percentage
  }

  lemma DiscountIsDue(t: Inputs, area: real)
    requires WellFormed(t.book)
    ensures DiscountPercentage(t.book.discount, area) == DueDiscount(t, area)
  {
    if t.book.discount.Some? {
      SearchFindsTheLargest(t.book.discount.value.thresholds, area);
    }
  }

  lemma TaxIsDue(t: Inputs)
    requires WellFormed(t.book)
    ensures IsPercent(TaxOf(t), DueTax(t), Total(WithMargin(t)) - Discount(t) as real)
  {
    hide IsPercent, PercentOf, WithMargin, Discount;
    var taxable := Total(WithMargin(t)) - Discount(t) as real;
    PercentOfIsPercent(taxable, DueTax(t));
    NoneOfNothing(taxable);
    assert TaxPercentage(t).Some? ==> TaxPercentage(t).value == DueTax(t);
  }

  lemma NoneOfNothing(base: real)
    ensures IsPercent(0, 0.0, base)
  {
  }

  lemma DiscountIsPercent(t: Inputs)
    requires WellFormed(t.book)
    ensures IsPercent(Discount(t), DueDiscount(t, TotalArea(t.extraction.openings)), Total(WithMargin(t)))
  {
    hide IsPercent, PercentOf, WithMargin, DueDiscount, DiscountPercentage;
    DiscountIsDue(t, TotalArea(t.extraction.openings));
    PercentOfIsPercent(Total(WithMargin(t)), DueDiscount(t, TotalArea(t.extraction.openings)));
  }

  /** Discount, tax and total by the subtotal; the lead time by the products; the currency is the euro. */
  lemma TotalsAreDue(t: Inputs)
    requires WellFormed(t.book)
    ensures var q := Quoted(t);
      && IsPercent(q.discountMinor, DueDiscount(t, q.totalAreaM2), q.subtotalMinor)
      && IsPercent(q.taxMinor, DueTax(t), q.subtotalMinor - q.discountMinor as real)
      && q.totalMinor == q.subtotalMinor - q.discountMinor as real + q.taxMinor as real
      && q.currency == "EUR" && IsSlowestOn(q.lines, t.catalog, q.leadTimeDays)
  {
    hide IsPercent, IsSlowestOn, DueDiscount, DueTax, WithMargin, Discount, TaxOf, AllDrafts, Numbered, RelevantSkus,
      MaxLeadTime, Distinct, ClosingRoles, CurrencyProblems, BasePart, TotalArea, Total;
    DiscountIsPercent(t);
    TaxIsDue(t);
    LeadTimeIsOfTheSlowest(Quoted(t).lines, t.catalog);
  }

  /** The subtotal is the lines before the margin plus the margin, its percentage of them; the tax comes last. */
  lemma SubtotalIsDue(t: Inputs) returns (before: seq<QuoteLine>, margin: seq<QuoteLine>, tax: seq<QuoteLine>)
    requires WellFormed(t.book)
    ensures var q := Quoted(t);
      && q.lines == Numbered(before + margin + tax)
      && IsMarginOf(margin, before, if t.book.margin.Some? then Some(t.book.margin.value.percentage) else None)
      && q.subtotalMinor == Total(before) + Total(margin)
      && IsTaxLine(tax, q.taxMinor, t.book.tax.Some?)
      && forall l :: l in before ==> l.kind != Margin && l.kind != Tax
  {
    hide BasePart, Discount, TaxPercentage, TaxOn, RelevantSkus, MaxLeadTime, Distinct, ClosingRoles, CurrencyProblems,
      TotalArea, Total;
    before := BasePart(t).drafts;
    margin := MarginDrafts(Total(before), t.book);
    tax := TaxDrafts(TaxOf(t), t.book);
    TotalOfBoth(before, margin);
    NoMarginBefore(t);
    if t.book.margin.Some? {
      var amount := PercentOf(Total(before), t.book.margin.value.percentage);
      PercentOfIsPercent(Total(before), t.book.margin.value.percentage);
      assert (amount as real).Floor == amount;
    }
  }

  lemma TotalOfBoth(a: seq<QuoteLine>, b: seq<QuoteLine>)
    ensures Total(a + b) == Total(a) + Total(b)
  {
    SumByConcat(a, b, AmountOf);
  }

  ghost predicate IsWorkOrGoods(lines: seq<QuoteLine>) {
    forall l :: l in lines ==> l.kind != Margin && l.kind != Tax
  }

  lemma {:induction false} OpeningsAreGoods(openings: seq<Opening>, t: Inputs)
    requires WellFormed(t.book)
    ensures forall l :: l in OpeningsPart(openings, t).drafts ==> l.kind == Material || l.kind == Equipment
  {
    if openings != [] {
      OpeningsAreGoods(openings[..|openings| - 1], t);
      OpeningIsGoods(openings[|openings| - 1], t);
    }
  }

  ghost predicate AllGoods(lines: seq<QuoteLine>) {
    forall i :: 0 <= i < |lines| ==> lines[i].kind == Material || lines[i].kind == Equipment
  }

  lemma OpeningIsGoods(o: Opening, t: Inputs)
    requires WellFormed(t.book)
    ensures forall l :: l in OpeningPart(o, t).drafts ==> l.kind == Material || l.kind == Equipment
  {
    if Measured(o) {
      hide ProfilePart, GlassPart, HardwarePart, BlindPart, ScreenPart;
      FrameIsGoods(o, t);
      ExtrasAreGoods(o, t);
      assert AllGoods(OpeningPart(o, t).drafts);
    }
  }

  lemma FrameIsGoods(o: Opening, t: Inputs)
    requires WellFormed(t.book) && Measured(o)
    ensures AllGoods(ProfilePart(o, t).drafts) && AllGoods(GlassPart(o, t).drafts)
  {
    hide Billable, SelectSkuCode, SkuByCode, Label;
  }

  lemma ExtrasAreGoods(o: Opening, t: Inputs)
    requires WellFormed(t.book) && Measured(o)
    ensures AllGoods(HardwarePart(o, t).drafts) && AllGoods(BlindPart(o, t).drafts) && AllGoods(ScreenPart(o, t).drafts)
  {
    hide Billable, SkuByCode, Label;
  }

  lemma NoMarginBefore(t: Inputs)
    requires WellFormed(t.book)
    ensures IsWorkOrGoods(BasePart(t).drafts)
  {
    hide OpeningsPart;
    OpeningsAreGoods(t.extraction.openings, t);
  }

  // ---------- Areas ----------

  /** An opening's area is width times height in square metres, to four decimals. */
  lemma AreaIsNear(o: Opening)
    requires Measured(o)
    ensures -0.00005 <= Area(o) - (o.widthMm.value * o.heightMm.value) as real / 1000000.0 <= 0.00005
  {
    RoundNear((o.widthMm.value * o.heightMm.value) as real / 1000000.0 * 10000.0);
  }

  /** What is billed for it: the larger of its area and the minimum, times its quantity, to four decimals. */
  lemma BillableIsTheLarger(o: Opening, t: Inputs)
    requires Measured(o) && WellFormed(t.book)
    ensures var each := if t.book.minimumArea.Some? && t.book.minimumArea.value.areaM2 > Area(o)
                        then t.book.minimumArea.value.areaM2 else Area(o);
      -0.00005 <= Billable(o, t.book.minimumArea) - each * o.quantity as real <= 0.00005
  {
    RoundNear(Times(BillableEach(o, t.book.minimumArea), o.quantity) * 10000.0);
  }

  // ---------- One opening ----------

  /** The line bills an area of a SKU: the unit price is the multiplied catalog price, the amount area times it. */
  ghost predicate BillsArea(l: QuoteLine, o: Opening, sku: Sku, area: real, multiplier: real) {
    && l.skuId == Some(sku.id) && l.description == o.ref + " \U{2014} " + sku.name && l.kind == Material
    && l.quantity == area
    && -0.5 <= l.unitPriceMinor - multiplier * sku.basePriceMinor as real <= 0.5
    && -0.5 <= l.amountMinor - area * l.unitPriceMinor <= 0.5
  }

  lemma AreaDraftBills(o: Opening, sku: Sku, area: real, multiplier: real)
    ensures BillsArea(AreaDraft(o, sku, area, multiplier), o, sku, area, multiplier)
  {
    var unit := Round(Times(multiplier, sku.basePriceMinor));
    RoundNear(Times(multiplier, sku.basePriceMinor));
    RoundNear(Times(area, unit));
  }

  /** The preference contains one of the keywords. */
  ghost predicate Mentions(preference: string, keywords: seq<string>, contains: (string, string) -> bool) {
    exists k :: k in keywords && contains(preference, k)
  }

  /** The code a preference selects: the first selection with a keyword in it, the default without one. */
  ghost predicate IsChosen(
    code: string, preference: Option<string>, selections: seq<Selection>, fallback: string,
    contains: (string, string) -> bool)
  {
    || (code == fallback &&
          (preference.None? || forall s :: s in selections ==> !Mentions(preference.value, s.keywords, contains)))
    || (preference.Some? && exists i ::
          && 0 <= i < |selections| && selections[i].skuCode == code
          && Mentions(preference.value, selections[i].keywords, contains)
          && forall j :: 0 <= j < i ==> !Mentions(preference.value, selections[j].keywords, contains))
  }

  lemma SelectedIsChosen(
    preference: Option<string>, selections: seq<Selection>, fallback: string, contains: (string, string) -> bool)
    ensures IsChosen(
      SelectSkuCode(preference, selections, fallback, contains), preference, selections, fallback, contains)
  {
    if preference.Some? {
      FirstMatchingSelection(selections, preference.value, contains);
      KeywordsMentioned(selections, preference.value, contains);
    }
  }

  lemma KeywordsMentioned(selections: seq<Selection>, preference: string, contains: (string, string) -> bool)
    ensures forall s :: s in selections ==>
      (AnyKeyword(s.keywords, preference, contains) <==> Mentions(preference, s.keywords, contains))
  {
  }

  /** An active row of the code. */
  ghost predicate IsRowOf(sku: Sku, code: string, catalog: seq<Sku>) {
    sku in catalog && sku.active && sku.code == code
  }

  /** A profile line at the multiplier of the opening's type. */
  ghost predicate IsProfileOf(l: QuoteLine, o: Opening, t: Inputs)
    requires Measured(o) && WellFormed(t.book)
  {
    && t.book.profile.Some? && o.openingType.Some? && o.openingType.value in t.book.profile.value.multipliers
    && exists sku: Sku ::
         && IsChosen(sku.code, o.profilePreference, t.book.profile.value.selections,
              t.book.profile.value.defaultSkuCode, t.contains)
         && IsRowOf(sku, sku.code, t.catalog)
         && BillsArea(l, o, sku, Billable(o, t.book.minimumArea), t.book.profile.value.multipliers[o.openingType.value])
  }

  ghost predicate IsGlassOf(l: QuoteLine, o: Opening, t: Inputs)
    requires Measured(o) && WellFormed(t.book)
  {
    && t.book.glass.Some?
    && exists sku: Sku ::
         && IsChosen(sku.code, o.glassPreference, t.book.glass.value.selections, t.book.glass.value.defaultSkuCode,
              t.contains)
         && IsRowOf(sku, sku.code, t.catalog) && BillsArea(l, o, sku, Billable(o, t.book.minimumArea), 1.0)
  }

  ghost predicate IsHardwareOf(l: QuoteLine, o: Opening, t: Inputs)
    requires WellFormed(t.book)
  {
    && t.book.hardware.Some? && o.openingType.Some? && o.openingType.value in t.book.hardware.value.skuByOpeningType
    && exists sku: Sku ::
         && IsRowOf(sku, t.book.hardware.value.skuByOpeningType[o.openingType.value], t.catalog)
         && BillsUnits(l, sku, o.quantity as real, Equipment) && l.description == o.ref + " \U{2014} " + sku.name
  }

  ghost predicate IsBlindOf(l: QuoteLine, o: Opening, t: Inputs)
    requires Measured(o) && WellFormed(t.book)
  {
    && t.book.blind.Some?
    && exists sku: Sku :: IsRowOf(sku, t.book.blind.value.skuCode, t.catalog)
         && BillsArea(l, o, sku, Billable(o, t.book.minimumArea), 1.0)
  }

  ghost predicate IsScreenOf(l: QuoteLine, o: Opening, t: Inputs)
    requires WellFormed(t.book)
  {
    && t.book.screen.Some?
    && exists sku: Sku :: IsRowOf(sku, t.book.screen.value.skuCode, t.catalog)
         && BillsUnits(l, sku, o.quantity as real, Equipment) && l.description == o.ref + " \U{2014} " + sku.name
  }

  lemma FrameIsBilled(o: Opening, t: Inputs)
    requires WellFormed(t.book) && FrameRoles(t.book) == [] && ExtraRoles(t.book) == []
    requires Measured(o) && o.openingType.Some? && Complete(o, t)
    ensures |ProfilePart(o, t).drafts| == 1 && IsProfileOf(ProfilePart(o, t).drafts[0], o, t)
    ensures |GlassPart(o, t).drafts| == 1 && IsGlassOf(GlassPart(o, t).drafts[0], o, t)
  {
    OneDraftEach(o, t);
    ProfileIsBilled(o, t);
    GlassIsBilled(o, t);
  }

  lemma ProfileIsBilled(o: Opening, t: Inputs)
    requires WellFormed(t.book) && t.book.profile.Some? && Measured(o) && o.openingType.Some?
    requires |ProfilePart(o, t).drafts| == 1
    ensures IsProfileOf(ProfilePart(o, t).drafts[0], o, t)
  {
    var rule := t.book.profile.value;
    var code := SelectSkuCode(o.profilePreference, rule.selections, rule.defaultSkuCode, t.contains);
    SelectedIsChosen(o.profilePreference, rule.selections, rule.defaultSkuCode, t.contains);
    SkuByCodeFinds(t.catalog, code);
    var sku := SkuByCode(t.catalog, code).value;
    AreaDraftBills(o, sku, Billable(o, t.book.minimumArea), rule.multipliers[o.openingType.value]);
    assert IsRowOf(sku, sku.code, t.catalog);
  }

  /** An opening of no known type, which blocks the quote, is shown at the catalog price. */
  lemma UntypedProfileIsPlain(o: Opening, t: Inputs)
    requires Measured(o) && o.openingType.None? && WellFormed(t.book) && ProfilePart(o, t).drafts != []
    ensures |ProfilePart(o, t).drafts| == 1
    ensures exists sku: Sku ::
      sku in t.catalog && BillsArea(ProfilePart(o, t).drafts[0], o, sku, Billable(o, t.book.minimumArea), 1.0)
  {
    hide AreaDraft, BillsArea, Billable;
    var rule := t.book.profile.value;
    var code := SelectSkuCode(o.profilePreference, rule.selections, rule.defaultSkuCode, t.contains);
    SkuByCodeFinds(t.catalog, code);
    AreaDraftBills(o, SkuByCode(t.catalog, code).value, Billable(o, t.book.minimumArea), 1.0);
  }

  lemma GlassIsBilled(o: Opening, t: Inputs)
    requires WellFormed(t.book) && t.book.glass.Some? && Measured(o) && |GlassPart(o, t).drafts| == 1
    ensures IsGlassOf(GlassPart(o, t).drafts[0], o, t)
  {
    var rule := t.book.glass.value;
    var code := SelectSkuCode(o.glassPreference, rule.selections, rule.defaultSkuCode, t.contains);
    SelectedIsChosen(o.glassPreference, rule.selections, rule.defaultSkuCode, t.contains);
    SkuByCodeFinds(t.catalog, code);
    var sku := SkuByCode(t.catalog, code).value;
    AreaDraftBills(o, sku, Billable(o, t.book.minimumArea), 1.0);
    assert IsRowOf(sku, sku.code, t.catalog);
  }

  lemma HardwareIsBilled(o: Opening, t: Inputs)
    requires WellFormed(t.book) && |HardwarePart(o, t).drafts| == 1
    ensures IsHardwareOf(HardwarePart(o, t).drafts[0], o, t)
  {
    var code := t.book.hardware.value.skuByOpeningType[o.openingType.value];
    SkuByCodeFinds(t.catalog, code);
    var sku := SkuByCode(t.catalog, code).value;
    CatalogDraftBills(sku, Label(o, sku), o.quantity as real, Equipment);
  }

  lemma ExtrasAreBilled(o: Opening, t: Inputs)
    requires WellFormed(t.book) && Measured(o)
    ensures |BlindPart(o, t).drafts| == 1 ==> IsBlindOf(BlindPart(o, t).drafts[0], o, t)
    ensures |ScreenPart(o, t).drafts| == 1 ==> IsScreenOf(ScreenPart(o, t).drafts[0], o, t)
  {
    if |BlindPart(o, t).drafts| == 1 {
      SkuByCodeFinds(t.catalog, t.book.blind.value.skuCode);
      var sku := SkuByCode(t.catalog, t.book.blind.value.skuCode).value;
      AreaDraftBills(o, sku, Billable(o, t.book.minimumArea), 1.0);
    }
    if |ScreenPart(o, t).drafts| == 1 {
      SkuByCodeFinds(t.catalog, t.book.screen.value.skuCode);
      var sku := SkuByCode(t.catalog, t.book.screen.value.skuCode).value;
      CatalogDraftBills(sku, Label(o, sku), o.quantity as real, Equipment);
    }
  }

  /** The lines of an opening, in order. */
  ghost predicate AreLinesOf(lines: seq<QuoteLine>, o: Opening, t: Inputs)
    requires Measured(o) && WellFormed(t.book)
  {
    var hardware := if o.openingType != Some(Fixo) then 1 else 0;
    var blind := if o.blind == Some(true) then 1 else 0;
    var screen := if o.insectScreen == Some(true) then 1 else 0;
    && |lines| == 2 + hardware + blind + screen
    && IsProfileOf(lines[0], o, t) && IsGlassOf(lines[1], o, t)
    && (hardware == 1 ==> IsHardwareOf(lines[2], o, t))
    && (blind == 1 ==> IsBlindOf(lines[2 + hardware], o, t))
    && (screen == 1 ==> IsScreenOf(lines[2 + hardware + blind], o, t))
  }

  lemma OpeningIsBilled(o: Opening, t: Inputs)
    requires WellFormed(t.book) && FrameRoles(t.book) == [] && ExtraRoles(t.book) == [] && Complete(o, t)
    ensures Measured(o) && AreLinesOf(OpeningPart(o, t).drafts, o, t)
  {
    hide ProfilePart, GlassPart, HardwarePart, BlindPart, ScreenPart, IsProfileOf, IsGlassOf, IsHardwareOf, IsBlindOf,
      IsScreenOf;
    CriticalComplete(o, t);
    OneDraftEach(o, t);
    FrameIsBilled(o, t);
    if o.openingType != Some(Fixo) {
      HardwareIsBilled(o, t);
    }
    ExtrasAreBilled(o, t);
  }

  // Nothing an opening's line is known by depends on its position.

  lemma MovedProfile(l: QuoteLine, m: QuoteLine, o: Opening, t: Inputs)
    requires Measured(o) && WellFormed(t.book) && IsProfileOf(l, o, t) && m == l.(position := m.position)
    ensures IsProfileOf(m, o, t)
  {
    hide IsChosen, IsRowOf, Billable;
  }

  lemma MovedGlass(l: QuoteLine, m: QuoteLine, o: Opening, t: Inputs)
    requires Measured(o) && WellFormed(t.book) && IsGlassOf(l, o, t) && m == l.(position := m.position)
    ensures IsGlassOf(m, o, t)
  {
    hide IsChosen, IsRowOf, Billable;
  }

  lemma MovedHardware(l: QuoteLine, m: QuoteLine, o: Opening, t: Inputs)
    requires WellFormed(t.book) && IsHardwareOf(l, o, t) && m == l.(position := m.position)
    ensures IsHardwareOf(m, o, t)
  {
    hide IsRowOf;
  }

  lemma MovedBlind(l: QuoteLine, m: QuoteLine, o: Opening, t: Inputs)
    requires Measured(o) && WellFormed(t.book) && IsBlindOf(l, o, t) && m == l.(position := m.position)
    ensures IsBlindOf(m, o, t)
  {
    hide IsRowOf, Billable;
  }

  lemma MovedScreen(l: QuoteLine, m: QuoteLine, o: Opening, t: Inputs)
    requires WellFormed(t.book) && IsScreenOf(l, o, t) && m == l.(position := m.position)
    ensures IsScreenOf(m, o, t)
  {
    hide IsRowOf;
  }

  lemma AnyPosition(lines: seq<QuoteLine>, moved: seq<QuoteLine>, o: Opening, t: Inputs)
    requires Measured(o) && WellFormed(t.book) && AreLinesOf(lines, o, t) && |moved| == |lines|
    requires forall i :: 0 <= i < |lines| ==> moved[i] == lines[i].(position := moved[i].position)
    ensures AreLinesOf(moved, o, t)
  {
    hide IsProfileOf, IsGlassOf, IsHardwareOf, IsBlindOf, IsScreenOf;
    var hardware := if o.openingType != Some(Fixo) then 1 else 0;
    var blind := if o.blind == Some(true) then 1 else 0;
    MovedProfile(lines[0], moved[0], o, t);
    MovedGlass(lines[1], moved[1], o, t);
    if o.openingType != Some(Fixo) {
      MovedHardware(lines[2], moved[2], o, t);
    }
    if o.blind == Some(true) {
      MovedBlind(lines[2 + hardware], moved[2 + hardware], o, t);
    }
    if o.insectScreen == Some(true) {
      MovedScreen(lines[2 + hardware + blind], moved[2 + hardware + blind], o, t);
    }
  }

  lemma {:induction false} OpeningAt(openings: seq<Opening>, t: Inputs, i: nat) returns (n: nat)
    requires WellFormed(t.book) && i < |openings|
    ensures var all, part := OpeningsPart(openings, t).drafts, OpeningPart(openings[i], t).drafts;
      n + |part| <= |all| && all[n..n + |part|] == part
  {
    hide OpeningPart;
    var last := |openings| - 1;
    var before, part := OpeningsPart(openings[..last], t).drafts, OpeningPart(openings[last], t).drafts;
    assert OpeningsPart(openings, t).drafts == before + part;
    if i == last {
      n := |before|;
    } else {
      n := OpeningAt(openings[..last], t, i);
      SliceOfStart(before, part, n, n + |OpeningPart(openings[i], t).drafts|);
    }
  }

  lemma SliceOfStart<T>(a: seq<T>, b: seq<T>, from: nat, to: nat)
    requires from <= to <= |a|
    ensures (a + b)[from..to] == a[from..to]
  {
  }

  /**
   Every opening of an unblocked quote is billed by lines of its own, one after the other: profile at its type's
   multiplier, glass, hardware unless it is fixed, and blind and screen where asked for.
   */
  lemma EveryOpeningIsBilled(t: Inputs, i: nat) returns (from: nat, to: nat)
    requires Valid(t) && !Quoted(t).blocked && i < |t.extraction.openings|
    ensures Measured(t.extraction.openings[i])
    ensures from <= to <= |Quoted(t).lines| && AreLinesOf(Quoted(t).lines[from..to], t.extraction.openings[i], t)
  {
    hide Quoted, AreLinesOf, OpeningPart, OpeningsPart;
    var openings := t.extraction.openings;
    UnblockedOpenings(t);
    NothingMissingAnywhere(openings, t);
    assert openings[i] in openings;
    OpeningIsBilled(openings[i], t);
    from := OpeningAt(openings, t, i);
    var part := OpeningPart(openings[i], t).drafts;
    to := from + |part|;
    OpeningsComeFirst(t);
    AnyPosition(part, Quoted(t).lines[from..to], openings[i], t);
  }

  lemma OpeningsComeFirst(t: Inputs)
    requires WellFormed(t.book)
    ensures var drafts, lines := OpeningsPart(t.extraction.openings, t).drafts, Quoted(t).lines;
      && |drafts| <= |lines|
      && forall n :: 0 <= n < |drafts| ==> lines[n] == drafts[n].(position := n + 1)
  {
    hide Quoted, OpeningsPart, LaborPart, RemovalPart, TransportPart, MarginDrafts, TaxDrafts;
    DraftsInOrder(t);
  }

  // ---------- Labour, removal, transport ----------

  function QuantityOf(o: Opening): real {
    if Measured(o) then o.quantity as real else 0.0
  }

  /** Work is counted in windows: the quantities of the measured openings. */
  lemma {:induction false} CountIsTheSum(openings: seq<Opening>)
    ensures OpeningCount(openings) as real == SumBy(openings, QuantityOf)
  {
    if openings != [] {
      var init, o := openings[..|openings| - 1], openings[|openings| - 1];
      CountIsTheSum(init);
      SumByAppend(init, o, QuantityOf);
      assert openings == init + [o];
    }
  }

  /** A line of work bills a quantity of the SKU of a code. */
  ghost predicate IsWorkAt(l: QuoteLine, code: string, quantity: real, catalog: seq<Sku>) {
    exists sku :: IsRowOf(sku, code, catalog) && BillsUnits(l, sku, quantity, Labor) && l.description == sku.name
  }

  /** The work on a quote: installation per window, removal per window if asked for, kilometres beyond the included. */
  ghost predicate IsLaborOf(work: seq<QuoteLine>, t: Inputs)
    requires WellFormed(t.book)
  {
    var count := SumBy(t.extraction.openings, QuantityOf);
    if count <= 0.0 || t.book.labor.None? then work == []
    else |work| == 1 && IsWorkAt(work[0], t.book.labor.value.skuCode, count, t.catalog)
  }

  ghost predicate IsRemovalOf(work: seq<QuoteLine>, t: Inputs)
    requires WellFormed(t.book)
  {
    if t.extraction.removeExisting != Some(true) then work == []
    else
      && t.book.removal.Some? && |work| == 1 && work[0].skuId.None? && work[0].kind == Labor
      && var rule, count := t.book.removal.value, OpeningCount(t.extraction.openings);
         && work[0].description == rule.description && work[0].quantity == count as real
         && work[0].unitPriceMinor == rule.amountMinorPerOpening as real
         && work[0].amountMinor == (rule.amountMinorPerOpening * count) as real
  }

  ghost predicate IsTransportOf(work: seq<QuoteLine>, t: Inputs)
    requires WellFormed(t.book)
  {
    if t.extraction.distanceKm.None? then work == []
    else
      && t.book.transport.Some?
      && var km := t.extraction.distanceKm.value - t.book.transport.value.includedKm;
         if km <= 0.0 then work == []
         else |work| == 1 && IsWorkAt(work[0], t.book.transport.value.skuCode, km, t.catalog)
  }

  lemma LaborIsBilled(t: Inputs)
    requires WellFormed(t.book) && LaborPart(t).missing == []
    ensures IsLaborOf(LaborPart(t).drafts, t)
  {
    CountIsTheSum(t.extraction.openings);
    if LaborPart(t).drafts != [] {
      SkuByCodeFinds(t.catalog, t.book.labor.value.skuCode);
      var sku := SkuByCode(t.catalog, t.book.labor.value.skuCode).value;
      CatalogDraftBills(sku, sku.name, OpeningCount(t.extraction.openings) as real, Labor);
      assert IsRowOf(sku, t.book.labor.value.skuCode, t.catalog);
    }
  }

  lemma TransportIsBilled(t: Inputs)
    requires WellFormed(t.book) && TransportPart(t).missing == []
    ensures IsTransportOf(TransportPart(t).drafts, t)
  {
    if TransportPart(t).drafts != [] {
      var rule := t.book.transport.value;
      SkuByCodeFinds(t.catalog, rule.skuCode);
      var sku := SkuByCode(t.catalog, rule.skuCode).value;
      CatalogDraftBills(sku, sku.name, t.extraction.distanceKm.value - rule.includedKm, Labor);
      assert IsRowOf(sku, rule.skuCode, t.catalog);
    }
  }

  /** An unblocked quote is its openings' lines, the work in this order, the margin and the tax. */
  lemma WorkIsBilled(t: Inputs)
    returns (openings: seq<QuoteLine>, labor: seq<QuoteLine>, removal: seq<QuoteLine>, transport: seq<QuoteLine>,
      rest: seq<QuoteLine>)
    requires Valid(t) && !Quoted(t).blocked
    ensures Quoted(t).lines == Numbered(openings + labor + removal + transport + rest)
    ensures forall l :: l in openings ==> l.kind == Material || l.kind == Equipment
    ensures IsLaborOf(labor, t) && IsRemovalOf(removal, t) && IsTransportOf(transport, t)
    ensures forall l :: l in rest ==> l.kind == Margin || l.kind == Tax
  {
    hide Quoted, OpeningsPart, LaborPart, RemovalPart, TransportPart, IsLaborOf, IsRemovalOf, IsTransportOf,
      MarginDrafts, TaxDrafts;
    openings := OpeningsPart(t.extraction.openings, t).drafts;
    labor, removal, transport := LaborPart(t).drafts, RemovalPart(t).drafts, TransportPart(t).drafts;
    rest := MarginDrafts(Total(BasePart(t).drafts), t.book) + TaxDrafts(TaxOf(t), t.book);
    DraftsInOrder(t);
    OpeningsAreGoods(t.extraction.openings, t);
    UnblockedWork(t);
    AddedToTheWork(Total(BasePart(t).drafts), TaxOf(t), t.book);
  }

  lemma AddedToTheWork(base: real, tax: int, book: RuleBook)
    requires WellFormed(book)
    ensures forall l :: l in MarginDrafts(base, book) + TaxDrafts(tax, book) ==> l.kind == Margin || l.kind == Tax
  {
  }

  lemma UnblockedWork(t: Inputs)
    requires WellFormed(t.book) && !Quoted(t).blocked
    ensures IsLaborOf(LaborPart(t).drafts, t) && IsRemovalOf(RemovalPart(t).drafts, t)
    ensures IsTransportOf(TransportPart(t).drafts, t)
  {
    hide Quoted, LaborPart, RemovalPart, TransportPart, IsLaborOf, IsRemovalOf, IsTransportOf;
    UnblockedMeansNothingMissing(t);
    NothingMissingInTheWork(t);
    LaborIsBilled(t);
    TransportIsBilled(t);
  }

  lemma DraftsInOrder(t: Inputs)
    requires WellFormed(t.book)
    ensures Quoted(t).lines == Numbered(
      OpeningsPart(t.extraction.openings, t).drafts + LaborPart(t).drafts + RemovalPart(t).drafts
      + TransportPart(t).drafts + (MarginDrafts(Total(BasePart(t).drafts), t.book) + TaxDrafts(TaxOf(t), t.book)))
  {
    hide OpeningsPart, LaborPart, RemovalPart, TransportPart, MarginDrafts, TaxDrafts, TaxOf, Total;
    Together(BasePart(t).drafts, MarginDrafts(Total(BasePart(t).drafts), t.book), TaxDrafts(TaxOf(t), t.book));
  }

  lemma Together<T>(a: seq<T>, b: seq<T>, c: seq<T>)
    ensures a + b + c == a + (b + c)
  {
  }

  lemma NothingMissingInTheWork(t: Inputs)
    requires WellFormed(t.book) && BasePart(t).missing == []
    ensures LaborPart(t).missing == [] && TransportPart(t).missing == [] && IsRemovalOf(RemovalPart(t).drafts, t)
  {
    assert LaborPart(t).missing == [] && RemovalPart(t).missing == [] && TransportPart(t).missing == [];
  }
}
