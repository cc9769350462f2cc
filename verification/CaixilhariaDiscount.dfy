/**
 The area discount of a caixilharia quote: which threshold decides it, and when rounding takes it above the subtotal.
 Every amount but the transport line is a whole number of cents, so only a fraction of a kilometre can do that.
 */
module CaixilhariaDiscount {
  import opened Caixilharia
  import opened CaixilhariaQuotes
  import opened Rounding
  import opened StableSort
  import opened Sums
  import opened Text
  import opened VerticalPricing
  import opened Wrappers

  // ---------- The threshold that decides ----------

  /** The reference: of the thresholds strictly exceeded, the largest; the earliest of equal ones. */
  function LargestExceeded(thresholds: seq<Threshold>, area: real): Option<Threshold> {
    if thresholds == [] then None
    else
      var rest := LargestExceeded(thresholds[1..], area);
      if area > thresholds[0].overAreaM2 && (rest.None? || thresholds[0].overAreaM2 >= rest.value.overAreaM2)
      then Some(thresholds[0]) else rest
  }

  lemma {:induction false} FirstExceededOfInsert(x: Threshold, s: seq<Threshold>, area: real)
    requires Sorted(s, OverDescending)
    ensures var found := FirstExceeded(s, area);
      FirstExceeded(Insert(x, s, OverDescending), area) ==
      if area > x.overAreaM2 && (found.None? || x.overAreaM2 >= found.value.overAreaM2) then Some(x) else found
    ensures FirstExceeded(s, area).Some? ==> FirstExceeded(s, area).value in s
  {
    if s != [] {
      FirstExceededOfInsert(x, s[1..], area);
      if OverDescending(x) <= OverDescending(s[0]) {
        assert ([x] + s)[1..] == s;
      }
    }
  }

  lemma {:induction false} SearchFindsTheLargest(thresholds: seq<Threshold>, area: real)
    ensures FirstExceeded(SortBy(thresholds, OverDescending), area) == LargestExceeded(thresholds, area)
  {
    if thresholds != [] {
      SearchFindsTheLargest(thresholds[1..], area);
      SortByKeeps(thresholds[1..], OverDescending);
      FirstExceededOfInsert(thresholds[0], SortBy(thresholds[1..], OverDescending), area);
    }
  }

  lemma {:induction false} LargestExceededIsLargest(thresholds: seq<Threshold>, area: real)
    ensures match LargestExceeded(thresholds, area)
      case None => forall u :: u in thresholds ==> area <= u.overAreaM2
      case Some(found) =>
        && found in thresholds && area > found.overAreaM2
        && forall u :: u in thresholds && area > u.overAreaM2 ==> u.overAreaM2 <= found.overAreaM2
  {
    if thresholds != [] {
      LargestExceededIsLargest(thresholds[1..], area);
      assert thresholds == [thresholds[0]] + thresholds[1..];
    }
  }

  /** The discount is that of the largest threshold the area strictly exceeds, and nothing when it exceeds none. */
  lemma DiscountOfTheLargestThreshold(thresholds: seq<Threshold>, area: real)
    ensures var pct := DiscountPercentage(Some(AreaDiscount(thresholds)), area);
      && ((forall u :: u in thresholds ==> area <= u.overAreaM2) ==> pct == 0.0)
      && ((exists u :: u in thresholds && area > u.overAreaM2) ==>
            exists found ::
              && found in thresholds && area > found.overAreaM2 && pct == found.percentage
              && forall u :: u in thresholds && area > u.overAreaM2 ==> u.overAreaM2 <= found.overAreaM2)
  {
    SearchFindsTheLargest(thresholds, area);
    LargestExceededIsLargest(thresholds, area);
  }

  lemma DiscountPercentageInRange(t: Inputs)
    requires Valid(t)
    ensures 0.0 <= DiscountPercentage(t.book.discount, TotalArea(t.extraction.openings)) <= 100.0
  {
    if t.book.discount.Some? {
      SearchFindsTheLargest(t.book.discount.value.thresholds, TotalArea(t.extraction.openings));
      LargestExceededIsLargest(t.book.discount.value.thresholds, TotalArea(t.extraction.openings));
    }
  }

  // ---------- Whole and fractional cents ----------

  predicate Whole(x: real) {
    x == x.Floor as real
  }

  function Fraction(x: real): real {
    x - x.Floor as real
  }

  lemma WholeOf(x: real, n: int)
    requires x == n as real
    ensures Whole(x)
  {
  }

  lemma SumIsWhole(x: real, y: real)
    requires Whole(x) && Whole(y)
    ensures Whole(x + y)
  {
    WholeOf(x + y, x.Floor + y.Floor);
  }

  /** Adding a whole amount keeps the fraction. */
  lemma SameFraction(x: real, y: real)
    requires Whole(x - y)
    ensures Fraction(x) == Fraction(y)
  {
    var n := (x - y).Floor;
    assert x == y + n as real;
    assert (y.Floor + n) as real <= x < (y.Floor + n + 1) as real;
    assert x.Floor == y.Floor + n;
  }

  ghost predicate WholeAmounts(lines: seq<QuoteLine>) {
    forall i :: 0 <= i < |lines| ==> Whole(lines[i].amountMinor)
  }

  lemma {:induction false} WholeTotal(lines: seq<QuoteLine>)
    requires WholeAmounts(lines)
    ensures Whole(Total(lines))
  {
    if lines != [] {
      WholeTotal(lines[1..]);
      SumIsWhole(lines[0].amountMinor, Total(lines[1..]));
    }
  }

  lemma CountedLineIsWhole(sku: Sku, description: string, count: int, kind: Kind)
    ensures Whole(CatalogDraft(sku, description, count as real, kind).amountMinor)
  {
    ProductIsWhole(sku.basePriceMinor, count);
  }

  lemma ProductIsWhole(n: int, count: int)
    ensures Whole(Cost(n, count as real))
  {
    if count >= 0 {
      ProductOfIntegers(n, count);
      WholeOf(Cost(n, count as real), n * count);
    } else {
      ProductOfIntegers(n, -count);
      assert Cost(n, count as real) == -(n as real * (-count) as real);
      WholeOf(Cost(n, count as real), -(n * -count));
    }
  }

  lemma AreaLineIsWhole(o: Opening, sku: Sku, area: real, multiplier: real)
    ensures Whole(AreaDraft(o, sku, area, multiplier).amountMinor)
  {
  }

  lemma OpeningIsWhole(o: Opening, t: Inputs)
    requires WellFormed(t.book)
    ensures WholeAmounts(OpeningPart(o, t).drafts)
  {
    if Measured(o) {
      AreaPartsAreWhole(o, t);
      UnitPartsAreWhole(o, t);
    }
  }

  lemma AreaPartsAreWhole(o: Opening, t: Inputs)
    requires WellFormed(t.book) && Measured(o)
    ensures WholeAmounts(ProfilePart(o, t).drafts) && WholeAmounts(GlassPart(o, t).drafts) &&
      WholeAmounts(BlindPart(o, t).drafts)
  {
    forall sku, area, multiplier {:trigger AreaDraft(o, sku, area, multiplier)}
      ensures Whole(AreaDraft(o, sku, area, multiplier).amountMinor)
    {
      AreaLineIsWhole(o, sku, area, multiplier);
    }
  }

  lemma UnitPartsAreWhole(o: Opening, t: Inputs)
    requires WellFormed(t.book)
    ensures WholeAmounts(HardwarePart(o, t).drafts) && WholeAmounts(ScreenPart(o, t).drafts)
  {
    forall sku
      ensures Whole(CatalogDraft(sku, Label(o, sku), o.quantity as real, Equipment).amountMinor)
    {
      CountedLineIsWhole(sku, Label(o, sku), o.quantity, Equipment);
    }
  }

  lemma {:induction false} OpeningsAreWhole(openings: seq<Opening>, t: Inputs)
    requires WellFormed(t.book)
    ensures WholeAmounts(OpeningsPart(openings, t).drafts)
  {
    if openings != [] {
      OpeningsAreWhole(openings[..|openings| - 1], t);
      OpeningIsWhole(openings[|openings| - 1], t);
    }
  }

  lemma WorkIsWhole(t: Inputs)
    requires WellFormed(t.book)
    ensures WholeAmounts(LaborPart(t).drafts) && WholeAmounts(RemovalPart(t).drafts)
  {
    var count := OpeningCount(t.extraction.openings);
    forall sku: Sku
      ensures Whole(CatalogDraft(sku, sku.name, count as real, Labor).amountMinor)
    {
      CountedLineIsWhole(sku, sku.name, count, Labor);
    }
  }

  /** What the transport line costs: kilometres beyond the included ones at the price of a kilometre. */
  function TransportCost(t: Inputs): real
    requires WellFormed(t.book)
  {
    if t.extraction.distanceKm.None? || t.book.transport.None? then 0.0
    else
      var chargeableKm := Max(0.0, t.extraction.distanceKm.value - t.book.transport.value.includedKm);
      match SkuByCode(t.catalog, t.book.transport.value.skuCode)
      case None => 0.0
      case Some(sku) => Cost(sku.basePriceMinor, chargeableKm)
  }

  lemma TransportTotal(t: Inputs)
    requires WellFormed(t.book)
    ensures Total(TransportPart(t).drafts) == TransportCost(t)
  {
    if TransportPart(t).drafts != [] {
      OneLineTotal(TransportPart(t).drafts[0]);
      assert TransportPart(t).drafts == [TransportPart(t).drafts[0]];
    }
  }

  lemma BaseIsWholeButTransport(t: Inputs)
    requires WellFormed(t.book)
    ensures Whole(Total(BasePart(t).drafts) - TransportCost(t))
  {
    var openings, labor, removal := OpeningsPart(t.extraction.openings, t), LaborPart(t), RemovalPart(t);
    OpeningsAreWhole(t.extraction.openings, t);
    WorkIsWhole(t);
    TransportTotal(t);
    WholeTotal(Joined(Joined(openings, labor), removal).drafts);
    PartSum(Joined(Joined(openings, labor), removal), TransportPart(t), AmountOf);
  }

  lemma MarginIsWhole(base: real, book: RuleBook)
    requires WellFormed(book)
    ensures Whole(Total(MarginDrafts(base, book)))
  {
    WholeTotal(MarginDrafts(base, book));
  }

  lemma FractionOfSum(base: real, transport: real, margin: real, subtotal: real)
    requires Whole(base - transport) && Whole(margin) && subtotal == base + margin
    ensures Fraction(subtotal) == Fraction(transport)
  {
    SumIsWhole(base - transport, margin);
    SameFraction(subtotal, transport);
  }

  /** The subtotal has the fraction of the transport cost. */
  lemma SubtotalFraction(t: Inputs)
    requires WellFormed(t.book)
    ensures Fraction(Total(WithMargin(t))) == Fraction(TransportCost(t))
  {
    var base := Total(BasePart(t).drafts);
    BaseIsWholeButTransport(t);
    MarginIsWhole(base, t.book);
    SubtotalSplit(t);
    FractionOfSum(base, TransportCost(t), Total(MarginDrafts(base, t.book)), Total(WithMargin(t)));
  }

  lemma SubtotalSplit(t: Inputs)
    requires WellFormed(t.book)
    ensures var base := Total(BasePart(t).drafts); Total(WithMargin(t)) == base + Total(MarginDrafts(base, t.book))
  {
    SumByConcat(BasePart(t).drafts, MarginDrafts(Total(BasePart(t).drafts), t.book), AmountOf);
  }

  // ---------- When the discount exceeds the subtotal ----------

  lemma RoundedStaysBelow(exact: real, limit: real)
    ensures Round(exact) as real <= limit <==> exact < limit.Floor as real + 0.5
  {
    var r, f := Round(exact), limit.Floor;
    assert r as real <= exact + 0.5 < (r + 1) as real;
    assert f as real <= limit < (f + 1) as real;
    if r <= f {
      assert r as real <= f as real;
      assert (r + 1) as real <= (f + 1) as real;
    } else {
      assert (f + 1) as real <= r as real;
    }
  }

  /** What is left of an amount after a percentage, exactly. */
  function LeftOver(amount: real, pct: real): real {
    amount * (100.0 - pct) / 100.0
  }

  lemma PercentExceedsIff(amount: real, pct: real)
    requires 0.0 <= amount && 0.0 <= pct <= 100.0
    ensures 0 <= PercentOf(amount, pct) <= Round(amount)
    ensures PercentOf(amount, pct) as real > amount <==> LeftOver(amount, pct) <= Fraction(amount) - 0.5
    ensures 0.0 <= LeftOver(amount, pct) && LeftOver(amount, 100.0) == 0.0
  {
    var exact, share := amount * pct / 100.0, pct / 100.0;
    assert exact == amount * share;
    RoundOfShare(amount, share, exact);
    RoundedStaysBelow(exact, amount);
    assert LeftOver(amount, pct) == amount - exact;
    ShareBetween(amount, share, exact);
  }

  /**
   The discount is between zero and the rounded subtotal, and it exceeds the subtotal if and only if what the exact
   percentage leaves over is no more than the fraction of the transport cost less half a cent.
   */
  lemma DiscountExceedsTheSubtotalIff(t: Inputs)
    requires Valid(t)
    ensures var q, pct := Quoted(t), DiscountPercentage(t.book.discount, TotalArea(t.extraction.openings));
      && 0 <= q.discountMinor <= Round(q.subtotalMinor)
      && (q.discountMinor as real > q.subtotalMinor <==>
            LeftOver(q.subtotalMinor, pct) <= Fraction(TransportCost(t)) - 0.5)
  {
    LinesAreSound(t);
    DiscountPercentageInRange(t);
    SubtotalFraction(t);
    PercentExceedsIff(Quoted(t).subtotalMinor, DiscountPercentage(t.book.discount, TotalArea(t.extraction.openings)));
  }

  /** The transport cost has no half cent: no distance, only included kilometres, or an amount that rounds down. */
  predicate NoHalfCentOfTransport(t: Inputs)
    requires WellFormed(t.book)
  {
    Fraction(TransportCost(t)) < 0.5
  }

  /** Told from the request and the rules alone: then the discount stays within the subtotal. */
  lemma DiscountStaysWithinWithoutHalfACent(t: Inputs)
    requires Valid(t) && NoHalfCentOfTransport(t)
    ensures Quoted(t).discountMinor as real <= Quoted(t).subtotalMinor
  {
    LinesAreSound(t);
    DiscountPercentageInRange(t);
    DiscountExceedsTheSubtotalIff(t);
    PercentExceedsIff(Quoted(t).subtotalMinor, DiscountPercentage(t.book.discount, TotalArea(t.extraction.openings)));
  }

  /** Without a distance, or with whole kilometres beyond whole included ones, there is no half cent. */
  lemma WholeKilometresHaveNoHalfCent(t: Inputs)
    requires Valid(t)
    requires t.extraction.distanceKm.Some? ==> Whole(t.extraction.distanceKm.value)
    requires t.extraction.distanceKm.Some? && t.book.transport.Some? ==> Whole(t.book.transport.value.includedKm)
    ensures NoHalfCentOfTransport(t) && Quoted(t).discountMinor as real <= Quoted(t).subtotalMinor
  {
    if t.extraction.distanceKm.Some? && t.book.transport.Some? {
      var rule := t.book.transport.value;
      var km, included := t.extraction.distanceKm.value.Floor, rule.includedKm.Floor;
      var chargeable := if km - included > 0 then km - included else 0;
      assert Max(0.0, t.extraction.distanceKm.value - rule.includedKm) == chargeable as real;
      if SkuByCode(t.catalog, rule.skuCode).Some? {
        ProductIsWhole(SkuByCode(t.catalog, rule.skuCode).value.basePriceMinor, chargeable);
      }
    }
    DiscountStaysWithinWithoutHalfACent(t);
  }

  /** Under a full discount the half cent decides alone. */
  lemma FullDiscountExceedsIffHalfACent(t: Inputs)
    requires Valid(t) && DiscountPercentage(t.book.discount, TotalArea(t.extraction.openings)) == 100.0
    ensures Quoted(t).discountMinor as real > Quoted(t).subtotalMinor <==> !NoHalfCentOfTransport(t)
  {
    LinesAreSound(t);
    DiscountExceedsTheSubtotalIff(t);
    PercentExceedsIff(Quoted(t).subtotalMinor, 100.0);
  }

  // ---------- Half a kilometre at one cent, everything else free, and a full discount ----------

  const FREE := Sku("free", "FREE", "free", 0, STRATOS_CURRENCY, None, true)
  const KM := Sku("km", "KM", "km", 1, STRATOS_CURRENCY, None, true)

  function StoredRule(t: RuleType, order: int, c: Config): Rule<Config> {
    Rule(t, Some(CAIXILHARIA), order, true, c)
  }

  function OneChoice(): seq<Selection> {
    [Selection(["branco"], "FREE")]
  }

  function FullDiscountRules(): seq<Rule<Config>> {
    [StoredRule(CATALOG_UNIT, 1, Profile(OneChoice(), "FREE", map[Fixo := 1.0])),
     StoredRule(CATALOG_UNIT, 2, Glass(OneChoice(), "FREE")),
     StoredRule(CATALOG_UNIT, 3, Hardware(map[])),
     StoredRule(CATALOG_UNIT, 4, Blind("FREE")),
     StoredRule(CATALOG_UNIT, 5, InsectScreen("FREE")),
     StoredRule(FIXED_ADDER, 6, MinimumBillableArea(1.0)),
     StoredRule(LABOR_HOURS, 7, InstallationPerOpening("FREE")),
     StoredRule(CONDITIONAL_SURCHARGE, 8, TransportPerKm("KM", 0.0)),
     StoredRule(MARGIN_MARKUP, 9, Percentage(0.0)),
     StoredRule(QTY_BREAK, 10, AreaDiscount([Threshold(0.0, 100.0)])),
     StoredRule(TAX, 11, Percentage(0.0))]
  }

  function OneWindow(distanceKm: real): Extraction {
    Extraction([Opening("J1", Some(1000), Some(1000), Some(Fixo), None, None, None, None, 1)], None, Some(distanceKm))
  }

  function HalfAKilometre(contains: (string, string) -> bool): Inputs {
    Inputs(
      OneWindow(0.5),
      RuleBook(
        Some(Profile(OneChoice(), "FREE", map[Fixo := 1.0])), Some(Glass(OneChoice(), "FREE")), Some(Hardware(map[])),
        Some(Blind("FREE")),
        Some(InsectScreen("FREE")), Some(MinimumBillableArea(1.0)), Some(InstallationPerOpening("FREE")), None,
        Some(TransportPerKm("KM", 0.0)), Some(Percentage(0.0)), Some(AreaDiscount([Threshold(0.0, 100.0)])),
        Some(Percentage(0.0))),
      [FREE, KM], contains, None)
  }

  lemma HalfAKilometreLookups(contains: (string, string) -> bool)
    ensures SkuByCode(HalfAKilometre(contains).catalog, "FREE") == Some(FREE)
    ensures SkuByCode(HalfAKilometre(contains).catalog, "KM") == Some(KM)
  {
    var catalog := HalfAKilometre(contains).catalog;
    assert catalog[1] == KM && catalog[..1] == [FREE];
  }

  lemma HalfAKilometreOpening(contains: (string, string) -> bool)
    ensures var t := HalfAKilometre(contains);
      && OpeningPart(t.extraction.openings[0], t).missing == []
      && Total(OpeningPart(t.extraction.openings[0], t).drafts) == 0.0
      && AddArea(0.0, t.extraction.openings[0]) == 1.0
  {
    var t := HalfAKilometre(contains);
    var o := t.extraction.openings[0];
    HalfAKilometreParts(contains);
    OpeningSum(CriticalPart(o), ProfilePart(o, t), GlassPart(o, t), HardwarePart(o, t), BlindPart(o, t),
      ScreenPart(o, t), AmountOf);
    assert Area(o) == 1.0;
  }

  lemma HalfAKilometreParts(contains: (string, string) -> bool)
    ensures var t := HalfAKilometre(contains);
      var o := t.extraction.openings[0];
      var free := AreaDraft(o, FREE, Billable(o, t.book.minimumArea), 1.0);
      && ProfilePart(o, t) == GlassPart(o, t) == Part([free], []) && free.amountMinor == 0.0
  {
    HalfAKilometreLookups(contains);
  }

  lemma HalfAKilometreBase(contains: (string, string) -> bool)
    ensures var t := HalfAKilometre(contains);
      && BasePart(t).missing == [] && Total(BasePart(t).drafts) == 0.5 && TotalArea(t.extraction.openings) == 1.0
  {
    var t := HalfAKilometre(contains);
    var openings := t.extraction.openings;
    HalfAKilometreLookups(contains);
    HalfAKilometreOpening(contains);
    assert openings[..0] == [];
    assert Roles(t.book) == [];
    assert OpeningCount(openings) == 1;
    PartSum(OpeningsPart([], t), OpeningPart(openings[0], t), AmountOf);
    PartSum(Joined(Joined(OpeningsPart(openings, t), LaborPart(t)), RemovalPart(t)), TransportPart(t), AmountOf);
    PartSum(Joined(OpeningsPart(openings, t), LaborPart(t)), RemovalPart(t), AmountOf);
    PartSum(OpeningsPart(openings, t), LaborPart(t), AmountOf);
  }

  lemma {:induction false} RelevantInCatalog(lines: seq<QuoteLine>, catalog: seq<Sku>)
    ensures forall s :: s in RelevantSkus(lines, catalog) ==> s in catalog
  {
    if lines != [] {
      RelevantInCatalog(lines[1..], catalog);
      if lines[0].skuId.Some? {
        SkuByIdFinds(catalog, lines[0].skuId.value);
      }
    }
  }

  /** Half a cent in euros, no margin, everything discounted, nothing missing. */
  ghost predicate HalfACent(t: Inputs) {
    && Valid(t) && t.book.margin == Some(Percentage(0.0)) && ClosingRoles(t.book) == []
    && t.book.discount == Some(AreaDiscount([Threshold(0.0, 100.0)])) && TotalArea(t.extraction.openings) == 1.0
    && BasePart(t).missing == [] && Total(BasePart(t).drafts) == 0.5
    && forall s :: s in t.catalog ==> s.currency == STRATOS_CURRENCY
  }

  lemma NoMarginNoChange(t: Inputs)
    requires WellFormed(t.book) && t.book.margin == Some(Percentage(0.0))
    ensures Total(WithMargin(t)) == Total(BasePart(t).drafts)
  {
    var base := Total(BasePart(t).drafts);
    var margin := MarginDrafts(base, t.book);
    assert PercentOf(base, 0.0) == 0;
    assert margin == [margin[0]] && margin[0].amountMinor == 0.0;
    SumByAppend(BasePart(t).drafts, margin[0], AmountOf);
  }

  lemma HalfACentDiscounted(t: Inputs)
    requires HalfACent(t)
    ensures Quoted(t).subtotalMinor == 0.5 && Quoted(t).discountMinor == 1
  {
    NoMarginNoChange(t);
    OverZeroIsFull();
    HalfRoundsUp();
  }

  lemma OverZeroIsFull()
    ensures DiscountPercentage(Some(AreaDiscount([Threshold(0.0, 100.0)])), 1.0) == 100.0
  {
    SearchFindsTheLargest([Threshold(0.0, 100.0)], 1.0);
  }

  lemma HalfRoundsUp()
    ensures PercentOf(0.5, 100.0) == 1
  {
  }

  lemma NothingMissingInEuros(t: Inputs)
    requires WellFormed(t.book) && BasePart(t).missing == [] && ClosingRoles(t.book) == []
    requires forall s :: s in t.catalog ==> s.currency == STRATOS_CURRENCY
    ensures !Quoted(t).blocked
  {
    RelevantInCatalog(Quoted(t).lines, t.catalog);
    UnblockedMeansNothingMissing(t);
  }

  lemma HalfAKilometreIsValid(contains: (string, string) -> bool)
    ensures Valid(HalfAKilometre(contains)) && ClosingRoles(HalfAKilometre(contains).book) == []
  {
  }

  lemma HalfAKilometreCostsHalfACent(contains: (string, string) -> bool)
    ensures HalfACent(HalfAKilometre(contains))
  {
    HalfAKilometreIsValid(contains);
    HalfAKilometreBase(contains);
  }

  lemma FullDiscountRulesAreActive()
    ensures ActiveRules(FullDiscountRules(), CAIXILHARIA) == FullDiscountRules()
  {
    NumberedRulesAreActive(FullDiscountRules(), CAIXILHARIA);
  }

  lemma FullDiscountOpeningRules()
    ensures var rules := FullDiscountRules();
      && FirstConfig(rules, CATALOG_UNIT, IsProfile) == Some(rules[0].config)
      && FirstConfig(rules, CATALOG_UNIT, IsGlass) == Some(rules[1].config)
      && FirstConfig(rules, CATALOG_UNIT, IsHardware) == Some(rules[2].config)
  {
    var rules := FullDiscountRules();
    FirstConfigAt(rules, CATALOG_UNIT, IsProfile, 0);
    FirstConfigAt(rules, CATALOG_UNIT, IsGlass, 1);
    FirstConfigAt(rules, CATALOG_UNIT, IsHardware, 2);
  }

  lemma FullDiscountExtraRules()
    ensures var rules := FullDiscountRules();
      && FirstConfig(rules, CATALOG_UNIT, IsBlind) == Some(rules[3].config)
      && FirstConfig(rules, CATALOG_UNIT, IsScreen) == Some(rules[4].config)
      && FirstConfig(rules, FIXED_ADDER, IsMinimumArea) == Some(rules[5].config)
  {
    var rules := FullDiscountRules();
    FirstConfigAt(rules, CATALOG_UNIT, IsBlind, 3);
    FirstConfigAt(rules, CATALOG_UNIT, IsScreen, 4);
    FirstConfigAt(rules, FIXED_ADDER, IsMinimumArea, 5);
  }

  lemma FullDiscountWorkRules()
    ensures var rules := FullDiscountRules();
      && FirstConfig(rules, LABOR_HOURS, IsLabor) == Some(rules[6].config)
      && FirstConfig(rules, FIXED_ADDER, IsRemoval) == None
      && FirstConfig(rules, CONDITIONAL_SURCHARGE, IsTransport) == Some(rules[7].config)
  {
    FullDiscountLabor();
    FullDiscountRemoval();
    FullDiscountTransport();
  }

  lemma FullDiscountTransport()
    ensures FirstConfig(FullDiscountRules(), CONDITIONAL_SURCHARGE, IsTransport) == Some(FullDiscountRules()[7].config)
  {
    FirstConfigAt(FullDiscountRules(), CONDITIONAL_SURCHARGE, IsTransport, 7);
  }

  lemma FullDiscountLabor()
    ensures FirstConfig(FullDiscountRules(), LABOR_HOURS, IsLabor) == Some(FullDiscountRules()[6].config)
  {
    FirstConfigAt(FullDiscountRules(), LABOR_HOURS, IsLabor, 6);
  }

  lemma FullDiscountRemoval()
    ensures FirstConfig(FullDiscountRules(), FIXED_ADDER, IsRemoval) == None
  {
    NoConfig(FullDiscountRules(), FIXED_ADDER, IsRemoval);
  }

  lemma FullDiscountClosingRules()
    ensures var rules := FullDiscountRules();
      && FirstConfig(rules, MARGIN_MARKUP, IsPercentage) == Some(rules[8].config)
      && FirstConfig(rules, QTY_BREAK, IsAreaDiscount) == Some(rules[9].config)
  {
    FullDiscountMargin();
    FullDiscountArea();
  }

  lemma FullDiscountArea()
    ensures FirstConfig(FullDiscountRules(), QTY_BREAK, IsAreaDiscount) == Some(FullDiscountRules()[9].config)
  {
    FirstConfigAt(FullDiscountRules(), QTY_BREAK, IsAreaDiscount, 9);
  }

  lemma FullDiscountMargin()
    ensures FirstConfig(FullDiscountRules(), MARGIN_MARKUP, IsPercentage) == Some(FullDiscountRules()[8].config)
  {
    FirstConfigAt(FullDiscountRules(), MARGIN_MARKUP, IsPercentage, 8);
  }

  lemma FullDiscountTaxRule()
    ensures var rules := FullDiscountRules();
      FirstConfig(rules, TAX, IsPercentage) == Some(rules[10].config)
  {
    FirstConfigAt(FullDiscountRules(), TAX, IsPercentage, 10);
  }

  lemma StoredHalfAKilometre(contains: (string, string) -> bool)
    ensures InputsOf(OneWindow(0.5), FullDiscountRules(), [FREE, KM], contains, None) == HalfAKilometre(contains)
  {
    FullDiscountRulesAreActive();
    FullDiscountOpeningRules();
    FullDiscountExtraRules();
    FullDiscountWorkRules();
    FullDiscountClosingRules();
    FullDiscountTaxRule();
  }

  lemma HalfACentIsOverDiscounted(t: Inputs)
    requires HalfACent(t)
    ensures Valid(t) && !Quoted(t).blocked && Quoted(t).discountMinor as real > Quoted(t).subtotalMinor
  {
    HalfACentDiscounted(t);
    NothingMissingInEuros(t);
  }

  /**
   Such a request, with stored rules and catalog: one window and half a kilometre at one cent, everything else free
   and fully discounted. The quote is not blocked and its discount exceeds its subtotal.
   */
  lemma HalfAKilometreIsOverDiscounted(t: Inputs, contains: (string, string) -> bool)
    requires t == InputsOf(OneWindow(0.5), FullDiscountRules(), [FREE, KM], contains, None)
    ensures Valid(t) && !Quoted(t).blocked && Quoted(t).discountMinor as real > Quoted(t).subtotalMinor
  {
    StoredHalfAKilometre(contains);
    HalfAKilometreCostsHalfACent(contains);
    HalfACentIsOverDiscounted(t);
  }
}
