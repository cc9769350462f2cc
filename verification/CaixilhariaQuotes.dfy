/** What every caixilharia quote guarantees, and what an unblocked one does. */
module CaixilhariaQuotes {
  import opened Caixilharia
  import opened InsertionOrder
  import opened Rounding
  import opened StableSort
  import opened Sums
  import opened Text
  import opened VerticalPricing
  import opened Wrappers

  // ---------- Areas ----------

  /** A whole number of ten-thousandths of a square metre. */
  predicate FourDecimals(x: real) {
    x * 10000.0 == (x * 10000.0).Floor as real
  }

  lemma RoundAreaIsExact(x: real)
    requires FourDecimals(x)
    ensures RoundArea(x) == x
  {
    var n := (x * 10000.0).Floor;
    RoundIsExactOnIntegers(n);
  }

  lemma RoundAreaHasFourDecimals(x: real)
    ensures FourDecimals(RoundArea(x))
  {
    assert RoundArea(x) * 10000.0 == Round(x * 10000.0) as real;
  }

  lemma {:induction false} ProductOfIntegers(n: int, q: nat)
    ensures (n * q) as real == n as real * q as real
  {
    if q > 0 {
      ProductOfIntegers(n, q - 1);
      assert n * q == n * (q - 1) + n;
      assert n as real * q as real == n as real * (q - 1) as real + n as real;
    }
  }

  lemma FourDecimalsScale(x: real, q: nat, product: real)
    requires FourDecimals(x) && product == x * q as real
    ensures FourDecimals(product)
  {
    var n := (x * 10000.0).Floor;
    ProductOfIntegers(n, q);
    assert product * 10000.0 == n as real * q as real;
    assert product * 10000.0 == (n * q) as real;
  }

  lemma FourDecimalsAdd(x: real, y: real)
    requires FourDecimals(x) && FourDecimals(y)
    ensures FourDecimals(x + y)
  {
    var n := (x * 10000.0).Floor;
    var m := (y * 10000.0).Floor;
    assert (x + y) * 10000.0 == (n + m) as real;
  }

  /** The rounded area of one opening times its whole quantity. */
  function ExactArea(o: Opening): real {
    if Measured(o) then Times(Area(o), o.quantity) else 0.0
  }

  lemma ExactAreaHasFourDecimals(o: Opening)
    requires 0 <= o.quantity
    ensures FourDecimals(ExactArea(o))
  {
    if Measured(o) {
      RoundAreaHasFourDecimals((o.widthMm.value * o.heightMm.value) as real / 1000000.0);
      FourDecimalsScale(Area(o), o.quantity, ExactArea(o));
    }
  }

  /** Rounding the running total at every opening loses nothing: the total is the sum of the rounded areas. */
  lemma {:induction false} TotalAreaIsExact(openings: seq<Opening>)
    requires forall o :: o in openings ==> 0 <= o.quantity
    ensures TotalArea(openings) == SumBy(openings, ExactArea)
    ensures FourDecimals(TotalArea(openings))
  {
    if openings == [] {
    } else {
      var init, o := openings[..|openings| - 1], openings[|openings| - 1];
      TotalAreaIsExact(init);
      assert openings == init + [o];
      SumByAppend(init, o, ExactArea);
      ExactAreaHasFourDecimals(o);
      FourDecimalsAdd(TotalArea(init), ExactArea(o));
      RoundAreaIsExact(TotalArea(init) + ExactArea(o));
    }
  }

  lemma RoundAreaMonotone(x: real, y: real)
    requires x <= y
    ensures RoundArea(x) <= RoundArea(y)
  {
    RoundMonotone(x * 10000.0, y * 10000.0);
  }

  lemma ScaledMonotone(x: real, y: real, q: nat, xq: real, yq: real)
    requires x <= y && xq == x * q as real && yq == y * q as real
    ensures xq <= yq
  {
    ProductNonNegative(y - x, q as real);
    assert (y - x) * q as real == yq - xq;
  }

  /** No opening is billed below its area. */
  lemma BillableIsAtLeastTheArea(o: Opening, minimum: Option<Config>)
    requires Measured(o) && 0 <= o.quantity
    ensures Billable(o, minimum) >= ExactArea(o)
  {
    var each, exact := BillableEach(o, minimum), ExactArea(o);
    var billed := Times(each, o.quantity);
    ScaledMonotone(Area(o), each, o.quantity, exact, billed);
    RoundAreaMonotone(exact, billed);
    ExactAreaHasFourDecimals(o);
    RoundAreaIsExact(ExactArea(o));
  }

  lemma NearProduct(area: real, price: real, unit: int, product: real)
    requires 0.0 <= area && price - 0.5 <= unit as real <= price + 0.5 && product == Times(area, unit)
    ensures -0.5 * area <= product - area * price <= 0.5 * area
  {
    ProductNonNegative(area, price + 0.5 - unit as real);
    ProductNonNegative(area, unit as real - price + 0.5);
    assert area * (price + 0.5 - unit as real) == area * price + 0.5 * area - product;
    assert area * (unit as real - price + 0.5) == product - area * price + 0.5 * area;
  }

  /**
   A line priced by area is within half a cent, plus half a cent per square metre, of area times price times
   multiplier.
   */
  lemma AreaLineIsNearExact(o: Opening, sku: Sku, area: real, multiplier: real)
    requires 0.0 <= area
    ensures var exact := area * Times(multiplier, sku.basePriceMinor);
      -0.5 - 0.5 * area <= AreaDraft(o, sku, area, multiplier).amountMinor - exact <= 0.5 + 0.5 * area
  {
    var price := Times(multiplier, sku.basePriceMinor);
    var unit := Round(price);
    RoundNear(price);
    NearProduct(area, price, unit, Times(area, unit));
    RoundNear(Times(area, unit));
  }

  /** A preference picks the first selection one of whose keywords it contains; without one the default is used. */
  lemma {:induction false} FirstMatchingSelection(selections: seq<Selection>, preference: string,
      contains: (string, string) -> bool)
    ensures match FirstSelection(selections, preference, contains)
      case None => forall s :: s in selections ==> !AnyKeyword(s.keywords, preference, contains)
      case Some(code) => exists i ::
        && 0 <= i < |selections| && selections[i].skuCode == code &&
          AnyKeyword(selections[i].keywords, preference, contains)
        && forall j :: 0 <= j < i ==> !AnyKeyword(selections[j].keywords, preference, contains)
  {
    if selections != [] && !AnyKeyword(selections[0].keywords, preference, contains) {
      var rest := selections[1..];
      assert selections == [selections[0]] + rest;
      FirstMatchingSelection(rest, preference, contains);
      if FirstSelection(rest, preference, contains).Some? {
        var i :| 0 <= i < |rest| && rest[i].skuCode == FirstSelection(rest, preference, contains).value
          && AnyKeyword(rest[i].keywords, preference, contains)
          && forall j :: 0 <= j < i ==> !AnyKeyword(rest[j].keywords, preference, contains);
        assert selections[i + 1] == rest[i];
        assert forall j :: 0 < j < i + 1 ==> selections[j] == rest[j - 1];
      }
    }
  }

  // ---------- Blocking ----------

  /** An unblocked quote is one for which no step reported anything. */
  lemma UnblockedMeansNothingMissing(t: Inputs)
    requires WellFormed(t.book)
    ensures var q := Quoted(t);
      !q.blocked <==>
        BasePart(t).missing == [] && ClosingRoles(t.book) == [] &&
          CurrencyProblems(RelevantSkus(q.lines, t.catalog)) == []
  {
    var skus := RelevantSkus(Quoted(t).lines, t.catalog);
    NoneDistinct(BasePart(t).missing + ClosingRoles(t.book) + CurrencyProblems(skus));
  }

  lemma NoneDistinct(names: seq<string>)
    ensures Distinct(names) == [] <==> names == []
  {
    DistinctKeeps(names);
    if names != [] {
      assert names[0] in Distinct(names);
    }
  }

  // ---------- The lines add up ----------

  lemma TaxLine(tax: int, book: RuleBook)
    ensures Total(TaxDrafts(tax, book)) == if book.tax.Some? then tax as real else 0.0
    ensures ClosingRoles(book) == [] ==> book.tax.Some?
  {
    OneLineTotal(FixedDraft("IVA", tax as real, Tax));
    assert |ClosingRoles(book)| >= |Unless(book.tax.Some?, "caixilharia.iva")|;
  }

  lemma TotalOfTheLines(t: Inputs)
    requires WellFormed(t.book)
    ensures Total(Quoted(t).lines) == Total(WithMargin(t)) + if t.book.tax.Some? then TaxOf(t) as real else 0.0
  {
    NumberedTotal(AllDrafts(t));
    SumByConcat(WithMargin(t), TaxDrafts(TaxOf(t), t.book), AmountOf);
    TaxLine(TaxOf(t), t.book);
  }

  lemma TotalBelowTheLines(t: Inputs)
    requires WellFormed(t.book)
    ensures Quoted(t).totalMinor + Quoted(t).discountMinor as real == Total(WithMargin(t)) + Quoted(t).taxMinor as real
    ensures Quoted(t).taxMinor == TaxOf(t)
  {
  }

  lemma UnblockedHasTax(t: Inputs)
    requires WellFormed(t.book) && !Quoted(t).blocked
    ensures t.book.tax.Some?
  {
    UnblockedMeansNothingMissing(t);
    TaxLine(0, t.book);
  }

  /** Lines are numbered from one, and together they make up total plus discount unless a tax has no line of its own. */
  lemma LinesAddUp(t: Inputs)
    requires WellFormed(t.book)
    ensures var q := Quoted(t);
      && (forall i :: 0 <= i < |q.lines| ==> q.lines[i].position == i + 1)
      && (Total(q.lines) == q.totalMinor + q.discountMinor as real <==> t.book.tax.Some? || q.taxMinor == 0)
      && (!q.blocked ==> Total(q.lines) == q.totalMinor + q.discountMinor as real)
  {
    TotalOfTheLines(t);
    TotalBelowTheLines(t);
    TaxOnALine(
      Total(WithMargin(t)), Quoted(t).taxMinor, t.book.tax.Some?, Total(Quoted(t).lines),
      Quoted(t).totalMinor + Quoted(t).discountMinor as real);
    if !Quoted(t).blocked {
      UnblockedHasTax(t);
    }
  }

  // ---------- Validated inputs ----------

  ghost predicate ValidOpening(o: Opening) {
    && (o.widthMm.Some? ==> 0 < o.widthMm.value)
    && (o.heightMm.Some? ==> 0 < o.heightMm.value)
    && 0 < o.quantity
  }

  ghost predicate ValidConfig(c: Config) {
    match c
    case Profile(_, _, multipliers) => forall m :: m in multipliers.Values ==> 0.0 < m
    case MinimumBillableArea(areaM2) => 0.0 < areaM2
    case RemoveExisting(amount, _) => 0 <= amount
    case TransportPerKm(_, includedKm) => 0.0 <= includedKm
    case AreaDiscount(thresholds) => forall u :: u in thresholds ==> 0.0 <= u.overAreaM2 && 0.0 <= u.percentage <= 100.0
    case Percentage(pct) => 0.0 <= pct <= 100.0
    case _ => true
  }

  ghost predicate ValidRule(c: Option<Config>) {
    c.Some? ==> ValidConfig(c.value)
  }

  /** What the extraction and rule schemas and the catalog import admit. */
  ghost predicate Valid(t: Inputs) {
    && WellFormed(t.book)
    && ValidRule(t.book.profile) && ValidRule(t.book.minimumArea) && ValidRule(t.book.removal)
    && ValidRule(t.book.transport) && ValidRule(t.book.margin) && ValidRule(t.book.discount)
    && (forall o :: o in t.extraction.openings ==> ValidOpening(o))
    && (forall s :: s in t.catalog ==> 0 <= s.basePriceMinor)
  }

  // ---------- Every line ----------

  lemma AreaLineIsSound(catalog: seq<Sku>, sku: Sku, o: Opening, area: real, multiplier: real)
    requires ActiveRow(sku, sku.id, catalog) && 0 <= sku.basePriceMinor && 0.0 <= area && 0.0 <= multiplier
    ensures Sound(AreaDraft(o, sku, area, multiplier), catalog)
  {
    var unit := Round(Times(multiplier, sku.basePriceMinor));
    ProductNonNegative(multiplier, sku.basePriceMinor as real);
    RoundNonNegative(Times(multiplier, sku.basePriceMinor));
    ProductNonNegative(area, unit as real);
    RoundNonNegative(Times(area, unit));
  }

  /** Whatever the catalog finds for a code can be priced soundly. */
  lemma SoundIfFound(catalog: seq<Sku>, code: string)
    requires forall s :: s in catalog ==> 0 <= s.basePriceMinor
    ensures SkuByCode(catalog, code).Some? ==>
      && (forall description, quantity: real, kind :: 0.0 <= quantity ==>
            Sound(CatalogDraft(SkuByCode(catalog, code).value, description, quantity, kind), catalog))
      && (forall o, area: real, multiplier: real :: 0.0 <= area && 0.0 <= multiplier ==>
            Sound(AreaDraft(o, SkuByCode(catalog, code).value, area, multiplier), catalog))
  {
    if SkuByCode(catalog, code).Some? {
      SkuByCodeFinds(catalog, code);
      var sku := SkuByCode(catalog, code).value;
      forall description, quantity: real, kind | 0.0 <= quantity
        ensures Sound(CatalogDraft(sku, description, quantity, kind), catalog)
      {
        UnitLineIsSound(catalog, sku, description, quantity, kind);
      }
      forall o, area: real, multiplier: real | 0.0 <= area && 0.0 <= multiplier
        ensures Sound(AreaDraft(o, sku, area, multiplier), catalog)
      {
        AreaLineIsSound(catalog, sku, o, area, multiplier);
      }
    }
  }

  lemma BillableNonNegative(o: Opening, minimum: Option<Config>)
    requires Measured(o) && ValidOpening(o)
    ensures 0.0 <= ExactArea(o) <= Billable(o, minimum)
  {
    var w, h := o.widthMm.value, o.heightMm.value;
    assert 0 <= w * h;
    RoundNonNegative((w * h) as real / 1000000.0 * 10000.0);
    assert 0.0 <= Area(o);
    ScaledMonotone(0.0, Area(o), o.quantity, 0.0, ExactArea(o));
    BillableIsAtLeastTheArea(o, minimum);
  }

  lemma OpeningIsSound(o: Opening, t: Inputs)
    requires Valid(t) && ValidOpening(o)
    ensures AllSound(OpeningPart(o, t).drafts, t.catalog)
  {
    if Measured(o) {
      BillableNonNegative(o, t.book.minimumArea);
      ProfileIsSound(o, t);
      GlassIsSound(o, t);
      ExtrasAreSound(o, t);
    }
  }

  lemma ProfileIsSound(o: Opening, t: Inputs)
    requires Valid(t) && Measured(o) && ValidOpening(o)
    ensures AllSound(ProfilePart(o, t).drafts, t.catalog)
  {
    BillableNonNegative(o, t.book.minimumArea);
    if t.book.profile.Some? {
      var rule := t.book.profile.value;
      var code := SelectSkuCode(o.profilePreference, rule.selections, rule.defaultSkuCode, t.contains);
      SoundIfFound(t.catalog, code);
      assert o.openingType.Some? && o.openingType.value in rule.multipliers ==>
        rule.multipliers[o.openingType.value] in rule.multipliers.Values;
    }
  }

  lemma GlassIsSound(o: Opening, t: Inputs)
    requires Valid(t) && Measured(o) && ValidOpening(o)
    ensures AllSound(GlassPart(o, t).drafts, t.catalog)
  {
    BillableNonNegative(o, t.book.minimumArea);
    if t.book.glass.Some? {
      var rule := t.book.glass.value;
      var code := SelectSkuCode(o.glassPreference, rule.selections, rule.defaultSkuCode, t.contains);
      SoundIfFound(t.catalog, code);
    }
  }

  lemma ExtrasAreSound(o: Opening, t: Inputs)
    requires Valid(t) && Measured(o) && ValidOpening(o)
    ensures AllSound(HardwarePart(o, t).drafts, t.catalog)
    ensures AllSound(BlindPart(o, t).drafts, t.catalog)
    ensures AllSound(ScreenPart(o, t).drafts, t.catalog)
  {
    BillableNonNegative(o, t.book.minimumArea);
    if t.book.hardware.Some? && o.openingType.Some? && o.openingType.value in t.book.hardware.value.skuByOpeningType {
      SoundIfFound(t.catalog, t.book.hardware.value.skuByOpeningType[o.openingType.value]);
    }
    if t.book.blind.Some? {
      SoundIfFound(t.catalog, t.book.blind.value.skuCode);
    }
    if t.book.screen.Some? {
      SoundIfFound(t.catalog, t.book.screen.value.skuCode);
    }
  }

  lemma {:induction false} OpeningsAreSound(openings: seq<Opening>, t: Inputs)
    requires Valid(t) && forall o :: o in openings ==> ValidOpening(o)
    ensures AllSound(OpeningsPart(openings, t).drafts, t.catalog)
    ensures 0 <= OpeningCount(openings)
  {
    if openings != [] {
      OpeningsAreSound(openings[..|openings| - 1], t);
      OpeningIsSound(openings[|openings| - 1], t);
    }
  }

  lemma WorkIsSound(t: Inputs)
    requires Valid(t)
    ensures AllSound(LaborPart(t).drafts, t.catalog)
    ensures AllSound(RemovalPart(t).drafts, t.catalog)
    ensures AllSound(TransportPart(t).drafts, t.catalog)
  {
    OpeningsAreSound(t.extraction.openings, t);
    if t.book.labor.Some? {
      SoundIfFound(t.catalog, t.book.labor.value.skuCode);
    }
    if t.book.transport.Some? {
      SoundIfFound(t.catalog, t.book.transport.value.skuCode);
    }
    if t.book.removal.Some? {
      assert 0 <= t.book.removal.value.amountMinorPerOpening * OpeningCount(t.extraction.openings);
    }
  }

  lemma BaseIsSound(t: Inputs)
    requires Valid(t)
    ensures AllSound(BasePart(t).drafts, t.catalog)
  {
    OpeningsAreSound(t.extraction.openings, t);
    WorkIsSound(t);
  }

  lemma MarginIsSound(base: real, t: Inputs)
    requires Valid(t) && 0.0 <= base
    ensures AllSound(MarginDrafts(base, t.book), t.catalog)
  {
    if t.book.margin.Some? {
      PercentNonNegative(base, t.book.margin.value.percentage);
    }
  }

  lemma SubtotalIsSound(t: Inputs)
    requires Valid(t)
    ensures AllSound(WithMargin(t), t.catalog) && 0.0 <= Total(WithMargin(t))
  {
    BaseIsSound(t);
    SoundTotal(BasePart(t).drafts, t.catalog);
    MarginIsSound(Total(BasePart(t).drafts), t);
    SoundConcat(BasePart(t).drafts, MarginDrafts(Total(BasePart(t).drafts), t.book), t.catalog);
    SoundTotal(WithMargin(t), t.catalog);
  }

  /** No line before tax is negative, so neither is the subtotal, and every SKU on a line is an active catalog row. */
  lemma LinesAreSound(t: Inputs)
    requires Valid(t)
    ensures AllSound(WithMargin(t), t.catalog)
    ensures 0.0 <= Quoted(t).subtotalMinor
    ensures forall l :: l in Quoted(t).lines && l.skuId.Some? ==> exists s :: ActiveRow(s, l.skuId.value, t.catalog)
  {
    SubtotalIsSound(t);
    NumberedRows(WithMargin(t), TaxDrafts(TaxOf(t), t.book), t.catalog);
  }

  /** Of an unblocked quote, every line with a SKU is backed by an active catalog row in euros. */
  lemma PricedInEuros(t: Inputs, l: QuoteLine)
    requires Valid(t) && UniqueSkus(t.catalog) && !Quoted(t).blocked
    requires l in Quoted(t).lines && l.skuId.Some?
    ensures exists s :: ActiveRow(s, l.skuId.value, t.catalog) && s.currency == STRATOS_CURRENCY
  {
    LinesAreSound(t);
    UnblockedMeansNothingMissing(t);
    EuroRow(Quoted(t).lines, t.catalog, l);
  }

  // ---------- Nothing is left out of an unblocked quote ----------

  function MaterialQuantity(l: QuoteLine): real {
    if l.kind.Material? then l.quantity else 0.0
  }

  function EquipmentQuantity(l: QuoteLine): real {
    if l.kind.Equipment? then l.quantity else 0.0
  }

  /** Profile and glass for every opening, and a blind where one was asked for. */
  function MaterialDue(o: Opening, minimum: Option<Config>): real
    requires Measured(o)
  {
    var each := Billable(o, minimum);
    each + each + if o.blind == Some(true) then each else 0.0
  }

  /** Hardware for every operable opening, and a screen where one was asked for. */
  function EquipmentDue(o: Opening): real {
    (if o.openingType != Some(Fixo) then o.quantity as real else 0.0)
    + (if o.insectScreen == Some(true) then o.quantity as real else 0.0)
  }

  /** The engine missed nothing for this opening. */
  ghost predicate Complete(o: Opening, t: Inputs)
    requires WellFormed(t.book)
  {
    OpeningPart(o, t).missing == []
  }

  lemma CompleteOpening(o: Opening, t: Inputs)
    requires WellFormed(t.book) && FrameRoles(t.book) == [] && ExtraRoles(t.book) == []
    requires Complete(o, t)
    ensures Measured(o)
    ensures SumBy(OpeningPart(o, t).drafts, MaterialQuantity) == MaterialDue(o, t.book.minimumArea)
    ensures SumBy(OpeningPart(o, t).drafts, EquipmentQuantity) == EquipmentDue(o)
  {
    hide CriticalPart, ProfilePart, GlassPart, HardwarePart, BlindPart, ScreenPart, Joined, SumBy, Billable, FrameRoles,
      ExtraRoles;
    CriticalComplete(o, t);
    PartSums(o, t);
    var c, p, g, h, b, s :=
      CriticalPart(o), ProfilePart(o, t), GlassPart(o, t), HardwarePart(o, t), BlindPart(o, t), ScreenPart(o, t);
    CriticalSum(o, MaterialQuantity);
    CriticalSum(o, EquipmentQuantity);
    OpeningSum(c, p, g, h, b, s, MaterialQuantity);
    OpeningSum(c, p, g, h, b, s, EquipmentQuantity);
  }

  lemma CriticalSum(o: Opening, f: QuoteLine -> real)
    ensures SumBy(CriticalPart(o).drafts, f) == 0.0
  {
  }

  lemma PartSums(o: Opening, t: Inputs)
    requires WellFormed(t.book) && FrameRoles(t.book) == [] && ExtraRoles(t.book) == []
    requires Measured(o) && o.openingType.Some? && Complete(o, t)
    ensures var each := Billable(o, t.book.minimumArea);
      && SumBy(ProfilePart(o, t).drafts, MaterialQuantity) == SumBy(GlassPart(o, t).drafts, MaterialQuantity) == each
      && SumBy(BlindPart(o, t).drafts, MaterialQuantity) == (if o.blind == Some(true) then each else 0.0)
    ensures SumBy(HardwarePart(o, t).drafts, MaterialQuantity) == 0.0
    ensures SumBy(ScreenPart(o, t).drafts, MaterialQuantity) == 0.0
    ensures var each := o.quantity as real;
      && SumBy(HardwarePart(o, t).drafts, EquipmentQuantity) == (if o.openingType != Some(Fixo) then each else 0.0)
      && SumBy(ScreenPart(o, t).drafts, EquipmentQuantity) == (if o.insectScreen == Some(true) then each else 0.0)
    ensures SumBy(ProfilePart(o, t).drafts, EquipmentQuantity) == 0.0
    ensures SumBy(GlassPart(o, t).drafts, EquipmentQuantity) == 0.0
    ensures SumBy(BlindPart(o, t).drafts, EquipmentQuantity) == 0.0
  {
    OneDraftEach(o, t);
    var each := Billable(o, t.book.minimumArea);
    OneSum(ProfilePart(o, t).drafts, true, Material, each);
    OneSum(GlassPart(o, t).drafts, true, Material, each);
    OneSum(HardwarePart(o, t).drafts, o.openingType != Some(Fixo), Equipment, o.quantity as real);
    OneSum(BlindPart(o, t).drafts, o.blind == Some(true), Material, each);
    OneSum(ScreenPart(o, t).drafts, o.insectScreen == Some(true), Equipment, o.quantity as real);
  }

  lemma CriticalComplete(o: Opening, t: Inputs)
    requires WellFormed(t.book) && Complete(o, t)
    ensures Measured(o) && o.openingType.Some?
  {
    assert CriticalPart(o).missing == [];
  }

  lemma OpeningSum(c: Part, p: Part, g: Part, h: Part, b: Part, s: Part, f: QuoteLine -> real)
    ensures SumBy(Joined(Joined(Joined(Joined(Joined(c, p), g), h), b), s).drafts, f) ==
            SumBy(c.drafts, f) + SumBy(p.drafts, f) + SumBy(g.drafts, f) + SumBy(h.drafts, f) +
            SumBy(b.drafts, f) + SumBy(s.drafts, f)
  {
    PartSum(c, p, f);
    PartSum(Joined(c, p), g, f);
    PartSum(Joined(Joined(c, p), g), h, f);
    PartSum(Joined(Joined(Joined(c, p), g), h), b, f);
    PartSum(Joined(Joined(Joined(Joined(c, p), g), h), b), s, f);
  }

  /** drafts is one line of a kind and quantity where one is due, and no line otherwise. */
  ghost predicate OneIf(drafts: seq<QuoteLine>, due: bool, kind: Kind, quantity: real) {
    if due then |drafts| == 1 && drafts[0].kind == kind && drafts[0].quantity == quantity else drafts == []
  }

  lemma OneSum(drafts: seq<QuoteLine>, due: bool, kind: Kind, quantity: real)
    requires OneIf(drafts, due, kind, quantity)
    ensures SumBy(drafts, MaterialQuantity) == if due && kind.Material? then quantity else 0.0
    ensures SumBy(drafts, EquipmentQuantity) == if due && kind.Equipment? then quantity else 0.0
  {
  }

  lemma OneDraftEach(o: Opening, t: Inputs)
    requires WellFormed(t.book) && FrameRoles(t.book) == [] && ExtraRoles(t.book) == []
    requires Measured(o) && o.openingType.Some? && Complete(o, t)
    ensures OneIf(ProfilePart(o, t).drafts, true, Material, Billable(o, t.book.minimumArea))
    ensures OneIf(GlassPart(o, t).drafts, true, Material, Billable(o, t.book.minimumArea))
    ensures OneIf(HardwarePart(o, t).drafts, o.openingType != Some(Fixo), Equipment, o.quantity as real)
    ensures OneIf(BlindPart(o, t).drafts, o.blind == Some(true), Material, Billable(o, t.book.minimumArea))
    ensures OneIf(ScreenPart(o, t).drafts, o.insectScreen == Some(true), Equipment, o.quantity as real)
  {
    assert ProfilePart(o, t).missing == [] && GlassPart(o, t).missing == [] && HardwarePart(o, t).missing == [];
    assert BlindPart(o, t).missing == [] && ScreenPart(o, t).missing == [];
  }

  function AllMaterialDue(openings: seq<Opening>, minimum: Option<Config>): real
    requires forall o :: o in openings ==> Measured(o)
  {
    if openings == [] then 0.0
    else AllMaterialDue(openings[..|openings| - 1], minimum) + MaterialDue(openings[|openings| - 1], minimum)
  }

  function AllEquipmentDue(openings: seq<Opening>): real {
    if openings == [] then 0.0
    else AllEquipmentDue(openings[..|openings| - 1]) + EquipmentDue(openings[|openings| - 1])
  }

  lemma NoRoleMissing(book: RuleBook)
    requires Roles(book) == []
    ensures FrameRoles(book) == [] && ExtraRoles(book) == []
  {
    assert |Roles(book)| == |FrameRoles(book)| + |ExtraRoles(book)|;
  }

  lemma {:induction false} NothingMissingAnywhere(openings: seq<Opening>, t: Inputs)
    requires WellFormed(t.book) && OpeningsPart(openings, t).missing == []
    ensures FrameRoles(t.book) == [] && ExtraRoles(t.book) == []
    ensures forall o :: o in openings ==> Complete(o, t) && Measured(o)
  {
    hide OpeningPart, FrameRoles, ExtraRoles;
    if openings == [] {
      NoRoleMissing(t.book);
    } else {
      var init, o := openings[..|openings| - 1], openings[|openings| - 1];
      NothingMissingAnywhere(init, t);
      CriticalComplete(o, t);
      assert openings == init + [o];
    }
  }

  lemma {:induction false} MaterialOfOpenings(openings: seq<Opening>, t: Inputs)
    requires WellFormed(t.book) && FrameRoles(t.book) == [] && ExtraRoles(t.book) == []
    requires forall o :: o in openings ==> Complete(o, t) && Measured(o)
    ensures SumBy(OpeningsPart(openings, t).drafts, MaterialQuantity) == AllMaterialDue(openings, t.book.minimumArea)
  {
    if openings != [] {
      var init, o := openings[..|openings| - 1], openings[|openings| - 1];
      assert openings == init + [o];
      MaterialOfOpenings(init, t);
      CompleteOpening(o, t);
      OneMoreOpening(openings, t, MaterialQuantity);
    }
  }

  lemma {:induction false} EquipmentOfOpenings(openings: seq<Opening>, t: Inputs)
    requires WellFormed(t.book) && FrameRoles(t.book) == [] && ExtraRoles(t.book) == []
    requires forall o :: o in openings ==> Complete(o, t)
    ensures SumBy(OpeningsPart(openings, t).drafts, EquipmentQuantity) == AllEquipmentDue(openings)
  {
    if openings != [] {
      var init, o := openings[..|openings| - 1], openings[|openings| - 1];
      assert openings == init + [o];
      EquipmentOfOpenings(init, t);
      CompleteOpening(o, t);
      OneMoreOpening(openings, t, EquipmentQuantity);
    }
  }

  lemma OneMoreOpening(openings: seq<Opening>, t: Inputs, f: QuoteLine -> real)
    requires WellFormed(t.book) && openings != []
    ensures SumBy(OpeningsPart(openings, t).drafts, f) ==
            SumBy(OpeningsPart(openings[..|openings| - 1], t).drafts, f) +
            SumBy(OpeningPart(openings[|openings| - 1], t).drafts, f)
  {
    PartSum(OpeningsPart(openings[..|openings| - 1], t), OpeningPart(openings[|openings| - 1], t), f);
  }

  lemma {:induction false} DueCoversTheArea(openings: seq<Opening>, minimum: Option<Config>)
    requires forall o :: o in openings ==> Measured(o) && ValidOpening(o)
    ensures AllMaterialDue(openings, minimum) >= 2.0 * TotalArea(openings)
  {
    if openings != [] {
      var init, o := openings[..|openings| - 1], openings[|openings| - 1];
      assert openings == init + [o];
      assert ValidOpening(o) && forall p :: p in init ==> ValidOpening(p);
      DueCoversTheArea(init, minimum);
      OneMoreArea(init, o);
      DueCoversOne(o, minimum);
    }
  }

  lemma OneMoreArea(init: seq<Opening>, o: Opening)
    requires ValidOpening(o) && forall p :: p in init ==> ValidOpening(p)
    ensures TotalArea(init + [o]) == TotalArea(init) + ExactArea(o)
  {
    TotalAreaIsExact(init);
    TotalAreaIsExact(init + [o]);
    SumByAppend(init, o, ExactArea);
  }

  lemma DueCoversOne(o: Opening, minimum: Option<Config>)
    requires Measured(o) && ValidOpening(o)
    ensures MaterialDue(o, minimum) >= 2.0 * ExactArea(o)
  {
    BillableNonNegative(o, minimum);
  }

  /** f looks at material or equipment lines only. */
  ghost predicate OnlyGoods(f: QuoteLine -> real) {
    && (forall l: QuoteLine, n: int :: f(l.(position := n)) == f(l))
    && (forall l: QuoteLine :: !l.kind.Material? && !l.kind.Equipment? ==> f(l) == 0.0)
  }

  lemma NoGoods(drafts: seq<QuoteLine>, f: QuoteLine -> real)
    requires OnlyGoods(f) && |drafts| <= 1
    requires drafts != [] ==> !drafts[0].kind.Material? && !drafts[0].kind.Equipment?
    ensures SumBy(drafts, f) == 0.0
  {
  }

  lemma BaseGoods(t: Inputs, f: QuoteLine -> real)
    requires WellFormed(t.book) && OnlyGoods(f)
    ensures SumBy(BasePart(t).drafts, f) == SumBy(OpeningsPart(t.extraction.openings, t).drafts, f)
  {
    var openings := OpeningsPart(t.extraction.openings, t);
    NoGoods(LaborPart(t).drafts, f);
    NoGoods(RemovalPart(t).drafts, f);
    NoGoods(TransportPart(t).drafts, f);
    PartSum(Joined(Joined(openings, LaborPart(t)), RemovalPart(t)), TransportPart(t), f);
    PartSum(Joined(openings, LaborPart(t)), RemovalPart(t), f);
    PartSum(openings, LaborPart(t), f);
  }

  lemma OnlyOpeningsNeedGoods(t: Inputs, f: QuoteLine -> real)
    requires WellFormed(t.book) && OnlyGoods(f)
    ensures SumBy(Quoted(t).lines, f) == SumBy(OpeningsPart(t.extraction.openings, t).drafts, f)
  {
    var margin, tax := MarginDrafts(Total(BasePart(t).drafts), t.book), TaxDrafts(TaxOf(t), t.book);
    BaseGoods(t, f);
    NoGoods(margin, f);
    NoGoods(tax, f);
    NumberedSum(AllDrafts(t), f);
    SumByConcat(WithMargin(t), tax, f);
    SumByConcat(BasePart(t).drafts, margin, f);
  }

  lemma QuantitiesAreOfGoods()
    ensures OnlyGoods(MaterialQuantity) && OnlyGoods(EquipmentQuantity)
  {
  }

  lemma UnblockedOpenings(t: Inputs)
    requires WellFormed(t.book) && !Quoted(t).blocked
    ensures OpeningsPart(t.extraction.openings, t).missing == []
  {
    UnblockedMeansNothingMissing(t);
  }

  /**
   An unblocked quote bills every opening: its material lines cover exactly profile, glass and requested blinds
   at the billable area, its equipment lines exactly the hardware and requested screens, and never less material
   than twice the total area.
   */
  lemma UnblockedBillsEveryOpening(t: Inputs)
    requires Valid(t) && !Quoted(t).blocked
    ensures forall o :: o in t.extraction.openings ==> Measured(o)
    ensures SumBy(Quoted(t).lines, MaterialQuantity) == AllMaterialDue(t.extraction.openings, t.book.minimumArea)
    ensures SumBy(Quoted(t).lines, EquipmentQuantity) == AllEquipmentDue(t.extraction.openings)
    ensures SumBy(Quoted(t).lines, MaterialQuantity) >= 2.0 * Quoted(t).totalAreaM2
  {
    UnblockedOpenings(t);
    QuantitiesAreOfGoods();
    NothingMissingAnywhere(t.extraction.openings, t);
    MaterialOfOpenings(t.extraction.openings, t);
    EquipmentOfOpenings(t.extraction.openings, t);
    OnlyOpeningsNeedGoods(t, MaterialQuantity);
    OnlyOpeningsNeedGoods(t, EquipmentQuantity);
    DueCoversTheArea(t.extraction.openings, t.book.minimumArea);
  }

  // ---------- The order of the stored rows ----------

  lemma SameFrame(o: Opening, t: Inputs, u: Inputs)
    requires WellFormed(t.book) && SameLookups(t.catalog, u.catalog) && u == t.(catalog := u.catalog) && Measured(o)
    ensures ProfilePart(o, t) == ProfilePart(o, u) && GlassPart(o, t) == GlassPart(o, u)
  {
  }

  lemma SameExtras(o: Opening, t: Inputs, u: Inputs)
    requires WellFormed(t.book) && SameLookups(t.catalog, u.catalog) && u == t.(catalog := u.catalog) && Measured(o)
    ensures HardwarePart(o, t) == HardwarePart(o, u) && BlindPart(o, t) == BlindPart(o, u) &&
      ScreenPart(o, t) == ScreenPart(o, u)
  {
  }

  lemma SameOpening(o: Opening, t: Inputs, u: Inputs)
    requires WellFormed(t.book) && SameLookups(t.catalog, u.catalog) && u == t.(catalog := u.catalog)
    ensures OpeningPart(o, t) == OpeningPart(o, u)
  {
    if Measured(o) {
      SameFrame(o, t, u);
      SameExtras(o, t, u);
    }
  }

  lemma {:induction false} SameOpenings(openings: seq<Opening>, t: Inputs, u: Inputs)
    requires WellFormed(t.book) && SameLookups(t.catalog, u.catalog) && u == t.(catalog := u.catalog)
    ensures OpeningsPart(openings, t) == OpeningsPart(openings, u)
  {
    if openings != [] {
      SameOpenings(openings[..|openings| - 1], t, u);
      SameOpening(openings[|openings| - 1], t, u);
    }
  }

  /** With distinct sort orders and unique SKU ids and codes, the order of the rule and catalog rows does not matter. */
  lemma QuoteIgnoresRowOrder(
    e: Extraction, rules: seq<Rule<Config>>, rules': seq<Rule<Config>>, catalog: seq<Sku>, catalog': seq<Sku>,
    contains: (string, string) -> bool, taxRate: Option<real>)
    requires multiset(rules) == multiset(rules') && DistinctKeys(rules, BySortOrder)
    requires multiset(catalog) == multiset(catalog') && UniqueSkus(catalog)
    ensures WellFormed(InputsOf(e, rules, catalog, contains, taxRate).book)
    ensures WellFormed(InputsOf(e, rules', catalog', contains, taxRate).book)
    ensures Quoted(InputsOf(e, rules, catalog, contains, taxRate)) ==
      Quoted(InputsOf(e, rules', catalog', contains, taxRate))
  {
    BookIsWellFormed(ActiveRules(rules, CAIXILHARIA));
    ActiveRulesOfPermutation(rules, rules', CAIXILHARIA);
    SameWhateverTheCatalogOrder(
      InputsOf(e, rules, catalog, contains, taxRate), InputsOf(e, rules', catalog', contains, taxRate));
  }

  lemma SameBase(t: Inputs, u: Inputs)
    requires WellFormed(t.book) && SameLookups(t.catalog, u.catalog) && u == t.(catalog := u.catalog)
    ensures BasePart(t) == BasePart(u)
  {
    hide OpeningsPart;
    SameOpenings(t.extraction.openings, t, u);
  }

  lemma SameClosing(t: Inputs, u: Inputs)
    requires WellFormed(t.book) && u == t.(catalog := u.catalog) && BasePart(t) == BasePart(u)
    ensures AllDrafts(t) == AllDrafts(u) && Discount(t) == Discount(u) && TaxOf(t) == TaxOf(u)
  {
    hide BasePart;
    SameFigures(t, u);
    assert WithMargin(t) == WithMargin(u);
  }

  lemma SameFigures(t: Inputs, u: Inputs)
    requires WellFormed(t.book) && u == t.(catalog := u.catalog) && WithMargin(t) == WithMargin(u)
    ensures Discount(t) == Discount(u) && TaxOf(t) == TaxOf(u)
  {
    hide WithMargin;
  }

  lemma SameWhateverTheCatalogOrder(t: Inputs, u: Inputs)
    requires WellFormed(t.book) && u == t.(catalog := u.catalog)
    requires multiset(t.catalog) == multiset(u.catalog) && UniqueSkus(t.catalog)
    ensures Quoted(t) == Quoted(u)
  {
    SameLookupsOfPermutation(t.catalog, u.catalog);
    SameBase(t, u);
    SameClosing(t, u);
    RelevantOfPermutation(Numbered(AllDrafts(t)), t.catalog, u.catalog);
  }
}
