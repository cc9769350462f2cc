/**
 The caixilharia (window and door frames) engine: areas are billed per opening from tenant-owned rules
 and catalog rows, then labour, removal, transport, margin, the area discount and tax. Whatever is
 missing is recorded, and a quote with anything missing is blocked.
 */
module Caixilharia {
  import opened InsertionOrder
  import opened Rounding
  import opened StableSort
  import opened Text
  import opened VerticalPricing
  import opened Wrappers

  datatype OpeningType = Fixo | Batente | OsciloBatente | Correr

  datatype Selection = Selection(keywords: seq<string>, skuCode: string)

  datatype Threshold = Threshold(overAreaM2: real, percentage: real)

  /** Rule configurations after schema validation, one constructor per role. */
  datatype Config =
    | Profile(selections: seq<Selection>, defaultSkuCode: string, multipliers: map<OpeningType, real>)
    | Glass(selections: seq<Selection>, defaultSkuCode: string)
    | Hardware(skuByOpeningType: map<OpeningType, string>)
    | Blind(skuCode: string)
    | InsectScreen(skuCode: string)
    | MinimumBillableArea(areaM2: real)
    | RemoveExisting(amountMinorPerOpening: int, description: string)
    | TransportPerKm(skuCode: string, includedKm: real)
    | InstallationPerOpening(skuCode: string)
    | AreaDiscount(thresholds: seq<Threshold>)
    | Percentage(percentage: real)
    | Malformed

  datatype Opening = Opening(
    ref: string, widthMm: Option<int>, heightMm: Option<int>, openingType: Option<OpeningType>,
    profilePreference: Option<string>, glassPreference: Option<string>,
    blind: Option<bool>, insectScreen: Option<bool>, quantity: int)

  datatype Extraction = Extraction(openings: seq<Opening>, removeExisting: Option<bool>, distanceKm: Option<real>)

  datatype PricedQuote = PricedQuote(
    lines: seq<QuoteLine>, subtotalMinor: real, discountMinor: int, taxMinor: int, totalMinor: real,
    leadTimeDays: Option<int>, currency: string, totalAreaM2: real, blocked: bool, missingRules: seq<string>)

  /** The rules one quote uses: for each role the first that parses. */
  datatype RuleBook = RuleBook(
    profile: Option<Config>, glass: Option<Config>, hardware: Option<Config>, blind: Option<Config>,
    screen: Option<Config>, minimumArea: Option<Config>, labor: Option<Config>, removal: Option<Config>,
    transport: Option<Config>, margin: Option<Config>, discount: Option<Config>, tax: Option<Config>)

  /** Everything a quote is computed from. `contains` tells whether a preference contains a keyword, both normalised. */
  datatype Inputs = Inputs(
    extraction: Extraction, book: RuleBook, catalog: seq<Sku>, contains: (string, string) -> bool,
    taxRate: Option<real>)

  function InputsOf(
    extraction: Extraction, allRules: seq<Rule<Config>>, catalog: seq<Sku>, contains: (string, string) -> bool,
    taxRate: Option<real>): Inputs
  {
    Inputs(extraction, Book(ActiveRules(allRules, CAIXILHARIA)), catalog, contains, taxRate)
  }

  predicate IsProfile(c: Config) { c.Profile? }
  predicate IsGlass(c: Config) { c.Glass? }
  predicate IsHardware(c: Config) { c.Hardware? }
  predicate IsBlind(c: Config) { c.Blind? }
  predicate IsScreen(c: Config) { c.InsectScreen? }
  predicate IsMinimumArea(c: Config) { c.MinimumBillableArea? }
  predicate IsLabor(c: Config) { c.InstallationPerOpening? }
  predicate IsRemoval(c: Config) { c.RemoveExisting? }
  predicate IsTransport(c: Config) { c.TransportPerKm? }
  predicate IsAreaDiscount(c: Config) { c.AreaDiscount? }
  predicate IsPercentage(c: Config) { c.Percentage? }

  function Book(rules: seq<Rule<Config>>): RuleBook {
    RuleBook(
      FirstConfig(rules, CATALOG_UNIT, IsProfile), FirstConfig(rules, CATALOG_UNIT, IsGlass),
      FirstConfig(rules, CATALOG_UNIT, IsHardware), FirstConfig(rules, CATALOG_UNIT, IsBlind),
      FirstConfig(rules, CATALOG_UNIT, IsScreen), FirstConfig(rules, FIXED_ADDER, IsMinimumArea),
      FirstConfig(rules, LABOR_HOURS, IsLabor), FirstConfig(rules, FIXED_ADDER, IsRemoval),
      FirstConfig(rules, CONDITIONAL_SURCHARGE, IsTransport), FirstConfig(rules, MARGIN_MARKUP, IsPercentage),
      FirstConfig(rules, QTY_BREAK, IsAreaDiscount), FirstConfig(rules, TAX, IsPercentage))
  }

  /** Every rule of the book has the configuration its role asks for. */
  predicate WellFormed(book: RuleBook) {
    && (book.profile.Some? ==> book.profile.value.Profile?)
    && (book.glass.Some? ==> book.glass.value.Glass?)
    && (book.hardware.Some? ==> book.hardware.value.Hardware?)
    && (book.blind.Some? ==> book.blind.value.Blind?)
    && (book.screen.Some? ==> book.screen.value.InsectScreen?)
    && (book.minimumArea.Some? ==> book.minimumArea.value.MinimumBillableArea?)
    && (book.labor.Some? ==> book.labor.value.InstallationPerOpening?)
    && (book.removal.Some? ==> book.removal.value.RemoveExisting?)
    && (book.transport.Some? ==> book.transport.value.TransportPerKm?)
    && (book.margin.Some? ==> book.margin.value.Percentage?)
    && (book.discount.Some? ==> book.discount.value.AreaDiscount?)
    && (book.tax.Some? ==> book.tax.value.Percentage?)
  }

  lemma BookIsWellFormed(rules: seq<Rule<Config>>)
    ensures WellFormed(Book(rules))
  {
    FirstConfigParses(rules, CATALOG_UNIT, IsProfile);
    FirstConfigParses(rules, CATALOG_UNIT, IsGlass);
    FirstConfigParses(rules, CATALOG_UNIT, IsHardware);
    FirstConfigParses(rules, CATALOG_UNIT, IsBlind);
    FirstConfigParses(rules, CATALOG_UNIT, IsScreen);
    FirstConfigParses(rules, FIXED_ADDER, IsMinimumArea);
    FirstConfigParses(rules, LABOR_HOURS, IsLabor);
    FirstConfigParses(rules, FIXED_ADDER, IsRemoval);
    FirstConfigParses(rules, CONDITIONAL_SURCHARGE, IsTransport);
    FirstConfigParses(rules, MARGIN_MARKUP, IsPercentage);
    FirstConfigParses(rules, QTY_BREAK, IsAreaDiscount);
    FirstConfigParses(rules, TAX, IsPercentage);
  }

  function TypeName(t: OpeningType): string {
    match t
    case Fixo => "fixo"
    case Batente => "batente"
    case OsciloBatente => "oscilo-batente"
    case Correr => "correr"
  }

  // ---------- Areas, in square metres to four decimals ----------

  function RoundArea(value: real): real {
    Round(value * 10000.0) as real / 10000.0
  }

  function Times(x: real, n: int): real {
    x * n as real
  }

  predicate Measured(o: Opening) {
    o.widthMm.Some? && o.heightMm.Some?
  }

  function Area(o: Opening): real
    requires Measured(o)
  {
    RoundArea((o.widthMm.value * o.heightMm.value) as real / 1000000.0)
  }

  function BillableEach(o: Opening, minimum: Option<Config>): real
    requires Measured(o)
  {
    match minimum
    case Some(MinimumBillableArea(m)) => Max(Area(o), m)
    case _ => Area(o)
  }

  function Billable(o: Opening, minimum: Option<Config>): real
    requires Measured(o)
  {
    RoundArea(Times(BillableEach(o, minimum), o.quantity))
  }

  function AddArea(total: real, o: Opening): real {
    if Measured(o) then RoundArea(total + Times(Area(o), o.quantity)) else total
  }

  function TotalArea(openings: seq<Opening>): real {
    if openings == [] then 0.0 else AddArea(TotalArea(openings[..|openings| - 1]), openings[|openings| - 1])
  }

  function CountOf(o: Opening): int {
    if Measured(o) then o.quantity else 0
  }

  function OpeningCount(openings: seq<Opening>): int {
    if openings == [] then 0 else OpeningCount(openings[..|openings| - 1]) + CountOf(openings[|openings| - 1])
  }

  // ---------- Lines of one opening ----------

  predicate AnyKeyword(keywords: seq<string>, preference: string, contains: (string, string) -> bool) {
    exists k :: k in keywords && contains(preference, k)
  }

  function FirstSelection(selections: seq<Selection>, preference: string,
      contains: (string, string) -> bool): Option<string> {
    if selections == [] then None
    else if AnyKeyword(selections[0].keywords, preference, contains) then Some(selections[0].skuCode)
    else FirstSelection(selections[1..], preference, contains)
  }

  function SelectSkuCode(
    preference: Option<string>, selections: seq<Selection>, fallback: string,
    contains: (string, string) -> bool): string
  {
    if preference.None? then fallback
    else
      match FirstSelection(selections, preference.value, contains)
      case Some(code) => code
      case None => fallback
  }

  function Label(o: Opening, sku: Sku): string {
    o.ref + " \U{2014} " + sku.name
  }

  function AreaDraft(o: Opening, sku: Sku, areaM2: real, multiplier: real): QuoteLine {
    var unit := Round(Times(multiplier, sku.basePriceMinor));
    QuoteLine(Some(sku.id), Label(o, sku), areaM2, unit as real, Round(Times(areaM2, unit)) as real, 0, Material)
  }

  function CriticalPart(o: Opening): Part {
    Part([],
      Unless(o.widthMm.Some?, "critical_input.openings." + o.ref + ".width_mm")
      + Unless(o.heightMm.Some?, "critical_input.openings." + o.ref + ".height_mm")
      + Unless(o.openingType.Some?, "critical_input.openings." + o.ref + ".opening_type"))
  }

  function ProfilePart(o: Opening, t: Inputs): Part
    requires Measured(o) && WellFormed(t.book)
  {
    if t.book.profile.None? then NOTHING
    else
      var rule := t.book.profile.value;
      var code := SelectSkuCode(o.profilePreference, rule.selections, rule.defaultSkuCode, t.contains);
      match SkuByCode(t.catalog, code)
      case None => Absent(code)
      case Some(sku) =>
        if o.openingType.None? then Part([AreaDraft(o, sku, Billable(o, t.book.minimumArea), 1.0)], [])
        else if o.openingType.value !in rule.multipliers then
          Part([], ["caixilharia.profile.multiplier." + TypeName(o.openingType.value)])
        else Part([AreaDraft(o, sku, Billable(o, t.book.minimumArea), rule.multipliers[o.openingType.value])], [])
  }

  function GlassPart(o: Opening, t: Inputs): Part
    requires Measured(o) && WellFormed(t.book)
  {
    if t.book.glass.None? then NOTHING
    else
      var rule := t.book.glass.value;
      var code := SelectSkuCode(o.glassPreference, rule.selections, rule.defaultSkuCode, t.contains);
      match SkuByCode(t.catalog, code)
      case None => Absent(code)
      case Some(sku) => Part([AreaDraft(o, sku, Billable(o, t.book.minimumArea), 1.0)], [])
  }

  function HardwarePart(o: Opening, t: Inputs): Part
    requires WellFormed(t.book)
  {
    if t.book.hardware.None? || o.openingType.None? || o.openingType.value.Fixo? then NOTHING
    else if o.openingType.value !in t.book.hardware.value.skuByOpeningType then
      Part([], ["caixilharia.hardware." + TypeName(o.openingType.value)])
    else
      var code := t.book.hardware.value.skuByOpeningType[o.openingType.value];
      match SkuByCode(t.catalog, code)
      case None => Absent(code)
      case Some(sku) => Part([CatalogDraft(sku, Label(o, sku), o.quantity as real, Equipment)], [])
  }

  function BlindPart(o: Opening, t: Inputs): Part
    requires Measured(o) && WellFormed(t.book)
  {
    if o.blind != Some(true) || t.book.blind.None? then NOTHING
    else
      match SkuByCode(t.catalog, t.book.blind.value.skuCode)
      case None => Absent(t.book.blind.value.skuCode)
      case Some(sku) => Part([AreaDraft(o, sku, Billable(o, t.book.minimumArea), 1.0)], [])
  }

  function ScreenPart(o: Opening, t: Inputs): Part
    requires WellFormed(t.book)
  {
    if o.insectScreen != Some(true) || t.book.screen.None? then NOTHING
    else
      match SkuByCode(t.catalog, t.book.screen.value.skuCode)
      case None => Absent(t.book.screen.value.skuCode)
      case Some(sku) => Part([CatalogDraft(sku, Label(o, sku), o.quantity as real, Equipment)], [])
  }

  /** An opening without both measures is only reported. */
  function OpeningPart(o: Opening, t: Inputs): Part
    requires WellFormed(t.book)
  {
    if !Measured(o) then CriticalPart(o)
    else
      Joined(Joined(Joined(Joined(Joined(
        CriticalPart(o), ProfilePart(o, t)), GlassPart(o, t)), HardwarePart(o, t)), BlindPart(o, t)), ScreenPart(o, t))
  }

  function FrameRoles(book: RuleBook): seq<string> {
    Unless(book.profile.Some?, "caixilharia.profile")
    + Unless(book.glass.Some?, "caixilharia.glass")
    + Unless(book.hardware.Some?, "caixilharia.hardware")
  }

  function ExtraRoles(book: RuleBook): seq<string> {
    Unless(book.blind.Some?, "caixilharia.blind")
    + Unless(book.screen.Some?, "caixilharia.insect_screen")
    + Unless(book.minimumArea.Some?, "caixilharia.minimum_billable_area")
    + Unless(book.labor.Some?, "caixilharia.installation.labor")
  }

  function Roles(book: RuleBook): seq<string> {
    FrameRoles(book) + ExtraRoles(book)
  }

  function OpeningsPart(openings: seq<Opening>, t: Inputs): Part
    requires WellFormed(t.book)
  {
    if openings == [] then Part([], Roles(t.book))
    else Joined(OpeningsPart(openings[..|openings| - 1], t), OpeningPart(openings[|openings| - 1], t))
  }

  // ---------- The rest of the quote ----------

  function LaborPart(t: Inputs): Part
    requires WellFormed(t.book)
  {
    var count := OpeningCount(t.extraction.openings);
    if t.book.labor.None? || count <= 0 then NOTHING
    else
      match SkuByCode(t.catalog, t.book.labor.value.skuCode)
      case None => Absent(t.book.labor.value.skuCode)
      case Some(sku) => Part([CatalogDraft(sku, sku.name, count as real, Labor)], [])
  }

  function RemovalPart(t: Inputs): Part
    requires WellFormed(t.book)
  {
    if t.extraction.removeExisting != Some(true) then NOTHING
    else if t.book.removal.None? then Part([], ["caixilharia.remove_existing"])
    else
      var rule, count := t.book.removal.value, OpeningCount(t.extraction.openings);
      Part([QuoteLine(None, rule.description, count as real, rule.amountMinorPerOpening as real,
                      (rule.amountMinorPerOpening * count) as real, 0, Labor)], [])
  }

  function TransportPart(t: Inputs): Part
    requires WellFormed(t.book)
  {
    if t.extraction.distanceKm.None? then NOTHING
    else if t.book.transport.None? then Part([], ["caixilharia.transport"])
    else
      var rule := t.book.transport.value;
      var chargeableKm := Max(0.0, t.extraction.distanceKm.value - rule.includedKm);
      if chargeableKm <= 0.0 then NOTHING
      else
        match SkuByCode(t.catalog, rule.skuCode)
        case None => Absent(rule.skuCode)
        case Some(sku) => Part([CatalogDraft(sku, sku.name, chargeableKm, Labor)], [])
  }

  function MarginDrafts(base: real, book: RuleBook): seq<QuoteLine>
    requires WellFormed(book)
  {
    if book.margin.None? then []
    else [FixedDraft("Margem comercial", PercentOf(base, book.margin.value.percentage) as real, Margin)]
  }

  /** Everything before margin. */
  function BasePart(t: Inputs): Part
    requires WellFormed(t.book)
  {
    Joined(Joined(Joined(OpeningsPart(t.extraction.openings, t), LaborPart(t)), RemovalPart(t)), TransportPart(t))
  }

  function OverDescending(threshold: Threshold): real {
    -threshold.overAreaM2
  }

  function FirstExceeded(thresholds: seq<Threshold>, area: real): Option<Threshold> {
    if thresholds == [] then None
    else if area > thresholds[0].overAreaM2 then Some(thresholds[0])
    else FirstExceeded(thresholds[1..], area)
  }

  function DiscountPercentage(discount: Option<Config>, area: real): real
    requires discount.Some? ==> discount.value.AreaDiscount?
  {
    if discount.None? then 0.0
    else
      match FirstExceeded(SortBy(discount.value.thresholds, OverDescending), area)
      case None => 0.0
      case Some(threshold) => threshold.percentage
  }

  function TaxPercentage(t: Inputs): Option<real>
    requires WellFormed(t.book)
  {
    if t.taxRate.Some? then Some(t.taxRate.value * 100.0)
    else if t.book.tax.Some? then Some(t.book.tax.value.percentage)
    else None
  }

  function TaxOn(taxable: real, pct: Option<real>): int {
    if pct.None? then 0 else PercentOf(taxable, pct.value)
  }

  function TaxDrafts(tax: int, book: RuleBook): seq<QuoteLine> {
    if book.tax.None? then [] else [FixedDraft("IVA", tax as real, Tax)]
  }

  predicate ManyCurrencies(skus: seq<Sku>) {
    exists i, j :: 0 <= i < j < |skus| && skus[i].currency != skus[j].currency
  }

  function ClosingRoles(book: RuleBook): seq<string> {
    Unless(book.margin.Some?, "caixilharia.margin")
    + Unless(book.discount.Some?, "caixilharia.area_discount")
    + Unless(book.tax.Some?, "caixilharia.iva")
  }

  function CurrencyProblems(skus: seq<Sku>): seq<string> {
    Unless(!ManyCurrencies(skus), "catalog.currency_mismatch") + Unless(AllEuro(skus), "catalog.currency_must_be_eur")
  }

  function WithMargin(t: Inputs): seq<QuoteLine>
    requires WellFormed(t.book)
  {
    BasePart(t).drafts + MarginDrafts(Total(BasePart(t).drafts), t.book)
  }

  function Discount(t: Inputs): int
    requires WellFormed(t.book)
  {
    PercentOf(Total(WithMargin(t)), DiscountPercentage(t.book.discount, TotalArea(t.extraction.openings)))
  }

  function TaxOf(t: Inputs): int
    requires WellFormed(t.book)
  {
    TaxOn(Total(WithMargin(t)) - Discount(t) as real, TaxPercentage(t))
  }

  function AllDrafts(t: Inputs): seq<QuoteLine>
    requires WellFormed(t.book)
  {
    WithMargin(t) + TaxDrafts(TaxOf(t), t.book)
  }

  /** What the engine returns. */
  function Quoted(t: Inputs): PricedQuote
    requires WellFormed(t.book)
  {
    var subtotal := Total(WithMargin(t));
    var lines := Numbered(AllDrafts(t));
    var skus := RelevantSkus(lines, t.catalog);
    var missing := Distinct(BasePart(t).missing + ClosingRoles(t.book) + CurrencyProblems(skus));
    PricedQuote(lines, subtotal, Discount(t), TaxOf(t), subtotal - Discount(t) as real + TaxOf(t) as real,
                MaxLeadTime(skus), STRATOS_CURRENCY, TotalArea(t.extraction.openings), missing != [], missing)
  }

  // ---------- The engine ----------

  method PriceProfile(sheet: Sheet, o: Opening, t: Inputs)
    requires sheet.Valid() && Measured(o) && WellFormed(t.book)
    modifies sheet
    ensures sheet.Valid() && sheet.pushed == Joined(old(sheet.pushed), ProfilePart(o, t))
  {
    if t.book.profile.Some? {
      var rule := t.book.profile.value;
      var code := SelectSkuCode(o.profilePreference, rule.selections, rule.defaultSkuCode, t.contains);
      var sku := sheet.RequireSku(code, t.catalog);
      if sku.Some? {
        if o.openingType.Some? && o.openingType.value !in rule.multipliers {
          sheet.Miss("caixilharia.profile.multiplier." + TypeName(o.openingType.value));
        } else {
          var multiplier := if o.openingType.None? then 1.0 else rule.multipliers[o.openingType.value];
          sheet.Push(AreaDraft(o, sku.value, Billable(o, t.book.minimumArea), multiplier));
        }
      }
    }
  }

  method PriceGlass(sheet: Sheet, o: Opening, t: Inputs)
    requires sheet.Valid() && Measured(o) && WellFormed(t.book)
    modifies sheet
    ensures sheet.Valid() && sheet.pushed == Joined(old(sheet.pushed), GlassPart(o, t))
  {
    if t.book.glass.Some? {
      var rule := t.book.glass.value;
      var sku := sheet.RequireSku(SelectSkuCode(o.glassPreference, rule.selections, rule.defaultSkuCode, t.contains),
        t.catalog);
      if sku.Some? {
        sheet.Push(AreaDraft(o, sku.value, Billable(o, t.book.minimumArea), 1.0));
      }
    }
  }

  /** A fixed pane has no hardware; every operable type must map to a SKU. */
  method PriceHardware(sheet: Sheet, o: Opening, t: Inputs)
    requires sheet.Valid() && WellFormed(t.book)
    modifies sheet
    ensures sheet.Valid() && sheet.pushed == Joined(old(sheet.pushed), HardwarePart(o, t))
  {
    if t.book.hardware.Some? && o.openingType.Some? && o.openingType.value != Fixo {
      var codes := t.book.hardware.value.skuByOpeningType;
      if o.openingType.value !in codes {
        sheet.Miss("caixilharia.hardware." + TypeName(o.openingType.value));
      } else {
        var sku := sheet.RequireSku(codes[o.openingType.value], t.catalog);
        if sku.Some? {
          sheet.Push(CatalogDraft(sku.value, Label(o, sku.value), o.quantity as real, Equipment));
        }
      }
    }
  }

  method PriceExtras(sheet: Sheet, o: Opening, t: Inputs)
    requires sheet.Valid() && Measured(o) && WellFormed(t.book)
    modifies sheet
    ensures sheet.Valid() && sheet.pushed == Joined(Joined(old(sheet.pushed), BlindPart(o, t)), ScreenPart(o, t))
  {
    if o.blind == Some(true) && t.book.blind.Some? {
      var sku := sheet.RequireSku(t.book.blind.value.skuCode, t.catalog);
      if sku.Some? {
        sheet.Push(AreaDraft(o, sku.value, Billable(o, t.book.minimumArea), 1.0));
      }
    }
    if o.insectScreen == Some(true) && t.book.screen.Some? {
      var sku := sheet.RequireSku(t.book.screen.value.skuCode, t.catalog);
      if sku.Some? {
        sheet.Push(CatalogDraft(sku.value, Label(o, sku.value), o.quantity as real, Equipment));
      }
    }
  }

  method ReportCritical(sheet: Sheet, o: Opening)
    requires sheet.Valid()
    modifies sheet
    ensures sheet.Valid() && sheet.pushed == Joined(old(sheet.pushed), CriticalPart(o))
  {
    sheet.MissUnless(o.widthMm.Some?, "critical_input.openings." + o.ref + ".width_mm");
    sheet.MissUnless(o.heightMm.Some?, "critical_input.openings." + o.ref + ".height_mm");
    sheet.MissUnless(o.openingType.Some?, "critical_input.openings." + o.ref + ".opening_type");
  }

  method PriceOpening(sheet: Sheet, o: Opening, t: Inputs)
    requires sheet.Valid() && WellFormed(t.book)
    modifies sheet
    ensures sheet.Valid() && sheet.pushed == Joined(old(sheet.pushed), OpeningPart(o, t))
  {
    ReportCritical(sheet, o);
    if Measured(o) {
      PriceProfile(sheet, o, t);
      PriceGlass(sheet, o, t);
      PriceHardware(sheet, o, t);
      PriceExtras(sheet, o, t);
      ghost var start := old(sheet.pushed);
      ghost var c, p, g, h := CriticalPart(o), ProfilePart(o, t), GlassPart(o, t), HardwarePart(o, t);
      JoinedIsAssociative(start, c, p);
      JoinedIsAssociative(start, Joined(c, p), g);
      JoinedIsAssociative(start, Joined(Joined(c, p), g), h);
      JoinedIsAssociative(start, Joined(Joined(Joined(c, p), g), h), BlindPart(o, t));
      JoinedIsAssociative(start, Joined(Joined(Joined(Joined(c, p), g), h), BlindPart(o, t)), ScreenPart(o, t));
    }
  }

  method ReportFrameRoles(sheet: Sheet, book: RuleBook)
    requires sheet.Valid()
    modifies sheet
    ensures sheet.Valid() && sheet.pushed == Joined(old(sheet.pushed), Part([], FrameRoles(book)))
  {
    sheet.MissUnless(book.profile.Some?, "caixilharia.profile");
    sheet.MissUnless(book.glass.Some?, "caixilharia.glass");
    sheet.MissUnless(book.hardware.Some?, "caixilharia.hardware");
  }

  method ReportExtraRoles(sheet: Sheet, book: RuleBook)
    requires sheet.Valid()
    modifies sheet
    ensures sheet.Valid() && sheet.pushed == Joined(old(sheet.pushed), Part([], ExtraRoles(book)))
  {
    sheet.MissUnless(book.blind.Some?, "caixilharia.blind");
    sheet.MissUnless(book.screen.Some?, "caixilharia.insect_screen");
    sheet.MissUnless(book.minimumArea.Some?, "caixilharia.minimum_billable_area");
    sheet.MissUnless(book.labor.Some?, "caixilharia.installation.labor");
  }

  lemma OnlyMissing(a: seq<string>, b: seq<string>)
    ensures Joined(Joined(NOTHING, Part([], a)), Part([], b)) == Part([], a + b)
  {
    assert [] + a + b == a + b;
  }

  method ReportRoles(book: RuleBook) returns (sheet: Sheet)
    ensures fresh(sheet) && sheet.Valid() && sheet.pushed == Part([], Roles(book))
  {
    sheet := new Sheet();
    ReportFrameRoles(sheet, book);
    ReportExtraRoles(sheet, book);
    OnlyMissing(FrameRoles(book), ExtraRoles(book));
  }

  lemma OpeningsStep(openings: seq<Opening>, i: int, t: Inputs)
    requires 0 <= i < |openings| && WellFormed(t.book)
    ensures OpeningsPart(openings[..i + 1], t) == Joined(OpeningsPart(openings[..i], t), OpeningPart(openings[i], t))
    ensures TotalArea(openings[..i + 1]) == AddArea(TotalArea(openings[..i]), openings[i])
    ensures OpeningCount(openings[..i + 1]) == OpeningCount(openings[..i]) + CountOf(openings[i])
  {
    assert openings[..i + 1][..i] == openings[..i];
  }

  /** The loop over the openings, with the running area and count. */
  method PriceOpenings(sheet: Sheet, t: Inputs) returns (totalAreaM2: real, totalOpeningCount: int)
    requires sheet.Valid() && WellFormed(t.book) && sheet.pushed == Part([], Roles(t.book))
    modifies sheet
    ensures sheet.Valid() && sheet.pushed == OpeningsPart(t.extraction.openings, t)
    ensures totalAreaM2 == TotalArea(t.extraction.openings)
    ensures totalOpeningCount == OpeningCount(t.extraction.openings)
  {
    var openings := t.extraction.openings;
    totalAreaM2, totalOpeningCount := 0.0, 0;
    for i := 0 to |openings|
      invariant sheet.Valid() && sheet.pushed == OpeningsPart(openings[..i], t)
      invariant totalAreaM2 == TotalArea(openings[..i])
      invariant totalOpeningCount == OpeningCount(openings[..i])
    {
      var opening := openings[i];
      PriceOpening(sheet, opening, t);
      OpeningsStep(openings, i, t);
      totalAreaM2 := AddArea(totalAreaM2, opening);
      totalOpeningCount := totalOpeningCount + CountOf(opening);
    }
    assert openings[..|openings|] == openings;
  }

  method PriceLabor(sheet: Sheet, t: Inputs, totalOpeningCount: int)
    requires sheet.Valid() && WellFormed(t.book) && totalOpeningCount == OpeningCount(t.extraction.openings)
    modifies sheet
    ensures sheet.Valid() && sheet.pushed == Joined(old(sheet.pushed), LaborPart(t))
  {
    if t.book.labor.Some? && totalOpeningCount > 0 {
      var sku := sheet.RequireSku(t.book.labor.value.skuCode, t.catalog);
      if sku.Some? {
        sheet.Push(CatalogDraft(sku.value, sku.value.name, totalOpeningCount as real, Labor));
      }
    }
  }

  method PriceRemoval(sheet: Sheet, t: Inputs, totalOpeningCount: int)
    requires sheet.Valid() && WellFormed(t.book) && totalOpeningCount == OpeningCount(t.extraction.openings)
    modifies sheet
    ensures sheet.Valid() && sheet.pushed == Joined(old(sheet.pushed), RemovalPart(t))
  {
    if t.extraction.removeExisting == Some(true) {
      if t.book.removal.None? {
        sheet.Miss("caixilharia.remove_existing");
      } else {
        var rule := t.book.removal.value;
        sheet.Push(QuoteLine(None, rule.description, totalOpeningCount as real, rule.amountMinorPerOpening as real,
                             (rule.amountMinorPerOpening * totalOpeningCount) as real, 0, Labor));
      }
    }
  }

  method PriceTransport(sheet: Sheet, t: Inputs)
    requires sheet.Valid() && WellFormed(t.book)
    modifies sheet
    ensures sheet.Valid() && sheet.pushed == Joined(old(sheet.pushed), TransportPart(t))
  {
    if t.extraction.distanceKm.Some? {
      if t.book.transport.None? {
        sheet.Miss("caixilharia.transport");
      } else {
        var chargeableKm := Max(0.0, t.extraction.distanceKm.value - t.book.transport.value.includedKm);
        if chargeableKm > 0.0 {
          var sku := sheet.RequireSku(t.book.transport.value.skuCode, t.catalog);
          if sku.Some? {
            sheet.Push(CatalogDraft(sku.value, sku.value.name, chargeableKm, Labor));
          }
        }
      }
    }
  }

  method ReportClosing(sheet: Sheet, book: RuleBook)
    requires sheet.Valid()
    modifies sheet
    ensures sheet.Valid() && sheet.pushed == Joined(old(sheet.pushed), Part([], ClosingRoles(book)))
  {
    sheet.MissUnless(book.margin.Some?, "caixilharia.margin");
    sheet.MissUnless(book.discount.Some?, "caixilharia.area_discount");
    sheet.MissUnless(book.tax.Some?, "caixilharia.iva");
  }

  method ReportCurrencies(sheet: Sheet, skus: seq<Sku>)
    requires sheet.Valid()
    modifies sheet
    ensures sheet.Valid() && sheet.pushed == Joined(old(sheet.pushed), Part([], CurrencyProblems(skus)))
  {
    sheet.MissUnless(!ManyCurrencies(skus), "catalog.currency_mismatch");
    sheet.MissUnless(AllEuro(skus), "catalog.currency_must_be_eur");
  }

  /** Margin and the roles the closing needs; answers the subtotal. */
  method CloseMargin(sheet: Sheet, t: Inputs) returns (subtotalMinor: real)
    requires sheet.Valid() && WellFormed(t.book) && sheet.pushed == BasePart(t)
    modifies sheet
    ensures sheet.Valid() && sheet.pushed == Part(WithMargin(t), BasePart(t).missing + ClosingRoles(t.book))
    ensures subtotalMinor == Total(WithMargin(t))
  {
    NumberedTotal(sheet.pushed.drafts);
    var baseMinor := Total(sheet.lines);
    ReportClosing(sheet, t.book);
    if t.book.margin.Some? {
      sheet.Push(FixedDraft("Margem comercial", PercentOf(baseMinor, t.book.margin.value.percentage) as real, Margin));
    }
    NumberedTotal(sheet.pushed.drafts);
    subtotalMinor := Total(sheet.lines);
  }

  method CloseTax(sheet: Sheet, t: Inputs, taxMinor: int) returns (skus: seq<Sku>)
    requires sheet.Valid() && WellFormed(t.book) && taxMinor == TaxOf(t)
    requires sheet.pushed == Part(WithMargin(t), BasePart(t).missing + ClosingRoles(t.book))
    modifies sheet
    ensures sheet.lines == Numbered(AllDrafts(t)) && skus == RelevantSkus(sheet.lines, t.catalog)
    ensures sheet.missingRules == BasePart(t).missing + ClosingRoles(t.book) + CurrencyProblems(skus)
  {
    if t.book.tax.Some? {
      sheet.Push(FixedDraft("IVA", taxMinor as real, Tax));
    }
    assert sheet.pushed.drafts == AllDrafts(t);
    assert sheet.pushed.missing == BasePart(t).missing + ClosingRoles(t.book);
    skus := RelevantSkus(sheet.lines, t.catalog);
    ReportCurrencies(sheet, skus);
  }

  /** Everything before margin, on a fresh sheet. */
  method PriceBase(t: Inputs) returns (sheet: Sheet, totalAreaM2: real)
    requires WellFormed(t.book)
    ensures fresh(sheet) && sheet.Valid() && sheet.pushed == BasePart(t)
    ensures totalAreaM2 == TotalArea(t.extraction.openings)
  {
    sheet := ReportRoles(t.book);
    var totalOpeningCount;
    totalAreaM2, totalOpeningCount := PriceOpenings(sheet, t);
    PriceLabor(sheet, t, totalOpeningCount);
    PriceRemoval(sheet, t, totalOpeningCount);
    PriceTransport(sheet, t);
  }

  /** The figures below the lines. */
  method Figures(t: Inputs, subtotal: real, totalAreaM2: real) returns (discountMinor: int, taxMinor: int)
    requires WellFormed(t.book) && subtotal == Total(WithMargin(t)) && totalAreaM2 == TotalArea(t.extraction.openings)
    ensures discountMinor == Discount(t) && taxMinor == TaxOf(t)
  {
    discountMinor := PercentOf(subtotal, DiscountPercentage(t.book.discount, totalAreaM2));
    var taxable := subtotal - discountMinor as real;
    taxMinor := TaxOn(taxable, TaxPercentage(t));
  }

  /** The answer, put together from what the sheet and the figures came to. */
  method Answer(
      t: Inputs, lines: seq<QuoteLine>, missingRules: seq<string>, skus: seq<Sku>, subtotal: real,
      discount: int, tax: int,
      totalAreaM2: real)
    returns (quote: PricedQuote)
    requires WellFormed(t.book) && lines == Numbered(AllDrafts(t)) && skus == RelevantSkus(lines, t.catalog)
    requires missingRules == BasePart(t).missing + ClosingRoles(t.book) + CurrencyProblems(skus)
    requires subtotal == Total(WithMargin(t)) && discount == Discount(t) && tax == TaxOf(t)
    requires totalAreaM2 == TotalArea(t.extraction.openings)
    ensures quote == Quoted(t)
  {
    var missing := Distinct(missingRules);
    quote := PricedQuote(
      lines, subtotal, discount, tax, subtotal - discount as real + tax as real, MaxLeadTime(skus),
      STRATOS_CURRENCY, totalAreaM2, missing != [], missing);
  }

  method PriceInputs(t: Inputs) returns (quote: PricedQuote)
    requires WellFormed(t.book)
    ensures quote == Quoted(t)
  {
    var sheet, totalAreaM2 := PriceBase(t);
    var subtotal := CloseMargin(sheet, t);
    var discount, tax := Figures(t, subtotal, totalAreaM2);
    var skus := CloseTax(sheet, t, tax);
    quote := Answer(t, sheet.lines, sheet.missingRules, skus, subtotal, discount, tax, totalAreaM2);
  }

  method PriceCaixilhariaQuote(
    extraction: Extraction, allRules: seq<Rule<Config>>, catalog: seq<Sku>, contains: (string, string) -> bool,
    taxRate: Option<real>)
    returns (quote: PricedQuote)
    ensures WellFormed(InputsOf(extraction, allRules, catalog, contains, taxRate).book)
    ensures quote == Quoted(InputsOf(extraction, allRules, catalog, contains, taxRate))
  {
    BookIsWellFormed(ActiveRules(allRules, CAIXILHARIA));
    quote := PriceInputs(InputsOf(extraction, allRules, catalog, contains, taxRate));
  }
}
