/**
 The figures of a vertical quote by themselves: what it means for an amount to be a percentage of another, for a line
 to bill a catalog row, and for a lead time to be that of the slowest product.
 */
module VerticalFigures {
  import opened Rounding
  import opened StableSort
  import opened Sums
  import opened Text
  import opened VerticalPricing
  import opened Wrappers

  /** amount is `pct` percent of base, to half a cent. */
  predicate IsPercent(amount: int, pct: real, base: real) {
    -50.0 <= 100.0 * amount as real - base * pct <= 50.0
  }

  lemma PercentOfIsPercent(base: real, pct: real)
    ensures IsPercent(PercentOf(base, pct), pct, base)
  {
    RoundNear(base * pct / 100.0);
  }

  /** The line bills a quantity of a SKU at its catalog price, exactly. */
  ghost predicate BillsUnits(l: QuoteLine, sku: Sku, quantity: real, kind: Kind) {
    && l.skuId == Some(sku.id) && l.quantity == quantity && l.unitPriceMinor == sku.basePriceMinor as real
    && l.amountMinor == sku.basePriceMinor as real * quantity && l.kind == kind
  }

  lemma CatalogDraftBills(sku: Sku, description: string, quantity: real, kind: Kind)
    ensures BillsUnits(CatalogDraft(sku, description, quantity, kind), sku, quantity, kind)
    ensures CatalogDraft(sku, description, quantity, kind).description == description
  {
  }

  /** A single amount without a SKU. */
  ghost predicate IsFixed(l: QuoteLine, description: string, amount: real, kind: Kind) {
    && l.skuId.None? && l.description == description && l.quantity == 1.0 && l.unitPriceMinor == amount
    && l.amountMinor == amount && l.kind == kind
  }

  /** The line of a draft in a numbered list says what the draft says. */
  lemma DraftIsOnTheList(drafts: seq<QuoteLine>, d: QuoteLine) returns (l: QuoteLine)
    requires d in drafts
    ensures l in Numbered(drafts) && l == d.(position := l.position)
  {
    var i :| 0 <= i < |drafts| && drafts[i] == d;
    l := Numbered(drafts)[i];
    assert l in Numbered(drafts);
  }

  // ---------- Lead times ----------

  /** The lead time is that of a SKU on the lines that none of the others exceeds; none if none of them has any. */
  ghost predicate IsSlowestOn(lines: seq<QuoteLine>, catalog: seq<Sku>, days: Option<int>) {
    && (forall l :: l in lines && l.skuId.Some? && SkuById(catalog, l.skuId.value).Some? ==>
          var d := SkuById(catalog, l.skuId.value).value.leadTimeDays;
          d.Some? ==> days.Some? && d.value <= days.value)
    && (days.Some? ==> exists l ::
          && l in lines && l.skuId.Some? && SkuById(catalog, l.skuId.value).Some?
          && SkuById(catalog, l.skuId.value).value.leadTimeDays == days)
  }

  lemma {:induction false} RelevantHasALine(lines: seq<QuoteLine>, catalog: seq<Sku>, s: Sku)
    requires s in RelevantSkus(lines, catalog)
    ensures exists l :: l in lines && l.skuId.Some? && SkuById(catalog, l.skuId.value) == Some(s)
  {
    if s in RelevantSkus(lines[1..], catalog) {
      RelevantHasALine(lines[1..], catalog, s);
      var l :| l in lines[1..] && l.skuId.Some? && SkuById(catalog, l.skuId.value) == Some(s);
      assert l in lines;
    } else {
      assert lines[0] in lines;
    }
  }

  lemma LeadTimeIsOfTheSlowest(lines: seq<QuoteLine>, catalog: seq<Sku>)
    ensures IsSlowestOn(lines, catalog, MaxLeadTime(RelevantSkus(lines, catalog)))
  {
    var skus := RelevantSkus(lines, catalog);
    SlowestSkuDecides(skus);
    forall l | l in lines && l.skuId.Some? && SkuById(catalog, l.skuId.value).Some?
      ensures SkuById(catalog, l.skuId.value).value in skus
    {
      RelevantSkuOf(lines, catalog, l);
    }
    if MaxLeadTime(skus).Some? {
      var s :| s in skus && s.leadTimeDays == MaxLeadTime(skus);
      RelevantHasALine(lines, catalog, s);
    }
  }

  // ---------- Rules ----------

  /** A configuration comes from the stored rules: of lowest order among the active ones that offer it; else none. */
  ghost predicate ComesFrom<C>(c: Option<C>, all: seq<Rule<C>>, v: Vertical, t: RuleType, parses: C -> bool) {
    match c
    case None => forall r :: r in all && r.active && r.vertical == Some(v) ==> !Offers(r, t, parses)
    case Some(config) => exists r ::
      && r in all && r.active && r.vertical == Some(v) && Offers(r, t, parses) && r.config == config
      && forall s ::
           s in all && s.active && s.vertical == Some(v) && Offers(s, t, parses) ==> r.sortOrder <= s.sortOrder
  }

  lemma FirstComesFrom<C>(all: seq<Rule<C>>, v: Vertical, t: RuleType, parses: C -> bool)
    ensures ComesFrom(FirstConfig(ActiveRules(all, v), t, parses), all, v, t, parses)
  {
    LowestOrderWins(all, v, t, parses);
  }

  // ---------- The subtotal and what is added to it ----------

  /** What the margin line is: the given percentage of the lines before it, none without a margin rule. */
  ghost predicate IsMarginOf(margin: seq<QuoteLine>, before: seq<QuoteLine>, pct: Option<real>) {
    if pct.None? then margin == []
    else
      && |margin| == 1 && margin[0].kind == Margin && margin[0].skuId.None?
      && margin[0].amountMinor == margin[0].amountMinor.Floor as real
      && IsPercent(margin[0].amountMinor.Floor, pct.value, Total(before))
  }

  /** The last line carries the tax, where the tax has a rule. */
  ghost predicate IsTaxLine(tax: seq<QuoteLine>, amount: int, hasRule: bool) {
    if !hasRule then tax == []
    else |tax| == 1 && tax[0].kind == Tax && tax[0].skuId.None? && tax[0].amountMinor == amount as real
  }

  // ---------- What a quote needs ----------

  ghost predicate IsStocked(catalog: seq<Sku>, code: string) {
    exists s: Sku :: s in catalog && s.active && s.code == code
  }

  lemma StockedIff(catalog: seq<Sku>, code: string)
    ensures SkuByCode(catalog, code).Some? <==> IsStocked(catalog, code)
  {
    SkuByCodeFinds(catalog, code);
  }

  /** Whatever row a line is looked up as is in euros. */
  ghost predicate IsInEuros(lines: seq<QuoteLine>, catalog: seq<Sku>) {
    forall l :: l in lines && l.skuId.Some? && SkuById(catalog, l.skuId.value).Some? ==>
      SkuById(catalog, l.skuId.value).value.currency == "EUR"
  }

  lemma EurosIff(lines: seq<QuoteLine>, catalog: seq<Sku>)
    ensures AllEuro(RelevantSkus(lines, catalog)) <==> IsInEuros(lines, catalog)
  {
    var skus := RelevantSkus(lines, catalog);
    forall l | l in lines && l.skuId.Some? && SkuById(catalog, l.skuId.value).Some?
      ensures SkuById(catalog, l.skuId.value).value in skus
    {
      RelevantSkuOf(lines, catalog, l);
    }
    forall i | 0 <= i < |skus|
      ensures exists l :: l in lines && l.skuId.Some? && SkuById(catalog, l.skuId.value) == Some(skus[i])
    {
      RelevantHasALine(lines, catalog, skus[i]);
    }
  }
}
