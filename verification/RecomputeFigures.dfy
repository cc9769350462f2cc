/**
 What recompute and the price node leave on quote and lines, by the figures of the lines themselves: SKU, quantity,
 manual price, discount.
 */
module RecomputeFigures {
  import opened QuotePricing
  import opened Recompute
  import opened Sums
  import opened Text
  import opened Wrappers

  /** A stored quote line bills a line item at a unit price and amount. */
  ghost predicate Bills(q: QuoteLine, li: LineItem)
    requires IsPriceable(li)
  {
    var sku := li.matchedSku.value;
    q.skuId == sku.id && q.description == sku.name && q.quantity == li.quantity.value && q.position == li.position
  }

  /** At the manual price, which is not discounted. */
  ghost predicate BillsByHand(q: QuoteLine, li: LineItem) {
    && IsPriceable(li) && IsOverridden(li) && Bills(q, li)
    && q.unitPriceMinor == li.unitPriceMinor.value
    && IsExtended(q.amountMinor, li.unitPriceMinor.value, li.quantity.value)
  }

  /** At the catalog price less the discount: the full amount is rounded first, then discounted. */
  ghost predicate BillsByRule(q: QuoteLine, li: LineItem, rules: RuleSet) {
    && IsPriceable(li) && Bills(q, li)
    && var pct := AppliedDiscount(Breaks(rules), li.quantity.value);
       IsPercentOff(q.unitPriceMinor, li.matchedSku.value.basePriceMinor, pct)
       && exists full :: IsExtended(full, li.matchedSku.value.basePriceMinor, li.quantity.value)
            && IsPercentOff(q.amountMinor, full, pct)
  }

  ghost predicate BillsAfterRecompute(q: QuoteLine, li: LineItem, rules: RuleSet) {
    if IsOverridden(li) then BillsByHand(q, li) else BillsByRule(q, li, rules)
  }

  // ---------- Whether there is a quote ----------

  ghost predicate CanBeSold(li: LineItem) {
    li.matchedSku.Some? && li.quantity.Some? && li.quantity.value > 0.0
  }

  ghost predicate SoldAbroad(li: LineItem) {
    CanBeSold(li) && !IsEuroCurrency(li.matchedSku.value.currency)
  }

  lemma SalesOf(lines: seq<LineItem>)
    ensures AnyPriceable(lines) <==> exists li :: li in lines && CanBeSold(li)
    ensures AllEuro(lines) <==> forall li :: li in lines ==> !SoldAbroad(li)
  {
    forall i | 0 <= i < |lines|
      ensures lines[i] in lines && (IsPriceable(lines[i]) <==> CanBeSold(lines[i]))
    {
    }
    if li :| li in lines && CanBeSold(li) {
      var i :| 0 <= i < |lines| && lines[i] == li;
      assert IsPriceable(lines[i]);
    }
    if !AllEuro(lines) {
      var i :| 0 <= i < |lines| && IsPriceable(lines[i]) && !IsEuroCurrency(lines[i].matchedSku.value.currency);
      assert SoldAbroad(lines[i]);
    }
  }

  /** One line to be sold in another currency: the recompute changes nothing, the price node takes the quote away. */
  lemma QuotedIff(s: Stored, rules: RuleSet)
    ensures if exists li :: li in s.lines && SoldAbroad(li)
      then RecomputeStep(s, rules) == s && NodeAfter(s, rules) == s.(quote := None)
      else
        && (RecomputeStep(s, rules).quote.Some? <==> exists li :: li in s.lines && CanBeSold(li))
        && (NodeAfter(s, rules).quote.Some? <==> exists li :: li in s.lines && CanBeSold(li))
        && (NodeAfter(s, rules).quote.None? ==> NodeAfter(s, rules).lines == s.lines)
  {
    SalesOf(s.lines);
  }

  lemma RuleRow(li: LineItem, rules: RuleSet, q: QuoteLine)
    requires IsPriceable(li) && ToQuoteLines([PriceLine(ToInput(li), Breaks(rules))]) == [q]
    ensures BillsByRule(q, li, rules)
  {
    var p := PriceLine(ToInput(li), Breaks(rules));
    LineIsPriced(ToInput(li), Breaks(rules));
    assert [q][0] == ToQuoteLines([p])[0];
    assert IsExtended(p.baseAmountMinor, li.matchedSku.value.basePriceMinor, li.quantity.value);
  }

  lemma PricedRow(li: LineItem, rules: RuleSet, q: QuoteLine)
    requires IsPriceable(li) && ToQuoteLines([PricedFor(li, rules)]) == [q]
    ensures BillsAfterRecompute(q, li, rules)
  {
    if IsOverridden(li) {
      ExtendedIsExtended(li.unitPriceMinor.value, li.quantity.value);
      assert [q][0] == ToQuoteLines([PricedFor(li, rules)])[0];
    } else {
      RuleRow(li, rules, q);
    }
  }

  /** Every line of the recomputed quote bills one of the lines, by hand or by rule, and none is left out. */
  lemma RecomputedQuoteBillsTheLines(s: Stored, rules: RuleSet)
    requires !Refused(s.lines) && AnyPriceable(s.lines)
    ensures var after := RecomputeStep(s, rules).quote;
      && after.Some?
      && (forall q :: q in after.value.lines ==>
            exists li :: li in s.lines && IsPriceable(li) && BillsAfterRecompute(q, li, rules))
      && (forall li :: li in s.lines && IsPriceable(li) ==>
            exists q :: q in after.value.lines && BillsAfterRecompute(q, li, rules))
  {
    var all := AllLines(s.lines, rules);
    forall q | q in ToQuoteLines(all)
      ensures exists li :: li in s.lines && IsPriceable(li) && BillsAfterRecompute(q, li, rules)
    {
      var i :| 0 <= i < |all| && ToQuoteLines(all)[i] == q;
      AllLinesMembers(s.lines, rules, all[i]);
      var li :| li in s.lines && IsPriceable(li) && all[i] == PricedFor(li, rules);
      PricedRow(li, rules, q);
    }
    forall li | li in s.lines && IsPriceable(li)
      ensures exists q :: q in ToQuoteLines(all) && BillsAfterRecompute(q, li, rules)
    {
      AllLinesMembers(s.lines, rules, PricedFor(li, rules));
      var i :| 0 <= i < |all| && all[i] == PricedFor(li, rules);
      PricedRow(li, rules, ToQuoteLines(all)[i]);
    }
  }

  /** The price node's quote bills every priceable line by rule, whatever its manual price; its figures are the sums. */
  lemma NodeQuoteBillsTheLines(s: Stored, rules: RuleSet)
    requires AnyPriceable(s.lines) && AllEuro(s.lines)
    ensures var after := NodeAfter(s, rules).quote;
      && after.Some?
      && after.value.totalMinor + after.value.discountMinor == after.value.subtotalMinor
      && after.value.totalMinor == SumIntBy(after.value.lines, RowAmount)
      && (forall q :: q in after.value.lines ==> exists li :: li in s.lines && BillsByRule(q, li, rules))
      && (forall li :: li in s.lines && IsPriceable(li) ==>
            exists q :: q in after.value.lines && BillsByRule(q, li, rules))
      && IsSlowest(s.lines, after.value.leadTimeDays)
  {
    var all := PriceQuote(AllInputs(s.lines), rules).lines;
    RowsSum(all);
    forall q | q in ToQuoteLines(all)
      ensures exists li :: li in s.lines && BillsByRule(q, li, rules)
    {
      var i :| 0 <= i < |all| && ToQuoteLines(all)[i] == q;
      NodeMembers(s.lines, rules, all[i]);
      var li :| li in s.lines && IsPriceable(li) && all[i] == PriceLine(ToInput(li), Breaks(rules));
      RuleRow(li, rules, q);
    }
    forall li | li in s.lines && IsPriceable(li)
      ensures exists q :: q in ToQuoteLines(all) && BillsByRule(q, li, rules)
    {
      var p := PriceLine(ToInput(li), Breaks(rules));
      NodeMembers(s.lines, rules, p);
      var i :| 0 <= i < |all| && all[i] == p;
      RuleRow(li, rules, ToQuoteLines(all)[i]);
    }
    SlowestOfTheNode(s.lines, rules);
  }

  lemma SlowestOfTheNode(lines: seq<LineItem>, rules: RuleSet)
    ensures IsSlowest(lines, MaxLeadTime(PriceQuote(AllInputs(lines), rules).lines))
  {
    var all := PriceQuote(AllInputs(lines), rules).lines;
    SlowestLineDecides(all);
    forall li | li in lines && IsPriceable(li)
      ensures exists p :: p in all && p.leadTimeDays == li.matchedSku.value.leadTimeDays
    {
      var p := PriceLine(ToInput(li), Breaks(rules));
      NodeMembers(lines, rules, p);
      assert p.leadTimeDays == li.matchedSku.value.leadTimeDays;
    }
    if MaxLeadTime(all).Some? {
      var p :| p in all && p.leadTimeDays == MaxLeadTime(all);
      NodeMembers(lines, rules, p);
      var li :| li in lines && IsPriceable(li) && p == PriceLine(ToInput(li), Breaks(rules));
      assert li.matchedSku.value.leadTimeDays == MaxLeadTime(all);
    }
  }

  // ---------- The lines ----------

  /** Only price, lead time and the blocked flag of a line can change. */
  ghost predicate KeepsTheRest(before: LineItem, after: LineItem) {
    && after.id == before.id && after.position == before.position && after.quantity == before.quantity
    && after.matchedSku == before.matchedSku
    && forall f: string :: f != "pricing_blocked" ==> (f in after.flags <==> f in before.flags)
  }

  /** A line without SKU or positive quantity carries no pricing. */
  ghost predicate IsCleared(after: LineItem) {
    after.unitPriceMinor.None? && after.leadTimeDays.None? && "pricing_blocked" !in after.flags
  }

  ghost predicate IsPricedByRule(before: LineItem, after: LineItem, rules: RuleSet) {
    && before.matchedSku.Some? && before.quantity.Some? && after.unitPriceMinor.Some?
    && IsPercentOff(after.unitPriceMinor.value, before.matchedSku.value.basePriceMinor,
         AppliedDiscount(Breaks(rules), before.quantity.value))
    && after.leadTimeDays == before.matchedSku.value.leadTimeDays
    && ("pricing_blocked" in after.flags <==> !rules.hasAnyRules)
  }

  ghost predicate IsPricedByHand(before: LineItem, after: LineItem) {
    && before.matchedSku.Some? && after.unitPriceMinor == before.unitPriceMinor
    && after.leadTimeDays == before.matchedSku.value.leadTimeDays && "pricing_blocked" !in after.flags
  }

  lemma FlagsWithBlock(flags: seq<string>, blocked: bool)
    ensures "pricing_blocked" in WithBlock(flags, blocked) <==> blocked
    ensures forall f: string :: f != "pricing_blocked" ==> (f in WithBlock(flags, blocked) <==> f in flags)
    ensures "pricing_blocked" !in Unblocked(flags)
    ensures forall f: string :: f != "pricing_blocked" ==> (f in Unblocked(flags) <==> f in flags)
  {
    UnblockedTwice(flags);
  }

  /** Each line after a recompute that is not refused: cleared, kept at its manual price, or priced by rule. */
  lemma RecomputedLineReads(s: Stored, rules: RuleSet, i: nat)
    requires !Refused(s.lines) && i < |s.lines|
    ensures var before, after := s.lines[i], RecomputeStep(s, rules).lines[i];
      && |RecomputeStep(s, rules).lines| == |s.lines| && KeepsTheRest(before, after)
      && if !IsPriceable(before) then IsCleared(after)
         else if IsOverridden(before) then IsPricedByHand(before, after)
         else IsPricedByRule(before, after, rules)
  {
    var li := s.lines[i];
    FlagsWithBlock(li.flags, RuleMissing(s.lines, rules) && !IsOverridden(li));
    AnyAutoInput(s.lines);
    if IsPriceable(li) && !IsOverridden(li) {
      LineIsPriced(ToInput(li), Breaks(rules));
    }
  }

  /** Each line after the price node: priced by rule where it can be, otherwise untouched. */
  lemma NodeLineReads(s: Stored, rules: RuleSet, i: nat)
    requires AnyPriceable(s.lines) && AllEuro(s.lines) && i < |s.lines|
    ensures var before, after := s.lines[i], NodeAfter(s, rules).lines[i];
      && |NodeAfter(s, rules).lines| == |s.lines| && KeepsTheRest(before, after)
      && if IsPriceable(before) then IsPricedByRule(before, after, rules) else after == before
  {
    var li := s.lines[i];
    FlagsWithBlock(li.flags, !rules.hasAnyRules);
    if IsPriceable(li) {
      LineIsPriced(ToInput(li), Breaks(rules));
    }
  }
}
