/**
 The two writers of a request's prices: the price node, which prices every matched line from the rules,
 and the recompute that follows an estimator's re-map, which keeps manually priced lines.
 Both replace the request's quote and write prices, lead times and flags back to the lines.
 */
module Recompute {
  import opened Wrappers
  import opened StableSort
  import opened Sums
  import opened Text
  import opened QuotePricing

  const PRICING_BLOCKED_FLAG := "pricing_blocked"
  const MANUAL_OVERRIDE_FLAG := "manual_override"

  datatype Sku = Sku(id: string, name: string, basePriceMinor: int, currency: string, leadTimeDays: Option<int>)

  datatype LineItem = LineItem(
    id: string, position: int, quantity: Option<real>, matchedSku: Option<Sku>,
    unitPriceMinor: Option<int>, leadTimeDays: Option<int>, flags: seq<string>)

  datatype QuoteLine = QuoteLine(skuId: string, description: string, quantity: real, unitPriceMinor: int,
      amountMinor: int, position: int)

  datatype Quote = Quote(subtotalMinor: int, discountMinor: int, totalMinor: int, leadTimeDays: Option<int>,
      lines: seq<QuoteLine>)

  datatype RecomputeResult = RecomputeResult(priced: bool, subtotalMinor: int, discountMinor: int, totalMinor: int,
      leadTimeDays: Option<int>, blocked: bool)

  // ---------- One line ----------

  predicate IsPriceable(li: LineItem) {
    li.matchedSku.Some? && li.quantity.Some? && li.quantity.value > 0.0
  }

  predicate IsOverridden(li: LineItem) {
    li.unitPriceMinor.Some? && MANUAL_OVERRIDE_FLAG in li.flags
  }

  function ToInput(li: LineItem): LineInput
    requires IsPriceable(li)
  {
    var sku := li.matchedSku.value;
    LineInput(li.id, sku.id, li.position, sku.name, li.quantity.value, sku.basePriceMinor, sku.leadTimeDays)
  }

  function OverrideLine(li: LineItem): PricedLine
    requires IsPriceable(li) && IsOverridden(li)
  {
    var sku, unit := li.matchedSku.value, li.unitPriceMinor.value;
    PricedLine(li.id, sku.id, li.position, sku.name, li.quantity.value, unit, Extended(unit, li.quantity.value),
               Extended(sku.basePriceMinor, li.quantity.value), 0.0, sku.leadTimeDays)
  }

  function Breaks(rules: RuleSet): seq<QuantityBreak> {
    SortBy(rules.quantityBreaks, ByMinQty)
  }

  function PricedFor(li: LineItem, rules: RuleSet): PricedLine
    requires IsPriceable(li)
  {
    if IsOverridden(li) then OverrideLine(li) else PriceLine(ToInput(li), Breaks(rules))
  }

  function Unblocked(flags: seq<string>): seq<string> {
    if flags == [] then []
    else if flags[0] == PRICING_BLOCKED_FLAG then Unblocked(flags[1..]) else [flags[0]] + Unblocked(flags[1..])
  }

  function WithBlock(flags: seq<string>, blocked: bool): seq<string> {
    if !blocked then Unblocked(flags)
    else if PRICING_BLOCKED_FLAG in flags then flags else flags + [PRICING_BLOCKED_FLAG]
  }

  function WithPrice(li: LineItem, p: PricedLine, blocked: bool): LineItem {
    li.(unitPriceMinor := Some(p.unitPriceMinor), leadTimeDays := p.leadTimeDays, flags := WithBlock(li.flags, blocked))
  }

  function Cleared(li: LineItem): LineItem {
    if li.unitPriceMinor.None? && li.leadTimeDays.None? && PRICING_BLOCKED_FLAG !in li.flags then li
    else li.(unitPriceMinor := None, leadTimeDays := None, flags := Unblocked(li.flags))
  }

  // ---------- All lines ----------

  function AutoInputs(lines: seq<LineItem>): seq<LineInput> {
    if lines == [] then []
    else (if IsPriceable(lines[0]) && !IsOverridden(lines[0]) then [ToInput(lines[0])] else []) + AutoInputs(lines[1..])
  }

  function AllInputs(lines: seq<LineItem>): seq<LineInput> {
    if lines == [] then []
    else (if IsPriceable(lines[0]) then [ToInput(lines[0])] else []) + AllInputs(lines[1..])
  }

  function OverrideLines(lines: seq<LineItem>): seq<PricedLine> {
    if lines == [] then []
    else
      (if IsPriceable(lines[0]) && IsOverridden(lines[0]) then [OverrideLine(lines[0])] else [])
      + OverrideLines(lines[1..])
  }

  function ByPosition(p: PricedLine): real {
    p.position as real
  }

  function AllLines(lines: seq<LineItem>, rules: RuleSet): seq<PricedLine> {
    SortBy(PriceQuote(AutoInputs(lines), rules).lines + OverrideLines(lines), ByPosition)
  }

  function ToQuoteLines(lines: seq<PricedLine>): seq<QuoteLine> {
    seq(|lines|, i requires 0 <= i < |lines| =>
      var l := lines[i]; QuoteLine(l.skuId, l.description, l.quantity, l.unitPriceMinor, l.amountMinor, l.position))
  }

  function QuoteOf(lines: seq<PricedLine>): Quote {
    var subtotal, total := SumIntBy(lines, BaseAmount), SumIntBy(lines, Amount);
    Quote(subtotal, subtotal - total, total, MaxLeadTime(lines), ToQuoteLines(lines))
  }

  predicate AnyPriceable(lines: seq<LineItem>) {
    exists i :: 0 <= i < |lines| && IsPriceable(lines[i])
  }

  predicate AllEuro(lines: seq<LineItem>) {
    forall i :: 0 <= i < |lines| && IsPriceable(lines[i]) ==> IsEuroCurrency(lines[i].matchedSku.value.currency)
  }

  predicate RuleMissing(lines: seq<LineItem>, rules: RuleSet) {
    PriceQuote(AutoInputs(lines), rules).blocked
  }

  /** A line after a recompute: cleared, kept at its manual price, or rule-priced. */
  function LineAfter(li: LineItem, rules: RuleSet, blocked: bool): LineItem {
    if !IsPriceable(li) then Cleared(li)
    else WithPrice(li, PricedFor(li, rules), blocked && !IsOverridden(li))
  }

  function EachAfter(lines: seq<LineItem>, rules: RuleSet, blocked: bool): seq<LineItem> {
    seq(|lines|, i requires 0 <= i < |lines| => LineAfter(lines[i], rules, blocked))
  }

  function LinesAfter(lines: seq<LineItem>, rules: RuleSet): seq<LineItem> {
    EachAfter(lines, rules, RuleMissing(lines, rules))
  }

  function QuoteAfter(lines: seq<LineItem>, rules: RuleSet): Option<Quote> {
    if AnyPriceable(lines) then Some(QuoteOf(AllLines(lines, rules))) else None
  }

  /** A line after the price node: rule-priced if it can be priced, otherwise untouched. */
  function NodeLineAfter(li: LineItem, rules: RuleSet): LineItem {
    if IsPriceable(li) then WithPrice(li, PriceLine(ToInput(li), Breaks(rules)), !rules.hasAnyRules) else li
  }

  function NodeLinesAfter(lines: seq<LineItem>, rules: RuleSet): seq<LineItem> {
    seq(|lines|, i requires 0 <= i < |lines| => NodeLineAfter(lines[i], rules))
  }

  datatype Stored = Stored(lines: seq<LineItem>, quote: Option<Quote>)

  function NodeAfter(s: Stored, rules: RuleSet): Stored {
    if !AnyPriceable(s.lines) || !AllEuro(s.lines) then s.(quote := None)
    else Stored(NodeLinesAfter(s.lines, rules), Some(QuoteOf(PriceQuote(AllInputs(s.lines), rules).lines)))
  }

  /** recompute as one step: a priceable line in another currency refuses, and nothing changes. */
  function RecomputeStep(s: Stored, rules: RuleSet): Stored {
    if Refused(s.lines) then s else Stored(LinesAfter(s.lines, rules), QuoteAfter(s.lines, rules))
  }

  predicate Refused(lines: seq<LineItem>) {
    AnyPriceable(lines) && !AllEuro(lines)
  }

  ghost predicate UniqueIds(lines: seq<LineItem>) {
    forall i, j :: 0 <= i < j < |lines| ==> lines[i].id != lines[j].id
  }

  // ---------- What the priced lines are ----------

  lemma {:induction false} AutoMembers(lines: seq<LineItem>, rules: RuleSet, p: PricedLine)
    ensures p in PriceLines(AutoInputs(lines), Breaks(rules)) <==>
      exists li :: li in lines && IsPriceable(li) && !IsOverridden(li) && p == PricedFor(li, rules)
  {
    if lines != [] {
      AutoMembers(lines[1..], rules, p);
      assert lines == [lines[0]] + lines[1..];
      PriceLinesMembers(AutoInputs(lines), Breaks(rules), p);
      PriceLinesMembers(AutoInputs(lines[1..]), Breaks(rules), p);
    }
  }

  lemma PriceLinesMembers(inputs: seq<LineInput>, breaks: seq<QuantityBreak>, p: PricedLine)
    ensures p in PriceLines(inputs, breaks) <==> exists l :: l in inputs && p == PriceLine(l, breaks)
  {
    if l :| l in inputs && p == PriceLine(l, breaks) {
      var i :| 0 <= i < |inputs| && inputs[i] == l;
      assert PriceLines(inputs, breaks)[i] == p;
    }
  }

  lemma {:induction false} OverrideMembers(lines: seq<LineItem>, p: PricedLine)
    ensures p in OverrideLines(lines) <==>
      exists li :: li in lines && IsPriceable(li) && IsOverridden(li) && p == OverrideLine(li)
  {
    if lines != [] {
      OverrideMembers(lines[1..], p);
      assert lines == [lines[0]] + lines[1..];
    }
  }

  lemma AllLinesMembers(lines: seq<LineItem>, rules: RuleSet, p: PricedLine)
    ensures p in AllLines(lines, rules) <==> exists li :: li in lines && IsPriceable(li) && p == PricedFor(li, rules)
  {
    AutoMembers(lines, rules, p);
    OverrideMembers(lines, p);
    SortByMembers(PriceQuote(AutoInputs(lines), rules).lines + OverrideLines(lines), ByPosition);
  }

  lemma {:induction false} AllInputsMembers(lines: seq<LineItem>, l: LineInput)
    ensures l in AllInputs(lines) <==> exists li :: li in lines && IsPriceable(li) && l == ToInput(li)
  {
    if lines != [] {
      AllInputsMembers(lines[1..], l);
      assert lines == [lines[0]] + lines[1..];
    }
  }

  lemma {:induction false} UnblockedTwice(flags: seq<string>)
    ensures PRICING_BLOCKED_FLAG !in Unblocked(flags) && Unblocked(Unblocked(flags)) == Unblocked(flags)
    ensures forall f :: f in Unblocked(flags) <==> f in flags && f != PRICING_BLOCKED_FLAG
  {
    if flags != [] {
      UnblockedTwice(flags[1..]);
      assert flags == [flags[0]] + flags[1..];
      assert flags[0] != PRICING_BLOCKED_FLAG ==> ([flags[0]] + Unblocked(flags[1..]))[1..] == Unblocked(flags[1..]);
    }
  }

  /** Writing the same price twice is writing it once. */
  lemma WithPriceTwice(li: LineItem, p: PricedLine, blocked: bool)
    ensures WithPrice(WithPrice(li, p, blocked), p, blocked) == WithPrice(li, p, blocked)
  {
    UnblockedTwice(li.flags);
  }

  // ---------- The writers ----------

  function Update(rows: seq<LineItem>, p: PricedLine, blocked: bool): seq<LineItem> {
    seq(|rows|, i requires 0 <= i < |rows| => if rows[i].id == p.lineItemId then WithPrice(rows[i], p, blocked)
      else rows[i])
  }

  /** Every row with a priced line carries that line's price; every other row is as it was. */
  ghost predicate Written(before: LineItem, after: LineItem, priced: seq<PricedLine>, blockedIds: set<string>) {
    && after.id == before.id
    && ((forall p :: p in priced ==> p.lineItemId != before.id) ==> after == before)
    && (forall p :: p in priced && p.lineItemId == before.id ==>
      after == WithPrice(before, p, p.lineItemId in blockedIds))
  }

  lemma WrittenOnce(before: LineItem, now: LineItem, done: seq<PricedLine>, p: PricedLine, blockedIds: set<string>)
    requires Written(before, now, done, blockedIds)
    requires forall q :: q in done && q.lineItemId == p.lineItemId ==> q == p
    ensures Written(before, if now.id == p.lineItemId then WithPrice(now, p, p.lineItemId in blockedIds)
      else now, done + [p], blockedIds)
  {
    WithPriceTwice(before, p, p.lineItemId in blockedIds);
  }

  /** One request's line rows and quote. */
  class RequestPricing {
    var lines: seq<LineItem>
    var quote: Option<Quote>

    constructor (lines: seq<LineItem>, quote: Option<Quote>)
      ensures this.lines == lines && this.quote == quote
    {
      this.lines, this.quote := lines, quote;
    }

    /** Writes each priced line's price, lead time and blocked flag to its row. */
    method PersistLinePrices(priced: seq<PricedLine>, blockedIds: set<string>)
      requires forall p, q :: p in priced && q in priced && p.lineItemId == q.lineItemId ==> p == q
      modifies this`lines
      ensures |lines| == |old(lines)|
      ensures forall i :: 0 <= i < |lines| ==> Written(old(lines)[i], lines[i], priced, blockedIds)
    {
      for n := 0 to |priced|
        invariant |lines| == |old(lines)|
        invariant forall i :: 0 <= i < |lines| ==> Written(old(lines)[i], lines[i], priced[..n], blockedIds)
      {
        var line := priced[n];
        forall i | 0 <= i < |lines|
          ensures Written(old(lines)[i], Update(lines, line, line.lineItemId in blockedIds)[i],
            priced[..n] + [line], blockedIds)
        {
          WrittenOnce(old(lines)[i], lines[i], priced[..n], line, blockedIds);
        }
        assert priced[..n + 1] == priced[..n] + [line];
        lines := Update(lines, line, line.lineItemId in blockedIds);
      }
      assert priced[..|priced|] == priced;
    }

    /** Takes stored pricing off the lines that are not in the quote. */
    method ClearLinePricing()
      modifies this`lines
      ensures lines == ClearedOutside(old(lines))
    {
      for n := 0 to |lines|
        invariant |lines| == |old(lines)|
        invariant forall i :: 0 <= i < n ==> lines[i] == Kept(old(lines)[i])
        invariant forall i :: n <= i < |lines| ==> lines[i] == old(lines)[i]
      {
        var li := lines[n];
        if !IsPriceable(li) {
          var hasPricing := li.unitPriceMinor.Some? || li.leadTimeDays.Some? || PRICING_BLOCKED_FLAG in li.flags;
          if hasPricing {
            lines := lines[n := li.(unitPriceMinor := None, leadTimeDays := None, flags := Unblocked(li.flags))];
          }
        }
      }
    }

    /** Re-prices the request, keeping manual prices; a non-euro SKU refuses and changes nothing. */
    method RecomputeQuote(rules: RuleSet) returns (r: Result<RecomputeResult, string>)
      requires UniqueIds(lines)
      modifies this
      ensures r.Err? <==> Refused(old(lines))
      ensures Stored(lines, quote) == RecomputeStep(old(Stored(lines, quote)), rules)
      ensures r.Ok? ==> r.value == ResultFor(quote, RuleMissing(old(lines), rules))
      ensures r.Ok? ==> IsAnswer(r.value, old(lines), rules, quote)
    {
      if !Refused(lines) {
        AnswerReads(lines, rules);
      }
      if !AnyPriceable(lines) {
        NothingPriceable(lines, rules);
        ClearLinePricing();
        quote := None;
        return Ok(RecomputeResult(false, 0, 0, 0, None, false));
      }
      if !AllEuro(lines) {
        return Err("Não é possível recalcular: todos os produtos têm de usar EUR.");
      }
      var loaded := lines;
      var autoPriced := PriceQuote(AutoInputs(loaded), rules);
      var allLines := SortBy(autoPriced.lines + OverrideLines(loaded), ByPosition);
      var q := QuoteOf(allLines);
      var blockedIds := BlockedIds(autoPriced);
      PricedNamesAreDistinct(loaded, rules);
      ClearLinePricing();
      PersistLinePrices(allLines, blockedIds);
      WrittenLinesAreAfter(loaded, lines, rules, allLines, blockedIds);
      EachIsLinesAfter(loaded, lines, rules, RuleMissing(loaded, rules));
      quote := Some(q);
      r := Ok(RecomputeResult(true, q.subtotalMinor, q.discountMinor, q.totalMinor, q.leadTimeDays,
        autoPriced.blocked));
    }

    /** The price node's run on a request without a vertical extraction. */
    method RunPriceNode(rules: RuleSet)
      requires UniqueIds(lines)
      modifies this
      ensures Stored(lines, quote) == NodeAfter(old(Stored(lines, quote)), rules)
    {
      if !AnyPriceable(lines) || !AllEuro(lines) {
        quote := None;
        return;
      }
      var loaded := lines;
      var priced := PriceQuote(AllInputs(loaded), rules);
      NodeNamesAreDistinct(loaded, rules);
      PersistLinePrices(priced.lines, BlockedIds(priced));
      NodeWrittenIsAfter(loaded, lines, rules);
      quote := Some(QuoteOf(priced.lines));
    }
  }

  function BlockedIds(q: PricedQuote): set<string> {
    if q.blocked then set p | p in q.lines :: p.lineItemId else {}
  }

  /** A line once stored pricing is off the lines that are not in the quote. */
  function Kept(li: LineItem): LineItem {
    if IsPriceable(li) then li else Cleared(li)
  }

  function ClearedOutside(lines: seq<LineItem>): seq<LineItem> {
    seq(|lines|, i requires 0 <= i < |lines| => Kept(lines[i]))
  }

  function ResultFor(quote: Option<Quote>, blocked: bool): RecomputeResult {
    match quote
    case None => RecomputeResult(false, 0, 0, 0, None, false)
    case Some(q) => RecomputeResult(true, q.subtotalMinor, q.discountMinor, q.totalMinor, q.leadTimeDays, blocked)
  }

  /** What a caller is told, by the stored quote and the lines: figures that add up, the slowest SKU, a missing rule. */
  ghost predicate IsAnswer(r: RecomputeResult, lines: seq<LineItem>, rules: RuleSet, stored: Option<Quote>) {
    if AnyPriceable(lines) then
      && r.priced && stored.Some?
      && r.subtotalMinor == stored.value.subtotalMinor && r.discountMinor == stored.value.discountMinor
      && r.totalMinor == stored.value.totalMinor && r.leadTimeDays == stored.value.leadTimeDays
      && r.totalMinor + r.discountMinor == r.subtotalMinor && r.totalMinor == SumIntBy(stored.value.lines, RowAmount)
      && IsSlowest(lines, r.leadTimeDays)
      && (r.blocked <==> !rules.hasAnyRules && exists li :: li in lines && IsPriceable(li) && !IsOverridden(li))
    else stored.None? && r == RecomputeResult(false, 0, 0, 0, None, false)
  }

  function RowAmount(l: QuoteLine): int {
    l.amountMinor
  }

  ghost predicate IsSlowest(lines: seq<LineItem>, days: Option<int>) {
    && (forall li :: li in lines && IsPriceable(li) && li.matchedSku.value.leadTimeDays.Some? ==>
          days.Some? && li.matchedSku.value.leadTimeDays.value <= days.value)
    && (days.Some? ==> exists li :: li in lines && IsPriceable(li) && li.matchedSku.value.leadTimeDays == days)
  }

  lemma {:induction false} RowsSum(lines: seq<PricedLine>)
    ensures SumIntBy(ToQuoteLines(lines), RowAmount) == SumIntBy(lines, Amount)
  {
    if lines != [] {
      RowsSum(lines[1..]);
      assert ToQuoteLines(lines)[1..] == ToQuoteLines(lines[1..]);
    }
  }

  lemma SlowestPriceable(lines: seq<LineItem>, rules: RuleSet)
    ensures IsSlowest(lines, MaxLeadTime(AllLines(lines, rules)))
  {
    var all := AllLines(lines, rules);
    SlowestLineDecides(all);
    forall li | li in lines && IsPriceable(li)
      ensures PricedFor(li, rules) in all && PricedFor(li, rules).leadTimeDays == li.matchedSku.value.leadTimeDays
    {
      AllLinesMembers(lines, rules, PricedFor(li, rules));
    }
    if MaxLeadTime(all).Some? {
      var p :| p in all && p.leadTimeDays == MaxLeadTime(all);
      AllLinesMembers(lines, rules, p);
      var li :| li in lines && IsPriceable(li) && p == PricedFor(li, rules);
      assert li.matchedSku.value.leadTimeDays == MaxLeadTime(all);
    }
  }

  lemma {:induction false} AnyAutoInput(lines: seq<LineItem>)
    ensures AutoInputs(lines) != [] <==> exists li :: li in lines && IsPriceable(li) && !IsOverridden(li)
  {
    if lines != [] {
      AnyAutoInput(lines[1..]);
      assert lines == [lines[0]] + lines[1..];
    }
  }

  lemma AnswerReads(lines: seq<LineItem>, rules: RuleSet)
    requires !Refused(lines)
    ensures var stored := QuoteAfter(lines, rules);
      IsAnswer(ResultFor(stored, RuleMissing(lines, rules)), lines, rules, stored)
  {
    if AnyPriceable(lines) {
      RowsSum(AllLines(lines, rules));
      SlowestPriceable(lines, rules);
      AnyAutoInput(lines);
    }
  }

  lemma NothingPriceable(lines: seq<LineItem>, rules: RuleSet)
    requires !AnyPriceable(lines)
    ensures ClearedOutside(lines) == LinesAfter(lines, rules)
  {
    assert forall i :: 0 <= i < |lines| ==> LineAfter(lines[i], rules, RuleMissing(lines, rules)) == Cleared(lines[i]);
  }

  lemma SameId(lines: seq<LineItem>, a: LineItem, b: LineItem)
    requires UniqueIds(lines) && a in lines && b in lines && a.id == b.id
    ensures a == b
  {
    var i :| 0 <= i < |lines| && lines[i] == a;
    var j :| 0 <= j < |lines| && lines[j] == b;
  }

  /** A line's own priced line is the only one that names it, and there is one exactly when it can be priced. */
  lemma PricedOnce(lines: seq<LineItem>, rules: RuleSet, li: LineItem)
    requires UniqueIds(lines) && li in lines
    ensures IsPriceable(li) ==> PricedFor(li, rules) in AllLines(lines, rules)
    ensures forall p :: p in AllLines(lines, rules) && p.lineItemId == li.id ==>
      IsPriceable(li) && p == PricedFor(li, rules)
  {
    if IsPriceable(li) {
      AllLinesMembers(lines, rules, PricedFor(li, rules));
    }
    forall p | p in AllLines(lines, rules) && p.lineItemId == li.id
      ensures IsPriceable(li) && p == PricedFor(li, rules)
    {
      AllLinesMembers(lines, rules, p);
      var other :| other in lines && IsPriceable(other) && p == PricedFor(other, rules);
      SameId(lines, li, other);
    }
  }

  lemma PricedNamesAreDistinct(lines: seq<LineItem>, rules: RuleSet)
    requires UniqueIds(lines)
    ensures forall p, q ::
      p in AllLines(lines, rules) && q in AllLines(lines, rules) && p.lineItemId == q.lineItemId ==> p == q
  {
    forall p, q | p in AllLines(lines, rules) && q in AllLines(lines, rules) && p.lineItemId == q.lineItemId
      ensures p == q
    {
      AllLinesMembers(lines, rules, p);
      var li :| li in lines && IsPriceable(li) && p == PricedFor(li, rules);
      PricedOnce(lines, rules, li);
    }
  }

  lemma BlockedOnce(lines: seq<LineItem>, rules: RuleSet, li: LineItem)
    requires UniqueIds(lines) && li in lines && IsPriceable(li)
    ensures li.id in BlockedIds(PriceQuote(AutoInputs(lines), rules)) <==>
      RuleMissing(lines, rules) && !IsOverridden(li)
  {
    var auto := PriceQuote(AutoInputs(lines), rules).lines;
    AutoMembers(lines, rules, PricedFor(li, rules));
    forall p | p in auto && p.lineItemId == li.id
      ensures !IsOverridden(li)
    {
      AutoMembers(lines, rules, p);
      var other :| other in lines && IsPriceable(other) && !IsOverridden(other) && p == PricedFor(other, rules);
      SameId(lines, li, other);
    }
  }

  lemma WrittenLineIsAfter(lines: seq<LineItem>, li: LineItem, after: LineItem, rules: RuleSet)
    requires UniqueIds(lines) && li in lines
    requires Written(Kept(li), after, AllLines(lines, rules), BlockedIds(PriceQuote(AutoInputs(lines), rules)))
    ensures after == LineAfter(li, rules, RuleMissing(lines, rules))
  {
    PricedOnce(lines, rules, li);
    if IsPriceable(li) {
      BlockedOnce(lines, rules, li);
    }
  }

  lemma EachIsLinesAfter(lines: seq<LineItem>, after: seq<LineItem>, rules: RuleSet, blocked: bool)
    requires |after| == |lines| && forall i :: 0 <= i < |lines| ==> after[i] == LineAfter(lines[i], rules, blocked)
    ensures after == EachAfter(lines, rules, blocked)
  {
  }

  lemma WrittenLinesAreAfter(
    loaded: seq<LineItem>, after: seq<LineItem>, rules: RuleSet, priced: seq<PricedLine>, blockedIds: set<string>)
    requires UniqueIds(loaded) && |after| == |loaded|
    requires priced == AllLines(loaded, rules) && blockedIds == BlockedIds(PriceQuote(AutoInputs(loaded), rules))
    requires forall i :: 0 <= i < |after| ==> Written(Kept(loaded[i]), after[i], priced, blockedIds)
    ensures forall i :: 0 <= i < |loaded| ==> after[i] == LineAfter(loaded[i], rules, RuleMissing(loaded, rules))
  {
    forall i | 0 <= i < |loaded|
      ensures after[i] == LineAfter(loaded[i], rules, RuleMissing(loaded, rules))
    {
      WrittenLineIsAfter(loaded, loaded[i], after[i], rules);
    }
  }

  lemma NodeMembers(lines: seq<LineItem>, rules: RuleSet, p: PricedLine)
    ensures p in PriceLines(AllInputs(lines), Breaks(rules)) <==>
      exists li :: li in lines && IsPriceable(li) && p == PriceLine(ToInput(li), Breaks(rules))
  {
    PriceLinesMembers(AllInputs(lines), Breaks(rules), p);
    forall l
      ensures l in AllInputs(lines) <==> exists li :: li in lines && IsPriceable(li) && l == ToInput(li)
    {
      AllInputsMembers(lines, l);
    }
  }

  lemma NodePricedOnce(lines: seq<LineItem>, rules: RuleSet, li: LineItem)
    requires UniqueIds(lines) && li in lines
    ensures IsPriceable(li) ==> PriceLine(ToInput(li), Breaks(rules)) in PriceLines(AllInputs(lines), Breaks(rules))
    ensures forall p :: p in PriceLines(AllInputs(lines), Breaks(rules)) && p.lineItemId == li.id ==>
              IsPriceable(li) && p == PriceLine(ToInput(li), Breaks(rules))
  {
    if IsPriceable(li) {
      NodeMembers(lines, rules, PriceLine(ToInput(li), Breaks(rules)));
    }
    forall p | p in PriceLines(AllInputs(lines), Breaks(rules)) && p.lineItemId == li.id
      ensures IsPriceable(li) && p == PriceLine(ToInput(li), Breaks(rules))
    {
      NodeMembers(lines, rules, p);
      var other :| other in lines && IsPriceable(other) && p == PriceLine(ToInput(other), Breaks(rules));
      SameId(lines, li, other);
    }
  }

  lemma NodeNamesAreDistinct(lines: seq<LineItem>, rules: RuleSet)
    requires UniqueIds(lines)
    ensures var priced := PriceLines(AllInputs(lines), Breaks(rules));
      forall p, q :: p in priced && q in priced && p.lineItemId == q.lineItemId ==> p == q
  {
    var priced := PriceLines(AllInputs(lines), Breaks(rules));
    forall p, q | p in priced && q in priced && p.lineItemId == q.lineItemId
      ensures p == q
    {
      NodeMembers(lines, rules, p);
      var li :| li in lines && IsPriceable(li) && p == PriceLine(ToInput(li), Breaks(rules));
      NodePricedOnce(lines, rules, li);
    }
  }

  lemma NodeWrittenLineIsAfter(lines: seq<LineItem>, li: LineItem, after: LineItem, rules: RuleSet)
    requires UniqueIds(lines) && li in lines
    requires Written(li, after, PriceLines(AllInputs(lines), Breaks(rules)),
      BlockedIds(PriceQuote(AllInputs(lines), rules)))
    ensures after == NodeLineAfter(li, rules)
  {
    NodePricedOnce(lines, rules, li);
    if IsPriceable(li) {
      AllInputsMembers(lines, ToInput(li));
      assert PriceQuote(AllInputs(lines), rules).lines == PriceLines(AllInputs(lines), Breaks(rules));
    }
  }

  lemma NodeWrittenIsAfter(loaded: seq<LineItem>, after: seq<LineItem>, rules: RuleSet)
    requires UniqueIds(loaded) && |after| == |loaded|
    requires forall i :: 0 <= i < |after| ==>
      Written(loaded[i], after[i], PriceLines(AllInputs(loaded), Breaks(rules)),
        BlockedIds(PriceQuote(AllInputs(loaded), rules)))
    ensures after == NodeLinesAfter(loaded, rules)
  {
    forall i | 0 <= i < |loaded|
      ensures after[i] == NodeLineAfter(loaded[i], rules)
    {
      NodeWrittenLineIsAfter(loaded, loaded[i], after[i], rules);
    }
  }

  // ---------- The quote, line by line ----------

  function PricedAll(lines: seq<LineItem>, rules: RuleSet): seq<PricedLine> {
    if lines == [] then []
    else (if IsPriceable(lines[0]) then [PricedFor(lines[0], rules)] else []) + PricedAll(lines[1..], rules)
  }

  /** Lines are read in position order; here no two share a position. */
  ghost predicate InOrder(lines: seq<LineItem>) {
    forall i, j :: 0 <= i < j < |lines| ==> lines[i].position < lines[j].position
  }

  /** longA and longB are a and b with x put before one of them. */
  ghost predicate OneLonger<T>(x: T, a: seq<T>, b: seq<T>, longA: seq<T>, longB: seq<T>) {
    (longA == [x] + a && longB == b) || (longA == a && longB == [x] + b)
  }

  lemma PrependToEither<T>(x: T, a: seq<T>, b: seq<T>, c: seq<T>, longA: seq<T>, longB: seq<T>)
    requires multiset(a + b) == multiset(c) && OneLonger(x, a, b, longA, longB)
    ensures multiset(longA + longB) == multiset([x] + c)
  {
    assert ([x] + a) + b == [x] + (a + b);
  }

  lemma AutoPrepend(lines: seq<LineItem>, rules: RuleSet)
    requires lines != []
    ensures PriceLines(AutoInputs(lines), Breaks(rules)) ==
            (if IsPriceable(lines[0]) && !IsOverridden(lines[0]) then [PricedFor(lines[0], rules)] else [])
            + PriceLines(AutoInputs(lines[1..]), Breaks(rules))
  {
  }

  lemma PricedStep(lines: seq<LineItem>, rules: RuleSet)
    requires lines != []
    ensures var auto, autoRest := PriceLines(AutoInputs(lines), Breaks(rules)),
      PriceLines(AutoInputs(lines[1..]), Breaks(rules));
      if IsPriceable(lines[0]) then
        && OneLonger(PricedFor(lines[0], rules), autoRest, OverrideLines(lines[1..]), auto, OverrideLines(lines))
        && PricedAll(lines, rules) == [PricedFor(lines[0], rules)] + PricedAll(lines[1..], rules)
      else
        && auto == autoRest && OverrideLines(lines) == OverrideLines(lines[1..])
        && PricedAll(lines, rules) == PricedAll(lines[1..], rules)
  {
    AutoPrepend(lines, rules);
  }

  lemma {:induction false} SamePricedLines(lines: seq<LineItem>, rules: RuleSet)
    ensures multiset(PriceLines(AutoInputs(lines), Breaks(rules)) + OverrideLines(lines)) ==
      multiset(PricedAll(lines, rules))
  {
    if lines != [] {
      var rest := lines[1..];
      SamePricedLines(rest, rules);
      PricedStep(lines, rules);
      if IsPriceable(lines[0]) {
        PrependToEither(
          PricedFor(lines[0], rules), PriceLines(AutoInputs(rest), Breaks(rules)), OverrideLines(rest),
          PricedAll(rest, rules),
          PriceLines(AutoInputs(lines), Breaks(rules)), OverrideLines(lines));
      }
    }
  }

  lemma {:induction false} PricedAllMembers(lines: seq<LineItem>, rules: RuleSet, p: PricedLine)
    requires p in PricedAll(lines, rules)
    ensures exists i :: 0 <= i < |lines| && p.position == lines[i].position
  {
    if IsPriceable(lines[0]) && p == PricedFor(lines[0], rules) {
      assert p.position == lines[0].position;
    } else {
      PricedAllMembers(lines[1..], rules, p);
      var i :| 0 <= i < |lines[1..]| && p.position == lines[1..][i].position;
      assert p.position == lines[i + 1].position;
    }
  }

  lemma {:induction false} PricedAllInOrder(lines: seq<LineItem>, rules: RuleSet)
    requires InOrder(lines)
    ensures Sorted(PricedAll(lines, rules), ByPosition) && DistinctKeys(PricedAll(lines, rules), ByPosition)
  {
    if lines != [] {
      var rest := PricedAll(lines[1..], rules);
      PricedAllInOrder(lines[1..], rules);
      forall k | 0 <= k < |rest|
        ensures lines[0].position < rest[k].position
      {
        PricedAllMembers(lines[1..], rules, rest[k]);
      }
    }
  }

  /** With distinct positions the quote lists the priceable lines in the order of the lines. */
  lemma QuoteFollowsTheLines(lines: seq<LineItem>, rules: RuleSet)
    requires InOrder(lines)
    ensures AllLines(lines, rules) == PricedAll(lines, rules)
  {
    var s := PriceQuote(AutoInputs(lines), rules).lines + OverrideLines(lines);
    SamePricedLines(lines, rules);
    PricedAllInOrder(lines, rules);
    SortByKeeps(s, ByPosition);
    SortedIsUnique(PricedAll(lines, rules), AllLines(lines, rules), ByPosition);
  }

  // ---------- Totals ----------

  /**
   The recomputed total is the rule-priced total plus the rounded override amounts; the discount is the rest of the
   subtotal.
   */
  lemma RecomputedTotal(lines: seq<LineItem>, rules: RuleSet)
    requires AnyPriceable(lines)
    ensures var q := QuoteAfter(lines, rules).value;
      && q.totalMinor == PriceQuote(AutoInputs(lines), rules).totalMinor + SumIntBy(OverrideLines(lines), Amount)
      && q.subtotalMinor == PriceQuote(AutoInputs(lines), rules).subtotalMinor +
        SumIntBy(OverrideLines(lines), BaseAmount)
      && q.totalMinor + q.discountMinor == q.subtotalMinor
  {
    var auto := PriceQuote(AutoInputs(lines), rules).lines;
    SortBySumInt(auto + OverrideLines(lines), ByPosition, Amount);
    SortBySumInt(auto + OverrideLines(lines), ByPosition, BaseAmount);
    SumIntByConcat(auto, OverrideLines(lines), Amount);
    SumIntByConcat(auto, OverrideLines(lines), BaseAmount);
  }
}
