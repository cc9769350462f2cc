/**
 Deterministic pricing of matched lines: catalog base price, the largest quantity break the line
 reaches, amounts rounded to whole minor units, and the quote totals.
 */
module QuotePricing {
  import opened Wrappers
  import opened Rounding
  import opened StableSort
  import opened Sums

  datatype LineInput = LineInput(
    lineItemId: string, skuId: string, position: int, description: string,
    quantity: real, basePriceMinor: int, leadTimeDays: Option<int>)

  /** An inclusive `quantity >= minQty` threshold that grants discountPct. */
  datatype QuantityBreak = QuantityBreak(minQty: int, discountPct: real)

  datatype RuleSet = RuleSet(quantityBreaks: seq<QuantityBreak>, hasAnyRules: bool)

  datatype PricedLine = PricedLine(
    lineItemId: string, skuId: string, position: int, description: string, quantity: real,
    unitPriceMinor: int, amountMinor: int, baseAmountMinor: int, appliedDiscountPct: real, leadTimeDays: Option<int>)

  datatype PricedQuote = PricedQuote(
    lines: seq<PricedLine>, subtotalMinor: int, discountMinor: int, totalMinor: int,
    leadTimeDays: Option<int>, blocked: bool)

  predicate Reaches(quantity: real, b: QuantityBreak) {
    quantity >= b.minQty as real
  }

  function AppliedDiscount(breaks: seq<QuantityBreak>, quantity: real): real {
    if breaks == [] then 0.0
    else
      var last := |breaks| - 1;
      var soFar := AppliedDiscount(breaks[..last], quantity);
      if Reaches(quantity, breaks[last]) then Max(soFar, breaks[last].discountPct) else soFar
  }

  /** base price times quantity, rounded once, before any discount. */
  function Extended(basePriceMinor: int, quantity: real): int {
    Round(basePriceMinor as real * quantity)
  }

  function ExactDiscounted(amountMinor: int, pct: real): real {
    amountMinor as real * (100.0 - pct) / 100.0
  }

  function Discounted(amountMinor: int, pct: real): int {
    Round(ExactDiscounted(amountMinor, pct))
  }

  function PriceLine(line: LineInput, breaks: seq<QuantityBreak>): PricedLine {
    var pct := AppliedDiscount(breaks, line.quantity);
    var baseAmount := Extended(line.basePriceMinor, line.quantity);
    PricedLine(
      line.lineItemId, line.skuId, line.position, line.description, line.quantity,
      Discounted(line.basePriceMinor, pct),
      Discounted(baseAmount, pct),
      baseAmount, pct, line.leadTimeDays)
  }

  function ByMinQty(b: QuantityBreak): real {
    b.minQty as real
  }

  function PriceLines(lines: seq<LineInput>, breaks: seq<QuantityBreak>): seq<PricedLine> {
    seq(|lines|, i requires 0 <= i < |lines| => PriceLine(lines[i], breaks))
  }

  function BaseAmount(l: PricedLine): int {
    l.baseAmountMinor
  }

  function Amount(l: PricedLine): int {
    l.amountMinor
  }

  /** The slowest line decides; None when no line carries a lead time. */
  function MaxLeadTime(lines: seq<PricedLine>): Option<int> {
    if lines == [] then None
    else
      match (lines[0].leadTimeDays, MaxLeadTime(lines[1..]))
      case (None, rest) => rest
      case (Some(d), None) => Some(d)
      case (Some(d), Some(e)) => Some(if d >= e then d else e)
  }

  function PriceQuote(lines: seq<LineInput>, rules: RuleSet): PricedQuote {
    var breaks := SortBy(rules.quantityBreaks, ByMinQty);
    var priced := PriceLines(lines, breaks);
    var subtotal, total := SumIntBy(priced, BaseAmount), SumIntBy(priced, Amount);
    PricedQuote(priced, subtotal, subtotal - total, total, MaxLeadTime(priced), |lines| > 0 && !rules.hasAnyRules)
  }

  // ---------- The break that applies ----------

  ghost predicate ValidBreaks(breaks: seq<QuantityBreak>) {
    forall b :: b in breaks ==> 0.0 <= b.discountPct <= 100.0
  }

  ghost predicate ValidLine(line: LineInput) {
    0 <= line.basePriceMinor && 0.0 <= line.quantity
  }

  /**
   The applied discount is the largest one reached: it bounds every reached break and, unless zero, is one of them.
   */
  lemma {:induction false} LargestReachedBreakApplies(breaks: seq<QuantityBreak>, quantity: real)
    requires ValidBreaks(breaks)
    ensures var pct := AppliedDiscount(breaks, quantity);
      && 0.0 <= pct <= 100.0
      && (forall b :: b in breaks && Reaches(quantity, b) ==> b.discountPct <= pct)
      && (pct == 0.0 || exists b :: b in breaks && Reaches(quantity, b) && b.discountPct == pct)
  {
    if breaks != [] {
      var last := |breaks| - 1;
      assert breaks == breaks[..last] + [breaks[last]];
      LargestReachedBreakApplies(breaks[..last], quantity);
    }
  }

  /** Buying more never lowers the discount, and the order in which the rules are stored does not matter. */
  lemma DiscountIsMonotoneAndOrderFree(breaks: seq<QuantityBreak>, others: seq<QuantityBreak>, less: real, more: real)
    requires ValidBreaks(breaks) && multiset(breaks) == multiset(others) && less <= more
    ensures AppliedDiscount(breaks, less) <= AppliedDiscount(others, more)
    ensures AppliedDiscount(breaks, less) == AppliedDiscount(others, less)
  {
    assert forall b :: b in breaks <==> b in multiset(breaks);
    assert forall b :: b in others <==> b in multiset(others);
    LargestReachedBreakApplies(breaks, less);
    LargestReachedBreakApplies(others, more);
    LargestReachedBreakApplies(others, less);
  }

  lemma LinesIgnoreRuleOrder(lines: seq<LineInput>, a: seq<QuantityBreak>, b: seq<QuantityBreak>)
    requires ValidBreaks(a) && multiset(a) == multiset(b)
    ensures PriceLines(lines, a) == PriceLines(lines, b)
  {
    forall i | 0 <= i < |lines|
      ensures PriceLine(lines[i], a) == PriceLine(lines[i], b)
    {
      DiscountIsMonotoneAndOrderFree(a, b, lines[i].quantity, lines[i].quantity);
    }
  }

  lemma SortedBreaks(breaks: seq<QuantityBreak>)
    ensures multiset(SortBy(breaks, ByMinQty)) == multiset(breaks)
    ensures ValidBreaks(breaks) ==> ValidBreaks(SortBy(breaks, ByMinQty))
  {
    SortByKeeps(breaks, ByMinQty);
    SortByMembers(breaks, ByMinQty);
  }

  lemma QuoteIgnoresRuleOrder(lines: seq<LineInput>, rules: RuleSet, others: seq<QuantityBreak>)
    requires ValidBreaks(rules.quantityBreaks) && multiset(rules.quantityBreaks) == multiset(others)
    ensures PriceQuote(lines, rules) == PriceQuote(lines, rules.(quantityBreaks := others))
  {
    SortedBreaks(rules.quantityBreaks);
    SortedBreaks(others);
    LinesIgnoreRuleOrder(lines, SortBy(rules.quantityBreaks, ByMinQty), SortBy(others, ByMinQty));
  }

  lemma {:induction false} SlowestLineDecides(lines: seq<PricedLine>)
    ensures match MaxLeadTime(lines)
      case None => forall l :: l in lines ==> l.leadTimeDays.None?
      case Some(d) =>
        && (exists l :: l in lines && l.leadTimeDays == Some(d))
        && forall l :: l in lines && l.leadTimeDays.Some? ==> l.leadTimeDays.value <= d
  {
    if lines != [] {
      SlowestLineDecides(lines[1..]);
      assert lines == [lines[0]] + lines[1..];
    }
  }

  // ---------- Rounding and conservation ----------

  /** price times quantity times (1 - pct / 100), with no rounding anywhere. */
  function ExactAmount(price: int, quantity: real, pct: real): real {
    price as real * quantity * (1.0 - pct / 100.0)
  }

  function ExactOf(line: LineInput, breaks: seq<QuantityBreak>): real {
    ExactAmount(line.basePriceMinor, line.quantity, AppliedDiscount(breaks, line.quantity))
  }

  /** A line's amount is between zero and its undiscounted amount, and at most one minor unit from the exact figure. */
  lemma LineWithinOneUnit(line: LineInput, breaks: seq<QuantityBreak>)
    requires ValidLine(line) && ValidBreaks(breaks)
    ensures var priced := PriceLine(line, breaks);
      && 0 <= priced.amountMinor <= priced.baseAmountMinor
      && -1.0 <= priced.amountMinor as real - ExactOf(line, breaks) <= 1.0
  {
    LargestReachedBreakApplies(breaks, line.quantity);
    DiscountedWithinOneUnit(line.basePriceMinor, line.quantity, AppliedDiscount(breaks, line.quantity));
  }

  lemma DiscountedWithinOneUnit(price: int, quantity: real, pct: real)
    requires 0 <= price && 0.0 <= quantity && 0.0 <= pct <= 100.0
    ensures var base := Extended(price, quantity);
      && 0 <= Discounted(base, pct) <= base
      && -1.0 <= Discounted(base, pct) as real - ExactAmount(price, quantity, pct) <= 1.0
  {
    var exact, base, share := price as real * quantity, Extended(price, quantity), 1.0 - pct / 100.0;
    ProductNonNegative(price as real, quantity);
    RoundNear(exact);
    RoundNonNegative(exact);
    var part, exactPart := ExactDiscounted(base, pct), ExactAmount(price, quantity, pct);
    assert part == base as real * share;
    RoundNear(part);
    RoundOfShare(base as real, share, part);
    RoundIsExactOnIntegers(base);
    assert part - exactPart == (base as real - exact) * share;
    ShareShrinks(base as real - exact, share, part - exactPart);
  }

  lemma ShareShrinks(x: real, share: real, part: real)
    requires -0.5 <= x <= 0.5 && 0.0 <= share <= 1.0 && part == x * share
    ensures -0.5 <= part <= 0.5
  {
    if x >= 0.0 {
      ShareBetween(x, share, part);
    } else {
      ShareBetween(-x, share, -part);
    }
  }

  function ExactTotal(lines: seq<LineInput>, breaks: seq<QuantityBreak>): real {
    if lines == [] then 0.0 else ExactOf(lines[0], breaks) + ExactTotal(lines[1..], breaks)
  }

  lemma {:induction false} LinesWithinOneUnitEach(lines: seq<LineInput>, breaks: seq<QuantityBreak>)
    requires ValidBreaks(breaks) && forall l :: l in lines ==> ValidLine(l)
    ensures var total := SumIntBy(PriceLines(lines, breaks), Amount);
      && -(|lines| as real) <= total as real - ExactTotal(lines, breaks) <= |lines| as real
      && 0 <= total <= SumIntBy(PriceLines(lines, breaks), BaseAmount)
  {
    if lines != [] {
      var priced := PriceLines(lines, breaks);
      assert priced[1..] == PriceLines(lines[1..], breaks);
      LineWithinOneUnit(lines[0], breaks);
      LinesWithinOneUnitEach(lines[1..], breaks);
    }
  }

  /**
   The quoted total is within one minor unit per line of the exact discounted sum, total and discount
   make up the subtotal, and neither is negative.
   */
  lemma QuoteWithinOneUnitPerLine(lines: seq<LineInput>, rules: RuleSet)
    requires ValidBreaks(rules.quantityBreaks) && forall l :: l in lines ==> ValidLine(l)
    ensures var quote := PriceQuote(lines, rules);
      && -(|lines| as real) <= quote.totalMinor as real - ExactTotal(lines, rules.quantityBreaks) <= |lines| as real
      && quote.totalMinor + quote.discountMinor == quote.subtotalMinor
      && 0 <= quote.totalMinor && 0 <= quote.discountMinor
  {
    var breaks := SortBy(rules.quantityBreaks, ByMinQty);
    SortedBreaks(rules.quantityBreaks);
    LinesWithinOneUnitEach(lines, breaks);
    SameExactTotal(lines, breaks, rules.quantityBreaks);
  }

  lemma {:induction false} SameExactTotal(lines: seq<LineInput>, a: seq<QuantityBreak>, b: seq<QuantityBreak>)
    requires ValidBreaks(a) && multiset(a) == multiset(b)
    ensures ExactTotal(lines, a) == ExactTotal(lines, b)
  {
    if lines != [] {
      DiscountIsMonotoneAndOrderFree(a, b, lines[0].quantity, lines[0].quantity);
      SameExactTotal(lines[1..], a, b);
    }
  }

  // ---------- What a priced line says ----------

  /** amount is `pct` percent off `full`, to half a unit. */
  predicate IsPercentOff(amount: int, full: int, pct: real) {
    -50.0 <= 100.0 * amount as real - full as real * (100.0 - pct) <= 50.0
  }

  /** amount is price times quantity, to half a unit. */
  predicate IsExtended(amount: int, price: int, quantity: real) {
    -0.5 <= amount as real - price as real * quantity <= 0.5
  }

  /** A priced line is its input, the discounted unit price, and the discounted and full amounts. */
  ghost predicate PricesTheLine(p: PricedLine, line: LineInput, pct: real) {
    && p.lineItemId == line.lineItemId && p.skuId == line.skuId && p.position == line.position
    && p.description == line.description && p.quantity == line.quantity && p.leadTimeDays == line.leadTimeDays
    && p.appliedDiscountPct == pct && IsPercentOff(p.unitPriceMinor, line.basePriceMinor, pct)
    && IsExtended(p.baseAmountMinor, line.basePriceMinor, line.quantity)
    && IsPercentOff(p.amountMinor, p.baseAmountMinor, pct)
  }

  lemma DiscountedIsPercentOff(full: int, pct: real)
    ensures IsPercentOff(Discounted(full, pct), full, pct)
  {
    RoundNear(ExactDiscounted(full, pct));
  }

  lemma ExtendedIsExtended(price: int, quantity: real)
    ensures IsExtended(Extended(price, quantity), price, quantity)
  {
    RoundNear(price as real * quantity);
  }

  lemma LineIsPriced(line: LineInput, breaks: seq<QuantityBreak>)
    ensures PricesTheLine(PriceLine(line, breaks), line, AppliedDiscount(breaks, line.quantity))
  {
    DiscountedIsPercentOff(line.basePriceMinor, AppliedDiscount(breaks, line.quantity));
    DiscountedIsPercentOff(Extended(line.basePriceMinor, line.quantity), AppliedDiscount(breaks, line.quantity));
    ExtendedIsExtended(line.basePriceMinor, line.quantity);
  }

  /** The quote: one priced line per input in order, totals that are the sums, and blocked only without any rule. */
  lemma QuoteIsPriced(lines: seq<LineInput>, rules: RuleSet)
    ensures var q := PriceQuote(lines, rules);
      && |q.lines| == |lines|
      && (forall i :: 0 <= i < |lines| ==>
            var breaks := SortBy(rules.quantityBreaks, ByMinQty);
            PricesTheLine(q.lines[i], lines[i], AppliedDiscount(breaks, lines[i].quantity)))
      && q.totalMinor == SumIntBy(q.lines, Amount) && q.subtotalMinor == SumIntBy(q.lines, BaseAmount)
      && q.discountMinor == q.subtotalMinor - q.totalMinor
      && (q.leadTimeDays.None? ==> forall l :: l in lines ==> l.leadTimeDays.None?)
      && (q.leadTimeDays.Some? ==>
            && (exists l :: l in lines && l.leadTimeDays == q.leadTimeDays)
            && forall l :: l in lines && l.leadTimeDays.Some? ==> l.leadTimeDays.value <= q.leadTimeDays.value)
      && (q.blocked <==> lines != [] && !rules.hasAnyRules)
  {
    var q, breaks := PriceQuote(lines, rules), SortBy(rules.quantityBreaks, ByMinQty);
    forall i | 0 <= i < |lines| {
      LineIsPriced(lines[i], breaks);
    }
    SlowestLineDecides(q.lines);
    forall l | l in lines
      ensures exists p :: p in q.lines && p.leadTimeDays == l.leadTimeDays
    {
      var i :| 0 <= i < |lines| && lines[i] == l;
      assert q.lines[i] in q.lines && q.lines[i].leadTimeDays == l.leadTimeDays;
    }
  }
}
