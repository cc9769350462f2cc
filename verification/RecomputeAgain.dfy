/**
 Running a writer of prices again: when a second recompute changes nothing, how a line gets into the state in
 which it does, and where recompute and the price node agree.
 */
module RecomputeAgain {
  import opened InsertionOrder
  import Pipeline
  import Recovery
  import opened Wrappers
  import opened StableSort
  import opened Sums
  import opened QuotePricing
  import opened Recompute

  // ---------- Running a writer again ----------

  /**
   A priceable line flagged as overridden but without a price: priced from the rules now, taken for overridden next
   time.
   */
  predicate IsStale(li: LineItem) {
    IsPriceable(li) && li.unitPriceMinor.None? && MANUAL_OVERRIDE_FLAG in li.flags
  }

  /** The stale line's rule price and the manual price it turns into give the same amount. */
  predicate SameAmountAsOverride(li: LineItem, rules: RuleSet)
    requires IsPriceable(li)
  {
    var p := PriceLine(ToInput(li), Breaks(rules));
    p.amountMinor == Extended(p.unitPriceMinor, li.quantity.value)
  }

  lemma LineAfterFacts(li: LineItem, rules: RuleSet, blocked: bool)
    ensures var after := LineAfter(li, rules, blocked);
      && after.id == li.id && after.position == li.position && (IsPriceable(after) <==> IsPriceable(li))
      && (IsPriceable(li) ==> ToInput(after) == ToInput(li))
      && (IsPriceable(li) ==> (IsOverridden(after) <==> MANUAL_OVERRIDE_FLAG in li.flags))
      && (IsPriceable(li) && !IsStale(li) ==> PricedFor(after, rules) == PricedFor(li, rules))
  {
    UnblockedTwice(li.flags);
  }

  lemma {:induction false} SameInputsAgain(lines: seq<LineItem>, rules: RuleSet, blocked: bool)
    requires forall li :: li in lines ==> !IsStale(li)
    ensures AutoInputs(EachAfter(lines, rules, blocked)) == AutoInputs(lines)
    ensures OverrideLines(EachAfter(lines, rules, blocked)) == OverrideLines(lines)
  {
    if lines != [] {
      SameInputsAgain(lines[1..], rules, blocked);
      assert EachAfter(lines, rules, blocked)[1..] == EachAfter(lines[1..], rules, blocked);
      LineAfterFacts(lines[0], rules, blocked);
    }
  }

  lemma SamePriceability(lines: seq<LineItem>, rules: RuleSet, blocked: bool)
    ensures AnyPriceable(EachAfter(lines, rules, blocked)) <==> AnyPriceable(lines)
    ensures AllEuro(EachAfter(lines, rules, blocked)) <==> AllEuro(lines)
  {
    var after := EachAfter(lines, rules, blocked);
    forall i | 0 <= i < |lines|
      ensures IsPriceable(after[i]) <==> IsPriceable(lines[i])
      ensures after[i].matchedSku == lines[i].matchedSku
    {
      LineAfterFacts(lines[i], rules, blocked);
    }
  }

  lemma LineAfterTwice(li: LineItem, rules: RuleSet, blocked: bool)
    requires IsStale(li) ==> !blocked
    ensures LineAfter(LineAfter(li, rules, blocked), rules, blocked) == LineAfter(li, rules, blocked)
  {
    LineAfterFacts(li, rules, blocked);
    UnblockedTwice(li.flags);
    if IsPriceable(li) {
      WithPriceTwice(li, PricedFor(li, rules), blocked && !IsOverridden(li));
    }
  }

  /** Without stale lines a recompute is idempotent on prices, lead times, flags and the quote's contents. */
  lemma RecomputeTwiceIsOnce(lines: seq<LineItem>, rules: RuleSet)
    requires forall li :: li in lines ==> !IsStale(li)
    ensures LinesAfter(LinesAfter(lines, rules), rules) == LinesAfter(lines, rules)
    ensures QuoteAfter(LinesAfter(lines, rules), rules) == QuoteAfter(lines, rules)
    ensures AllEuro(LinesAfter(lines, rules)) <==> AllEuro(lines)
  {
    var blocked := RuleMissing(lines, rules);
    SameInputsAgain(lines, rules, blocked);
    SamePriceability(lines, rules, blocked);
    forall i | 0 <= i < |lines|
      ensures LineAfter(LineAfter(lines[i], rules, blocked), rules, blocked) == LineAfter(lines[i], rules, blocked)
    {
      LineAfterTwice(lines[i], rules, blocked);
    }
  }

  ghost predicate SameButDiscount(p: PricedLine, q: PricedLine) {
    p == q.(appliedDiscountPct := p.appliedDiscountPct)
  }

  lemma {:induction false} SameQuote(a: seq<PricedLine>, b: seq<PricedLine>)
    requires |a| == |b| && forall i :: 0 <= i < |a| ==> SameButDiscount(a[i], b[i])
    ensures SumIntBy(a, BaseAmount) == SumIntBy(b, BaseAmount) && SumIntBy(a, Amount) == SumIntBy(b, Amount)
    ensures MaxLeadTime(a) == MaxLeadTime(b)
  {
    if a != [] {
      assert SameButDiscount(a[0], b[0]);
      assert forall i :: 0 <= i < |a[1..]| ==> a[1..][i] == a[i + 1] && b[1..][i] == b[i + 1];
      SameQuote(a[1..], b[1..]);
    }
  }

  lemma PricedAgain(li: LineItem, rules: RuleSet, blocked: bool)
    requires IsPriceable(li)
    ensures var again, first := PricedFor(LineAfter(li, rules, blocked), rules), PricedFor(li, rules);
      && SameButDiscount(again.(amountMinor := first.amountMinor), first)
      && (again.amountMinor == first.amountMinor <==> (IsStale(li) ==> SameAmountAsOverride(li, rules)))
  {
    LineAfterFacts(li, rules, blocked);
  }

  lemma StaleBlocks(lines: seq<LineItem>, rules: RuleSet, li: LineItem)
    requires li in lines && IsStale(li) && !rules.hasAnyRules
    ensures RuleMissing(lines, rules)
    ensures LinesAfter(LinesAfter(lines, rules), rules) != LinesAfter(lines, rules)
  {
    AutoMembers(lines, rules, PricedFor(li, rules));
    var i :| 0 <= i < |lines| && lines[i] == li;
    var first := LinesAfter(lines, rules);
    LineAfterFacts(li, rules, true);
    assert first[i] == LineAfter(li, rules, true) && PRICING_BLOCKED_FLAG in first[i].flags;
    UnblockedTwice(first[i].flags);
    assert PRICING_BLOCKED_FLAG !in LinesAfter(first, rules)[i].flags;
  }

  lemma LinesSettle(lines: seq<LineItem>, rules: RuleSet)
    requires rules.hasAnyRules
    ensures LinesAfter(LinesAfter(lines, rules), rules) == LinesAfter(lines, rules) == EachAfter(lines, rules, false)
  {
    var after := EachAfter(lines, rules, false);
    forall i | 0 <= i < |lines|
      ensures LineAfter(after[i], rules, false) == after[i]
    {
      LineAfterTwice(lines[i], rules, false);
    }
    assert EachAfter(after, rules, false) == after;
  }

  // ---------- The two orders in which rows of one position can be listed ----------

  function Row(l: PricedLine): QuoteLine {
    QuoteLine(l.skuId, l.description, l.quantity, l.unitPriceMinor, l.amountMinor, l.position)
  }

  function RowPosition(r: QuoteLine): real {
    r.position as real
  }

  /** What recompute sorts: the rule-priced lines, then the overridden ones. */
  function RuleFirst(lines: seq<LineItem>, rules: RuleSet): seq<PricedLine> {
    PriceLines(AutoInputs(lines), Breaks(rules)) + OverrideLines(lines)
  }

  predicate IsHeld(li: LineItem) {
    IsOverridden(li) || IsStale(li)
  }

  /** The priceable lines whose being held is `held`, each at the price recompute gives it now. */
  function PricedWhere(lines: seq<LineItem>, rules: RuleSet, held: bool): seq<PricedLine> {
    if lines == [] then []
    else
      (if IsPriceable(lines[0]) && IsHeld(lines[0]) == held then [PricedFor(lines[0], rules)] else [])
      + PricedWhere(lines[1..], rules, held)
  }

  /** The same lines at the same prices, with a stale line listed among the overridden ones. */
  function StaleHeld(lines: seq<LineItem>, rules: RuleSet): seq<PricedLine> {
    PricedWhere(lines, rules, false) + PricedWhere(lines, rules, true)
  }

  function RowsAt(lines: seq<PricedLine>, position: real): seq<QuoteLine> {
    WithKey(ToQuoteLines(lines), RowPosition, position)
  }

  /** Among rows of equal position, listing the stale lines with the overridden ones reads the same. */
  ghost predicate TiesReadTheSame(lines: seq<LineItem>, rules: RuleSet) {
    forall p: real :: RowsAt(RuleFirst(lines, rules), p) == RowsAt(StaleHeld(lines, rules), p)
  }

  lemma ToQuoteLinesConcat(a: seq<PricedLine>, b: seq<PricedLine>)
    ensures ToQuoteLines(a + b) == ToQuoteLines(a) + ToQuoteLines(b)
  {
  }

  lemma {:induction false} InsertRows(x: PricedLine, s: seq<PricedLine>)
    ensures ToQuoteLines(Insert(x, s, ByPosition)) == Insert(Row(x), ToQuoteLines(s), RowPosition)
  {
    if s != [] && ByPosition(x) > ByPosition(s[0]) {
      InsertRows(x, s[1..]);
      ToQuoteLinesConcat([s[0]], Insert(x, s[1..], ByPosition));
      assert ToQuoteLines(s)[1..] == ToQuoteLines(s[1..]);
    } else {
      ToQuoteLinesConcat([x], s);
    }
  }

  /** Sorting priced lines and then writing rows is writing rows and then sorting them. */
  lemma {:induction false} SortRows(s: seq<PricedLine>)
    ensures ToQuoteLines(SortBy(s, ByPosition)) == SortBy(ToQuoteLines(s), RowPosition)
  {
    if s != [] {
      SortRows(s[1..]);
      InsertRows(s[0], SortBy(s[1..], ByPosition));
      assert ToQuoteLines(s)[1..] == ToQuoteLines(s[1..]) && ToQuoteLines(s)[0] == Row(s[0]);
    }
  }

  // ---------- Sums over the quote do not depend on the order ----------

  lemma {:induction false} SumRuleFirst(lines: seq<LineItem>, rules: RuleSet, f: PricedLine -> int)
    ensures SumIntBy(RuleFirst(lines, rules), f) == SumIntBy(PricedAll(lines, rules), f)
  {
    if lines != [] {
      var auto, over := PriceLines(AutoInputs(lines), Breaks(rules)), OverrideLines(lines);
      var autoRest, overRest := PriceLines(AutoInputs(lines[1..]), Breaks(rules)), OverrideLines(lines[1..]);
      SumRuleFirst(lines[1..], rules, f);
      PricedStep(lines, rules);
      SumIntByConcat(auto, over, f);
      SumIntByConcat(autoRest, overRest, f);
      if IsPriceable(lines[0]) {
        var p := PricedFor(lines[0], rules);
        assert ([p] + autoRest)[1..] == autoRest && ([p] + overRest)[1..] == overRest;
        assert ([p] + PricedAll(lines[1..], rules))[1..] == PricedAll(lines[1..], rules);
      }
    }
  }

  lemma SumOfQuote(lines: seq<LineItem>, rules: RuleSet, f: PricedLine -> int)
    ensures SumIntBy(AllLines(lines, rules), f) == SumIntBy(PricedAll(lines, rules), f)
  {
    SortBySumInt(RuleFirst(lines, rules), ByPosition, f);
    SumRuleFirst(lines, rules, f);
  }

  // ---------- The second recompute of a list that settles ----------

  lemma EachAfterTail(lines: seq<LineItem>, rules: RuleSet, blocked: bool)
    requires lines != []
    ensures EachAfter(lines, rules, blocked)[0] == LineAfter(lines[0], rules, blocked)
    ensures EachAfter(lines, rules, blocked)[1..] == EachAfter(lines[1..], rules, blocked)
  {
  }

  lemma HeldStays(li: LineItem, rules: RuleSet, blocked: bool)
    requires IsPriceable(li)
    ensures IsPriceable(LineAfter(li, rules, blocked)) && (IsOverridden(LineAfter(li, rules, blocked)) <==> IsHeld(li))
  {
    LineAfterFacts(li, rules, blocked);
  }

  /** The heads of the lists a recompute is made of. */
  lemma Heads(lines: seq<LineItem>, rules: RuleSet)
    requires lines != []
    ensures OverrideLines(lines) ==
      if IsPriceable(lines[0]) && IsOverridden(lines[0]) then [OverrideLine(lines[0])] + OverrideLines(lines[1..])
        else OverrideLines(lines[1..])
    ensures PricedAll(lines, rules) ==
      if IsPriceable(lines[0]) then [PricedFor(lines[0], rules)] + PricedAll(lines[1..], rules)
        else PricedAll(lines[1..], rules)
  {
  }

  lemma AutoHead(lines: seq<LineItem>, rules: RuleSet)
    requires lines != []
    ensures var rest := PriceLines(AutoInputs(lines[1..]), Breaks(rules));
      PriceLines(AutoInputs(lines), Breaks(rules)) ==
      if IsPriceable(lines[0]) && !IsOverridden(lines[0]) then [PricedFor(lines[0], rules)] + rest else rest
  {
    AutoPrepend(lines, rules);
  }

  lemma WhereHead(lines: seq<LineItem>, rules: RuleSet, held: bool)
    requires lines != []
    ensures PricedWhere(lines, rules, held) ==
      if IsPriceable(lines[0]) && IsHeld(lines[0]) == held then
        [PricedFor(lines[0], rules)] + PricedWhere(lines[1..], rules, held)
      else PricedWhere(lines[1..], rules, held)
  {
  }

  lemma SumHead(p: PricedLine, rest: seq<PricedLine>, f: PricedLine -> int)
    ensures SumIntBy([p] + rest, f) == f(p) + SumIntBy(rest, f)
  {
    assert ([p] + rest)[1..] == rest;
  }

  lemma RowsPrepend(p: PricedLine, q: PricedLine, a: seq<PricedLine>, b: seq<PricedLine>)
    requires SameButDiscount(p, q) && ToQuoteLines(a) == ToQuoteLines(b)
    ensures ToQuoteLines([p] + a) == ToQuoteLines([q] + b)
  {
    ToQuoteLinesConcat([p], a);
    ToQuoteLinesConcat([q], b);
  }

  ghost predicate Harmless(lines: seq<LineItem>, rules: RuleSet) {
    forall li :: li in lines && IsStale(li) ==> SameAmountAsOverride(li, rules)
  }

  /** What the second recompute sorts reads as the first one's lines with the stale ones held. */
  lemma {:induction false} SecondAutoRows(lines: seq<LineItem>, rules: RuleSet)
    requires Harmless(lines, rules)
    ensures var after := EachAfter(lines, rules, false);
      ToQuoteLines(PriceLines(AutoInputs(after), Breaks(rules))) == ToQuoteLines(PricedWhere(lines, rules, false))
  {
    if lines != [] {
      var after := EachAfter(lines, rules, false);
      EachAfterTail(lines, rules, false);
      SecondAutoRows(lines[1..], rules);
      AutoHead(after, rules);
      WhereHead(lines, rules, false);
      LineAfterFacts(lines[0], rules, false);
      if IsPriceable(lines[0]) {
        HeldStays(lines[0], rules, false);
        PricedAgain(lines[0], rules, false);
        RowsPrepend(
          PricedFor(after[0], rules), PricedFor(lines[0], rules), PriceLines(AutoInputs(after[1..]), Breaks(rules)),
          PricedWhere(lines[1..], rules, false));
      }
    }
  }

  lemma {:induction false} SecondOverrideRows(lines: seq<LineItem>, rules: RuleSet)
    requires Harmless(lines, rules)
    ensures ToQuoteLines(OverrideLines(EachAfter(lines, rules, false))) == ToQuoteLines(PricedWhere(lines, rules, true))
  {
    if lines != [] {
      var after := EachAfter(lines, rules, false);
      EachAfterTail(lines, rules, false);
      SecondOverrideRows(lines[1..], rules);
      Heads(after, rules);
      WhereHead(lines, rules, true);
      LineAfterFacts(lines[0], rules, false);
      if IsPriceable(lines[0]) {
        assert lines[0] in lines;
        HeldStays(lines[0], rules, false);
        PricedAgain(lines[0], rules, false);
        RowsPrepend(PricedFor(after[0], rules), PricedFor(lines[0], rules), OverrideLines(after[1..]),
          PricedWhere(lines[1..], rules, true));
      }
    }
  }

  lemma SecondRows(lines: seq<LineItem>, rules: RuleSet)
    requires Harmless(lines, rules)
    ensures ToQuoteLines(RuleFirst(EachAfter(lines, rules, false), rules)) == ToQuoteLines(StaleHeld(lines, rules))
  {
    var after := EachAfter(lines, rules, false);
    SecondAutoRows(lines, rules);
    SecondOverrideRows(lines, rules);
    ToQuoteLinesConcat(PriceLines(AutoInputs(after), Breaks(rules)), OverrideLines(after));
    ToQuoteLinesConcat(PricedWhere(lines, rules, false), PricedWhere(lines, rules, true));
  }

  /** A row whose amount is not its rounded unit price times its quantity. */
  function Off(l: PricedLine): int {
    if l.amountMinor == Extended(l.unitPriceMinor, l.quantity) then 0 else 1
  }

  lemma OffHead(lines: seq<LineItem>, rules: RuleSet)
    requires lines != []
    ensures SumIntBy(PricedAll(lines, rules), Off) ==
      (if IsPriceable(lines[0]) then Off(PricedFor(lines[0], rules)) else 0) +
        SumIntBy(PricedAll(lines[1..], rules), Off)
  {
    Heads(lines, rules);
    if IsPriceable(lines[0]) {
      SumHead(PricedFor(lines[0], rules), PricedAll(lines[1..], rules), Off);
    }
  }

  /** A second recompute never adds such rows, and takes one away for every stale line whose amount changes. */
  lemma {:induction false} OffRowsShrink(lines: seq<LineItem>, rules: RuleSet)
    ensures var again, first := PricedAll(EachAfter(lines, rules, false), rules), PricedAll(lines, rules);
      && SumIntBy(again, Off) <= SumIntBy(first, Off)
      && (SumIntBy(again, Off) == SumIntBy(first, Off) ==> Harmless(lines, rules))
  {
    if lines != [] {
      var after := EachAfter(lines, rules, false);
      EachAfterTail(lines, rules, false);
      OffRowsShrink(lines[1..], rules);
      LineAfterFacts(lines[0], rules, false);
      OffHead(lines, rules);
      OffHead(after, rules);
      assert lines == [lines[0]] + lines[1..];
      if IsPriceable(lines[0]) {
        OffRowShrinks(lines[0], rules);
      }
    }
  }

  lemma OffRowShrinks(li: LineItem, rules: RuleSet)
    requires IsPriceable(li)
    ensures Off(PricedFor(LineAfter(li, rules, false), rules)) <= Off(PricedFor(li, rules))
    ensures IsStale(li) && !SameAmountAsOverride(li, rules) ==>
      Off(PricedFor(LineAfter(li, rules, false), rules)) < Off(PricedFor(li, rules))
  {
    LineAfterFacts(li, rules, false);
    PricedAgain(li, rules, false);
  }

  lemma {:induction false} OffOfRows(s: seq<PricedLine>, t: seq<PricedLine>)
    requires ToQuoteLines(s) == ToQuoteLines(t)
    ensures SumIntBy(s, Off) == SumIntBy(t, Off)
  {
    assert |s| == |ToQuoteLines(s)| == |t|;
    if s != [] {
      assert ToQuoteLines(s)[0] == Row(s[0]) && ToQuoteLines(t)[0] == Row(t[0]);
      assert ToQuoteLines(s[1..]) == ToQuoteLines(s)[1..] && ToQuoteLines(t[1..]) == ToQuoteLines(t)[1..];
      OffOfRows(s[1..], t[1..]);
    }
  }

  lemma SameRowsAreHarmless(lines: seq<LineItem>, rules: RuleSet)
    requires ToQuoteLines(AllLines(EachAfter(lines, rules, false), rules)) == ToQuoteLines(AllLines(lines, rules))
    ensures Harmless(lines, rules)
  {
    var after := EachAfter(lines, rules, false);
    OffOfRows(AllLines(after, rules), AllLines(lines, rules));
    SumOfQuote(after, rules, Off);
    SumOfQuote(lines, rules, Off);
    OffRowsShrink(lines, rules);
  }

  /** Harmless stale lines leave the rows the same exactly when the ties read the same. */
  lemma SameRowsIffTies(lines: seq<LineItem>, rules: RuleSet)
    requires Harmless(lines, rules)
    ensures ToQuoteLines(AllLines(EachAfter(lines, rules, false), rules)) == ToQuoteLines(AllLines(lines, rules))
      <==> TiesReadTheSame(lines, rules)
  {
    var after := EachAfter(lines, rules, false);
    var first, held := ToQuoteLines(RuleFirst(lines, rules)), ToQuoteLines(StaleHeld(lines, rules));
    SecondRows(lines, rules);
    SortRows(RuleFirst(lines, rules));
    SortRows(RuleFirst(after, rules));
    if SortBy(held, RowPosition) == SortBy(first, RowPosition) {
      forall p: real
        ensures RowsAt(RuleFirst(lines, rules), p) == RowsAt(StaleHeld(lines, rules), p)
      {
        SameSortSameGroups(first, held, RowPosition, p);
      }
    } else if TiesReadTheSame(lines, rules) {
      forall p: real
        ensures WithKey(first, RowPosition, p) == WithKey(held, RowPosition, p)
      {
        assert RowsAt(RuleFirst(lines, rules), p) == RowsAt(StaleHeld(lines, rules), p);
      }
      SameGroupsSameSort(first, held, RowPosition);
    }
  }

  // ---------- The figures of a harmless second recompute ----------

  lemma {:induction false} HarmlessFigures(lines: seq<LineItem>, rules: RuleSet)
    requires Harmless(lines, rules)
    ensures var again, first := PricedAll(EachAfter(lines, rules, false), rules), PricedAll(lines, rules);
      && SumIntBy(again, BaseAmount) == SumIntBy(first, BaseAmount) &&
        SumIntBy(again, Amount) == SumIntBy(first, Amount)
  {
    if lines != [] {
      var after := EachAfter(lines, rules, false);
      EachAfterTail(lines, rules, false);
      HarmlessFigures(lines[1..], rules);
      LineAfterFacts(lines[0], rules, false);
      Heads(lines, rules);
      Heads(after, rules);
      if IsPriceable(lines[0]) {
        assert lines[0] in lines;
        PricedAgain(lines[0], rules, false);
        var p, q := PricedFor(after[0], rules), PricedFor(lines[0], rules);
        SumHead(p, PricedAll(after[1..], rules), BaseAmount);
        SumHead(q, PricedAll(lines[1..], rules), BaseAmount);
        SumHead(p, PricedAll(after[1..], rules), Amount);
        SumHead(q, PricedAll(lines[1..], rules), Amount);
      }
    }
  }

  /** Every line's price has the lead time of some line's price in the other run. */
  lemma LeadTimeAgain(lines: seq<LineItem>, rules: RuleSet, p: PricedLine)
    ensures p in AllLines(lines, rules) ==>
      exists q :: q in AllLines(EachAfter(lines, rules, false), rules) && q.leadTimeDays == p.leadTimeDays
  {
    if p in AllLines(lines, rules) {
      var after := EachAfter(lines, rules, false);
      AllLinesMembers(lines, rules, p);
      var li :| li in lines && IsPriceable(li) && p == PricedFor(li, rules);
      var i :| 0 <= i < |lines| && lines[i] == li;
      LineAfterFacts(li, rules, false);
      PricedAgain(li, rules, false);
      assert after[i] in after;
      AllLinesMembers(after, rules, PricedFor(after[i], rules));
    }
  }

  lemma LeadTimeBefore(lines: seq<LineItem>, rules: RuleSet, q: PricedLine)
    ensures q in AllLines(EachAfter(lines, rules, false), rules) ==>
      exists p :: p in AllLines(lines, rules) && p.leadTimeDays == q.leadTimeDays
  {
    var after := EachAfter(lines, rules, false);
    if q in AllLines(after, rules) {
      AllLinesMembers(after, rules, q);
      var la :| la in after && IsPriceable(la) && q == PricedFor(la, rules);
      var i :| 0 <= i < |after| && after[i] == la;
      LineAfterFacts(lines[i], rules, false);
      PricedAgain(lines[i], rules, false);
      AllLinesMembers(lines, rules, PricedFor(lines[i], rules));
    }
  }

  ghost predicate HasLeadTime(a: seq<PricedLine>, d: int) {
    exists p :: p in a && p.leadTimeDays == Some(d)
  }

  lemma NoLongerLeadTime(a: seq<PricedLine>, b: seq<PricedLine>)
    requires forall d :: HasLeadTime(a, d) ==> HasLeadTime(b, d)
    ensures MaxLeadTime(a).Some? ==> MaxLeadTime(b).Some? && MaxLeadTime(a).value <= MaxLeadTime(b).value
  {
    SlowestLineDecides(a);
    SlowestLineDecides(b);
    if MaxLeadTime(a).Some? {
      var d := MaxLeadTime(a).value;
      assert HasLeadTime(a, d) && HasLeadTime(b, d);
    }
  }

  lemma SameLeadTime(lines: seq<LineItem>, rules: RuleSet)
    ensures MaxLeadTime(AllLines(EachAfter(lines, rules, false), rules)) == MaxLeadTime(AllLines(lines, rules))
  {
    var first, again := AllLines(lines, rules), AllLines(EachAfter(lines, rules, false), rules);
    forall d | HasLeadTime(first, d)
      ensures HasLeadTime(again, d)
    {
      var p :| p in first && p.leadTimeDays == Some(d);
      LeadTimeAgain(lines, rules, p);
    }
    forall d | HasLeadTime(again, d)
      ensures HasLeadTime(first, d)
    {
      var q :| q in again && q.leadTimeDays == Some(d);
      LeadTimeBefore(lines, rules, q);
    }
    NoLongerLeadTime(first, again);
    NoLongerLeadTime(again, first);
  }

  /** Without stale lines there is nothing to list elsewhere. */
  lemma {:induction false} NothingStale(lines: seq<LineItem>, rules: RuleSet)
    requires forall li :: li in lines ==> !IsStale(li)
    ensures PricedWhere(lines, rules, false) == PriceLines(AutoInputs(lines), Breaks(rules))
    ensures PricedWhere(lines, rules, true) == OverrideLines(lines)
  {
    if lines != [] {
      assert lines[0] in lines;
      NothingStale(lines[1..], rules);
      AutoPrepend(lines, rules);
    }
  }

  lemma QuotesSettleIff(lines: seq<LineItem>, rules: RuleSet)
    ensures QuoteOf(AllLines(EachAfter(lines, rules, false), rules)) == QuoteOf(AllLines(lines, rules))
      <==> Harmless(lines, rules) && TiesReadTheSame(lines, rules)
  {
    var after := EachAfter(lines, rules, false);
    if QuoteOf(AllLines(after, rules)) == QuoteOf(AllLines(lines, rules)) {
      SameRowsAreHarmless(lines, rules);
      SameRowsIffTies(lines, rules);
    } else if Harmless(lines, rules) && TiesReadTheSame(lines, rules) {
      SameRowsIffTies(lines, rules);
      HarmlessFigures(lines, rules);
      SameLeadTime(lines, rules);
      SumOfQuote(after, rules, BaseAmount);
      SumOfQuote(lines, rules, BaseAmount);
      SumOfQuote(after, rules, Amount);
      SumOfQuote(lines, rules, Amount);
    }
  }

  /**
   When recompute is idempotent, exactly, over every list of lines. It is when it refuses; otherwise a line
   flagged as overridden that has no price is rule-priced once and counts as overridden from then on, so a second
   recompute changes nothing if and only if every such line has rules to go by and a rule amount that its rounded
   unit price reproduces, and listing it among the overridden lines reads the same wherever it shares its position.
   */
  lemma RecomputeIsIdempotentIff(s: Stored, rules: RuleSet)
    ensures RecomputeStep(RecomputeStep(s, rules), rules) == RecomputeStep(s, rules) <==>
      || Refused(s.lines)
      || ((forall li :: li in s.lines && IsStale(li) ==> rules.hasAnyRules && SameAmountAsOverride(li, rules))
          && TiesReadTheSame(s.lines, rules))
  {
    var lines := s.lines;
    if !Refused(lines) {
      if li :| li in lines && IsStale(li) {
        var i :| 0 <= i < |lines| && lines[i] == li;
        assert AnyPriceable(lines);
        SamePriceability(lines, rules, RuleMissing(lines, rules));
        if rules.hasAnyRules {
          LinesSettle(lines, rules);
          QuotesSettleIff(lines, rules);
        } else {
          StaleBlocks(lines, rules, li);
        }
      } else {
        RecomputeTwiceIsOnce(lines, rules);
        SamePriceability(lines, rules, RuleMissing(lines, rules));
        NothingStale(lines, rules);
      }
    }
  }

  // ---------- Positions that are not shared ----------

  ghost predicate PriceableAt(li: LineItem, p: real) {
    IsPriceable(li) && li.position as real == p
  }

  lemma RowsAtConcat(a: seq<PricedLine>, b: seq<PricedLine>, p: real)
    ensures RowsAt(a + b, p) == RowsAt(a, p) + RowsAt(b, p)
  {
    ToQuoteLinesConcat(a, b);
    WithKeyConcat(ToQuoteLines(a), ToQuoteLines(b), RowPosition, p);
  }

  lemma RowsAtHead(l: PricedLine, rest: seq<PricedLine>, p: real)
    ensures RowsAt([l] + rest, p) == if l.position as real == p then [Row(l)] + RowsAt(rest, p) else RowsAt(rest, p)
  {
    assert ToQuoteLines([l] + rest)[0] == Row(l);
    assert ToQuoteLines([l] + rest)[1..] == ToQuoteLines(rest);
  }

  /** How the rows at a position grow by one line of input. */
  lemma RowsOfOneMore(lines: seq<LineItem>, rules: RuleSet, p: real)
    requires lines != []
    ensures var li, rest := lines[0], lines[1..];
      var row := if PriceableAt(li, p) then [Row(PricedFor(li, rules))] else [];
      && RowsAt(PriceLines(AutoInputs(lines), Breaks(rules)), p) ==
           (if IsOverridden(li) then [] else row) + RowsAt(PriceLines(AutoInputs(rest), Breaks(rules)), p)
      && RowsAt(OverrideLines(lines), p) == (if IsOverridden(li) then row else []) + RowsAt(OverrideLines(rest), p)
  {
    var rest := lines[1..];
    AutoHead(lines, rules);
    Heads(lines, rules);
    if IsPriceable(lines[0]) {
      var l := PricedFor(lines[0], rules);
      RowsAtHead(l, PriceLines(AutoInputs(rest), Breaks(rules)), p);
      RowsAtHead(l, OverrideLines(rest), p);
    }
  }

  lemma RowsWhereOneMore(lines: seq<LineItem>, rules: RuleSet, p: real)
    requires lines != []
    ensures var li, rest := lines[0], lines[1..];
      var row := if PriceableAt(li, p) then [Row(PricedFor(li, rules))] else [];
      && RowsAt(PricedWhere(lines, rules, false), p) == (if IsHeld(li) then [] else row) +
        RowsAt(PricedWhere(rest, rules, false), p)
      && RowsAt(PricedWhere(lines, rules, true), p) == (if IsHeld(li) then row else []) +
        RowsAt(PricedWhere(rest, rules, true), p)
  {
    var rest := lines[1..];
    WhereHead(lines, rules, false);
    WhereHead(lines, rules, true);
    if IsPriceable(lines[0]) {
      var l := PricedFor(lines[0], rules);
      RowsAtHead(l, PricedWhere(rest, rules, false), p);
      RowsAtHead(l, PricedWhere(rest, rules, true), p);
    }
  }

  lemma RowsSkip(lines: seq<LineItem>, rules: RuleSet, p: real)
    requires lines != [] && !PriceableAt(lines[0], p)
    ensures RowsAt(PriceLines(AutoInputs(lines), Breaks(rules)), p) ==
      RowsAt(PriceLines(AutoInputs(lines[1..]), Breaks(rules)), p)
    ensures RowsAt(OverrideLines(lines), p) == RowsAt(OverrideLines(lines[1..]), p)
    ensures RowsAt(PricedWhere(lines, rules, false), p) == RowsAt(PricedWhere(lines[1..], rules, false), p)
    ensures RowsAt(PricedWhere(lines, rules, true), p) == RowsAt(PricedWhere(lines[1..], rules, true), p)
  {
    RowsOfOneMore(lines, rules, p);
    RowsWhereOneMore(lines, rules, p);
  }

  lemma {:induction false} NoStaleAt(lines: seq<LineItem>, rules: RuleSet, p: real)
    requires forall li :: li in lines && PriceableAt(li, p) ==> !IsStale(li)
    ensures RowsAt(PriceLines(AutoInputs(lines), Breaks(rules)), p) == RowsAt(PricedWhere(lines, rules, false), p)
    ensures RowsAt(OverrideLines(lines), p) == RowsAt(PricedWhere(lines, rules, true), p)
  {
    if lines != [] {
      assert lines[0] in lines;
      RowsOfOneMore(lines, rules, p);
      RowsWhereOneMore(lines, rules, p);
      NoStaleAt(lines[1..], rules, p);
    }
  }

  lemma {:induction false} NothingAt(lines: seq<LineItem>, rules: RuleSet, p: real)
    requires forall li :: li in lines ==> !PriceableAt(li, p)
    ensures RowsAt(PriceLines(AutoInputs(lines), Breaks(rules)), p) == [] && RowsAt(OverrideLines(lines), p) == []
    ensures RowsAt(PricedWhere(lines, rules, false), p) == [] && RowsAt(PricedWhere(lines, rules, true), p) == []
  {
    if lines != [] {
      assert lines[0] in lines;
      RowsOfOneMore(lines, rules, p);
      RowsWhereOneMore(lines, rules, p);
      NothingAt(lines[1..], rules, p);
    }
  }

  /** A stale line shares its position with no other priceable line. */
  ghost predicate StaleLinesUntied(lines: seq<LineItem>) {
    forall i, j :: 0 <= i < |lines| && 0 <= j < |lines| && i != j && IsStale(lines[i]) && IsPriceable(lines[j]) ==>
      lines[i].position != lines[j].position
  }

  lemma {:induction false} UntiedAt(lines: seq<LineItem>, rules: RuleSet, p: real)
    requires StaleLinesUntied(lines)
    ensures RowsAt(PriceLines(AutoInputs(lines), Breaks(rules)), p) + RowsAt(OverrideLines(lines), p)
            == RowsAt(PricedWhere(lines, rules, false), p) + RowsAt(PricedWhere(lines, rules, true), p)
  {
    if i :| 0 <= i < |lines| && PriceableAt(lines[i], p) && IsStale(lines[i]) {
      RowsOfOneMore(lines, rules, p);
      RowsWhereOneMore(lines, rules, p);
      if i == 0 {
        forall li | li in lines[1..]
          ensures !PriceableAt(li, p)
        {
          var j :| 0 <= j < |lines[1..]| && lines[1..][j] == li;
          assert lines[j + 1] == li;
        }
        NothingAt(lines[1..], rules, p);
      } else {
        assert !PriceableAt(lines[0], p);
        assert forall j :: 0 <= j < |lines[1..]| ==> lines[1..][j] == lines[j + 1];
        UntiedAt(lines[1..], rules, p);
        RowsSkip(lines, rules, p);
      }
    } else {
      NoStaleAt(lines, rules, p);
    }
  }

  /** Where no stale line shares its position the ties read the same: with distinct positions they always do. */
  lemma UntiedLinesReadTheSame(lines: seq<LineItem>, rules: RuleSet)
    requires StaleLinesUntied(lines)
    ensures TiesReadTheSame(lines, rules)
  {
    forall p: real
      ensures RowsAt(RuleFirst(lines, rules), p) == RowsAt(StaleHeld(lines, rules), p)
    {
      UntiedAt(lines, rules, p);
      RowsAtConcat(PriceLines(AutoInputs(lines), Breaks(rules)), OverrideLines(lines), p);
      RowsAtConcat(PricedWhere(lines, rules, false), PricedWhere(lines, rules, true), p);
    }
  }

  // ---------- How a line gets there ----------

  /** The body of PATCH on a line item; each part is optional. */
  datatype Patch = Patch(sku: Option<Sku>, quantity: Option<real>, unitPriceMinor: Option<int>, override: Option<bool>)

  const NO_PATCH := Patch(None, None, None, None)
  const CLOSE_TIE_FLAG := "close_tie"

  function Without(flags: seq<string>, flag: string): seq<string> {
    if flags == [] then [] else (if flags[0] == flag then [] else [flags[0]]) + Without(flags[1..], flag)
  }

  function FlagsPatched(flags: seq<string>, p: Patch): seq<string> {
    var kept := if p.sku.Some? then Without(Distinct(flags), CLOSE_TIE_FLAG) else Distinct(flags);
    if p.override == Some(false) then Without(kept, MANUAL_OVERRIDE_FLAG)
    else if p.override == Some(true) || p.unitPriceMinor.Some? then Include(kept, MANUAL_OVERRIDE_FLAG)
    else kept
  }

  /** buildUpdate: what a PATCH writes to the line before the recompute in the same transaction. */
  function Patched(li: LineItem, p: Patch): LineItem {
    li.(matchedSku := if p.sku.Some? then p.sku else li.matchedSku,
        quantity := if p.quantity.Some? then p.quantity else li.quantity,
        unitPriceMinor := if p.unitPriceMinor.Some? then p.unitPriceMinor else li.unitPriceMinor,
        flags := FlagsPatched(li.flags, p))
  }

  lemma {:induction false} WithoutKeepsOthers(flags: seq<string>, flag: string, f: string)
    ensures f in Without(flags, flag) <==> f in flags && f != flag
  {
    if flags != [] {
      WithoutKeepsOthers(flags[1..], flag, f);
      assert flags == [flags[0]] + flags[1..];
    }
  }

  lemma OverrideFlagSurvives(flags: seq<string>, p: Patch)
    requires p.override != Some(false) && (MANUAL_OVERRIDE_FLAG in flags || p.unitPriceMinor.Some?)
    ensures MANUAL_OVERRIDE_FLAG in FlagsPatched(flags, p)
  {
    DistinctKeeps(flags);
    WithoutKeepsOthers(Distinct(flags), CLOSE_TIE_FLAG, MANUAL_OVERRIDE_FLAG);
  }

  lemma UnpriceableKeepsTheFlag(li: LineItem, rules: RuleSet, blocked: bool)
    requires !IsPriceable(li) && MANUAL_OVERRIDE_FLAG in li.flags
    ensures LineAfter(li, rules, blocked).unitPriceMinor == None &&
      MANUAL_OVERRIDE_FLAG in LineAfter(li, rules, blocked).flags
  {
    UnblockedTwice(li.flags);
  }

  /**
   A quantity set to zero and back: the first PATCH clears the manual price but keeps its flag, so the second one
   finds a stale line, and the recompute in its transaction prices it from the rules.
   */
  lemma ZeroQuantityLosesTheManualPrice(li: LineItem, quantity: real, rules: RuleSet, blocked: bool)
    requires IsPriceable(li) && IsOverridden(li) && 0.0 < quantity
    ensures var zeroed := LineAfter(Patched(li, NO_PATCH.(quantity := Some(0.0))), rules, blocked);
      var restored := Patched(zeroed, NO_PATCH.(quantity := Some(quantity)));
      IsStale(restored) && PricedFor(restored, rules) == PriceLine(ToInput(restored), Breaks(rules))
  {
    var zero := NO_PATCH.(quantity := Some(0.0));
    OverrideFlagSurvives(li.flags, zero);
    UnpriceableKeepsTheFlag(Patched(li, zero), rules, blocked);
    OverrideFlagSurvives(LineAfter(Patched(li, zero), rules, blocked).flags, NO_PATCH.(quantity := Some(quantity)));
  }

  /**
   A manual price put on a line that has no SKU yet is cleared at once; matching the line then prices it from the
   rules.
   */
  lemma PriceBeforeMatchIsLost(li: LineItem, unitPriceMinor: int, sku: Sku, rules: RuleSet, blocked: bool)
    requires li.matchedSku.None? && li.quantity.Some? && 0.0 < li.quantity.value
    ensures var priced := LineAfter(Patched(li, NO_PATCH.(unitPriceMinor := Some(unitPriceMinor))), rules, blocked);
      var matched := Patched(priced, NO_PATCH.(sku := Some(sku)));
      IsStale(matched) && PricedFor(matched, rules) == PriceLine(ToInput(matched), Breaks(rules))
  {
    var price := NO_PATCH.(unitPriceMinor := Some(unitPriceMinor));
    OverrideFlagSurvives(li.flags, price);
    UnpriceableKeepsTheFlag(Patched(li, price), rules, blocked);
    OverrideFlagSurvives(LineAfter(Patched(li, price), rules, blocked).flags, NO_PATCH.(sku := Some(sku)));
  }

  // ---------- The two writers agree ----------

  lemma {:induction false} NothingOverridden(lines: seq<LineItem>)
    requires forall li :: li in lines ==> !IsOverridden(li)
    ensures AutoInputs(lines) == AllInputs(lines) && OverrideLines(lines) == []
  {
    if lines != [] {
      assert lines[0] in lines;
      NothingOverridden(lines[1..]);
    }
  }

  lemma {:induction false} InputsInOrder(lines: seq<LineItem>, rules: RuleSet)
    requires forall i, j :: 0 <= i < j < |lines| ==> lines[i].position <= lines[j].position
    ensures Sorted(PriceLines(AllInputs(lines), Breaks(rules)), ByPosition)
  {
    if lines != [] {
      InputsInOrder(lines[1..], rules);
      var priced, rest := PriceLines(AllInputs(lines), Breaks(rules)), PriceLines(AllInputs(lines[1..]), Breaks(rules));
      if IsPriceable(lines[0]) {
        assert priced == [PriceLine(ToInput(lines[0]), Breaks(rules))] + rest;
        forall k | 0 <= k < |rest|
          ensures ByPosition(priced[0]) <= ByPosition(rest[k])
        {
          NodeMembers(lines[1..], rules, rest[k]);
          var li :| li in lines[1..] && IsPriceable(li) && rest[k] == PriceLine(ToInput(li), Breaks(rules));
          var m :| 0 <= m < |lines[1..]| && lines[1..][m] == li;
          assert lines[m + 1] == li;
        }
      } else {
        assert priced == rest;
      }
    }
  }

  lemma SomethingToPrice(lines: seq<LineItem>)
    ensures AnyPriceable(lines) ==> AllInputs(lines) != []
  {
    if AnyPriceable(lines) {
      var i :| 0 <= i < |lines| && IsPriceable(lines[i]);
      AllInputsMembers(lines, ToInput(lines[i]));
    }
  }

  /**
   With no overridden line recompute and the price node leave the same quote and the same priceable lines, except on
   a wrong currency: there recompute refuses and the node drops the quote, so they agree exactly if there was none.
   */
  lemma WritersAgreeWithoutOverrides(s: Stored, rules: RuleSet)
    requires forall i, j :: 0 <= i < j < |s.lines| ==> s.lines[i].position <= s.lines[j].position
    requires forall li :: li in s.lines ==> !IsOverridden(li)
    ensures RecomputeStep(s, rules).quote == NodeAfter(s, rules).quote <==> !Refused(s.lines) || s.quote == None
    ensures forall i :: 0 <= i < |s.lines| && IsPriceable(s.lines[i]) ==>
              RecomputeStep(s, rules).lines[i] == NodeAfter(s, rules).lines[i]
  {
    if !Refused(s.lines) {
      NothingOverridden(s.lines);
      SomethingToPrice(s.lines);
      InputsInOrder(s.lines, rules);
      var priced := PriceLines(AllInputs(s.lines), Breaks(rules));
      SortOfSorted(priced, ByPosition);
      assert priced + [] == priced;
      assert AllLines(s.lines, rules) == priced;
    }
  }

  // ---------- The price node in the pipeline ----------

  lemma {:induction false} SameNodeInputs(lines: seq<LineItem>, rules: RuleSet)
    ensures AllInputs(NodeLinesAfter(lines, rules)) == AllInputs(lines)
  {
    if lines != [] {
      SameNodeInputs(lines[1..], rules);
      assert NodeLinesAfter(lines, rules)[1..] == NodeLinesAfter(lines[1..], rules);
    }
  }

  lemma NodeTwiceIsOnce(s: Stored, rules: RuleSet)
    ensures NodeAfter(NodeAfter(s, rules), rules) == NodeAfter(s, rules)
  {
    var after := NodeLinesAfter(s.lines, rules);
    SameNodeInputs(s.lines, rules);
    forall i | 0 <= i < |s.lines|
      ensures NodeLineAfter(after[i], rules) == after[i]
      ensures (IsPriceable(after[i]) <==> IsPriceable(s.lines[i])) && after[i].matchedSku == s.lines[i].matchedSku
    {
      if IsPriceable(s.lines[i]) {
        WithPriceTwice(s.lines[i], PriceLine(ToInput(s.lines[i]), Breaks(rules)), !rules.hasAnyRules);
      }
    }
    assert NodeLinesAfter(after, rules) == after;
  }

  ghost function AsNode(rules: RuleSet): Pipeline.NodeImpl<Stored> {
    Pipeline.NodeImpl(s => Pipeline.Effect(NodeAfter(s, rules), Pipeline.Advance(Pipeline.POLICY), None),
      (s, t) => t == s)
  }

  /** Re-entering the price node after a crash leaves what one run leaves; its writes are one transaction. */
  lemma PriceIsRerunnable(rules: RuleSet)
    ensures Recovery.Rerunnable(AsNode(rules))
  {
    forall s {
      NodeTwiceIsOnce(s, rules);
    }
  }
}
