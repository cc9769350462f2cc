/**
 What a request that ends priced is known to have: when it has a quote, when a policy threshold was behind it, and
 that it was not extracted for one of the verticals.
 */
module PricedRequests {
  import opened Pipeline
  import opened QuotingPipeline
  import opened QuotingRuns
  import opened Recovery
  import opened Wrappers
  import ExtractNode
  import PolicyFlags
  import PolicyGate
  import Recompute
  import RecomputeAgain
  import Text

  // ---------- Its quote ----------

  /** The quote the price node leaves depends on the answer and on the lines' SKUs and quantities. */
  ghost predicate HasWhatToQuote(v: Services, s: Store) {
    match VerticalQuote(v, s)
    case Some(quote) => quote.Some?
    case None => Recompute.AnyPriceable(PriceLines(v, s.rows)) && Recompute.AllEuro(PriceLines(v, s.rows))
  }

  lemma PricingKeepsWhatToQuote(v: Services, s: Store)
    ensures Priced(v, s).quote.Some? <==> HasWhatToQuote(v, Priced(v, s))
  {
    if VerticalQuote(v, s).None? {
      var before, after := PriceLines(v, s.rows), PriceLines(v, Priced(v, s).rows);
      PriceViewAfter(v, s);
      SamePriceables(before, after);
    }
  }

  lemma SamePriceables(a: seq<Recompute.LineItem>, b: seq<Recompute.LineItem>)
    requires |a| == |b|
    requires forall i :: 0 <= i < |a| ==> a[i].quantity == b[i].quantity && a[i].matchedSku == b[i].matchedSku
    ensures Recompute.AnyPriceable(a) == Recompute.AnyPriceable(b)
    ensures Recompute.AllEuro(a) == Recompute.AllEuro(b)
  {
    assert forall i :: 0 <= i < |a| ==> Recompute.IsPriceable(a[i]) == Recompute.IsPriceable(b[i]);
    if i :| 0 <= i < |a| && Recompute.IsPriceable(a[i]) {
      assert Recompute.IsPriceable(b[i]);
    }
  }

  lemma LaterNodesKeepTheQuote(v: Services, s: Store)
    ensures var after := Score(v, Policy(v, s).store).store;
      after.quote == s.quote && (HasWhatToQuote(v, after) <==> HasWhatToQuote(v, s))
  {
    var after := Score(v, Policy(v, s).store).store;
    SamePriceables(PriceLines(v, s.rows), PriceLines(v, after.rows));
  }

  lemma PricedAtPrice(v: Services, s: Store, fuel: nat, f: Final<Store>)
    requires Reaches(QuotingGraph(v), s, PRICE, fuel, f) && f.status == PRICED
    ensures f.store == Score(v, Policy(v, Priced(v, s)).store).store
  {
    assert QuotingGraph(v).nodes[PRICE].run(s) == Price(v, s);
    PricedAtPolicy(v, Priced(v, s), fuel - 1, f);
  }

  /**
   A priced request has a quote if and only if it has something to quote: its routing does not look at the quote, so
   one whose lines all lack a SKU or a positive quantity can end priced without one. (So could one in another
   currency, which the check on the SKU table excludes.)
   */
  lemma PricedHasAQuoteIff(v: Services, row: Row<Store>, run: seq<Machine<Store>>)
    requires Ahead(row.currentNode) >= Ahead(PRICE)
    requires IsSchedule(QuotingGraph(v), row, run) && run[|run| - 1].pc.Finished?
    requires run[|run| - 1].row.status == PRICED
    ensures var s := run[|run| - 1].row.store; s.quote.Some? <==> HasWhatToQuote(v, s)
  {
    var f := EndOf(v, row, run);
    var at, left := PassesThrough(v, row.store, row.currentNode, MAX_NODE_TRANSITIONS, f, PRICE);
    PricedAtPrice(v, at, left, f);
    PricingKeepsWhatToQuote(v, at);
    LaterNodesKeepTheQuote(v, Priced(v, at));
  }

  // ---------- The last nodes, one after the other ----------

  lemma ReachesThrough(v: Services, s: Store, n: Node, fuel: nat, e: Effect<Store>, f: Final<Store>)
    requires n != DONE && n != FAILED && e == NodeOf(v, n).run(s) && e.outcome.Advance?
    requires Reaches(QuotingGraph(v), e.store, e.outcome.next, fuel, f)
    ensures Reaches(QuotingGraph(v), s, n, fuel + 1, f)
  {
  }

  lemma ReachesTheEnd(v: Services, s: Store, fuel: nat, f: Final<Store>)
    requires s.found && f == Final(Score(v, s).store, DONE, TerminalStatus(QuotingGraph(v), Score(v, s).store, DONE))
    ensures Reaches(QuotingGraph(v), s, SCORE, fuel + 1, f)
  {
    assert Reaches(QuotingGraph(v), f.store, DONE, fuel, f);
    ReachesThrough(v, s, SCORE, fuel, Score(v, s), f);
  }

  lemma ReachedFromPolicyOn(v: Services, s: Store, fuel: nat, f: Final<Store>)
    requires s.found && f.store == Score(v, Policy(v, s).store).store
    requires f.node == DONE && f.status == TerminalStatus(QuotingGraph(v), f.store, DONE)
    ensures Reaches(QuotingGraph(v), s, POLICY, fuel + 2, f)
  {
    hide Reach, Score, TerminalStatus;
    var passed := Policy(v, s);
    ReachesTheEnd(v, passed.store, fuel, f);
    ReachesThrough(v, s, POLICY, fuel + 1, passed, f);
  }

  /** The last three nodes, one after the other. */
  lemma ReachedFromPrice(v: Services, s: Store, f: Final<Store>)
    requires s.found && f.store == Score(v, Policy(v, Priced(v, s)).store).store
    requires f.node == DONE && f.status == TerminalStatus(QuotingGraph(v), f.store, DONE)
    ensures Reaches(QuotingGraph(v), s, PRICE, MAX_NODE_TRANSITIONS, f)
  {
    hide Reach, Score, Policy, TerminalStatus;
    var priced := Price(v, s);
    ReachedFromPolicyOn(v, priced.store, MAX_NODE_TRANSITIONS - 3, f);
    ReachesThrough(v, s, PRICE, MAX_NODE_TRANSITIONS - 1, priced, f);
  }

  lemma FromPrice(v: Services, s: Store, status: Status, f: Final<Store>)
    requires s.found && f.store == Score(v, Policy(v, Priced(v, s)).store).store
    requires f.node == DONE && f.status == TerminalStatus(QuotingGraph(v), f.store, DONE)
    ensures RunResult(QuotingGraph(v), false, Row(PRICE, status, s)) == Row(DONE, SetStatus(status, f.status), f.store)
  {
    hide Reach, Score, Policy, Priced;
    ReachedFromPrice(v, s, f);
    QuotingIsRecoverable(v);
    WalkReaches(QuotingGraph(v), false, s, PRICE, 0, f);
  }

  // ---------- Priced without a quote ----------

  lemma UngatedStays(v: Services, s: Store, r: LineRow)
    requires s.rows == [r] && r.unitPriceMinor.None? && r.flags == []
    ensures Policy(v, s).store == s
  {
    assert GateInputs(v, s.rows[1..]) == [];
    var e := Findings(v, s.rows);
    assert e == PolicyGate.Evaluation(false, false, [], []);
    assert PolicyFlags.Findings(PolicyFlags.Blocked(e), e.breaches, r.id) == [];
    assert Flagged(e, r) == r;
    assert FlaggedAll(e, s.rows) == s.rows;
  }

  /** A line matched for certain to a euro SKU, with nothing to deliver, no price and no flag. */
  ghost predicate IsZeroLine(v: Services, r: LineRow) {
    && SkuOf(v, r).Some? && Text.IsEuroCurrency(SkuOf(v, r).value.sku.currency) && r.quantity == Some(0.0)
    && r.confidence == Some(1.0) && r.unitPriceMinor.None? && r.leadTimeDays.None? && r.flags == []
  }

  /** How a line comes to be so: the PATCH that sets its quantity to zero, with the recompute in its transaction. */
  lemma PatchedToZero(v: Services, r: LineRow, quote: Option<Recompute.Quote>, zero: LineRow)
    requires zero == r.(quantity := Some(0.0)) && IsZeroLine(v, zero)
    ensures var patched := RecomputeAgain.Patched(PriceView(v, r), RecomputeAgain.NO_PATCH.(quantity := Some(0.0)));
      Recompute.RecomputeStep(Recompute.Stored([patched], quote), v.pricing) ==
      Recompute.Stored([PriceView(v, zero)], None)
  {
    var patched := RecomputeAgain.Patched(PriceView(v, r), RecomputeAgain.NO_PATCH.(quantity := Some(0.0)));
    assert patched == PriceView(v, zero);
    assert !Recompute.AnyPriceable([patched]);
    assert Recompute.LinesAfter([patched], v.pricing) == [patched];
  }

  lemma ZeroLineIsNotPriced(v: Services, s: Store, r: LineRow) returns (priced: Store)
    requires VerticalQuote(v, s).None? && s.rows == [r] && IsZeroLine(v, r)
    ensures priced == Price(v, s).store == s.(quote := None)
  {
    assert !Recompute.AnyPriceable(PriceLines(v, s.rows));
    priced := Price(v, s).store;
    assert priced.rows == s.rows;
  }

  /**
   That it can: a request standing at PRICE with one such line, and no cap on automatic sending, ends priced without a
   quote. The policy rules have no part in it.
   */
  lemma ZeroQuantityEndsPriced(v: Services, s: Store, r: LineRow, status: Status)
    requires s.found && HasValidExtraction(s) && VerticalQuote(v, s).None? && s.rows == [r] && IsZeroLine(v, r)
    requires v.scoring.sendCapMinor.None? && v.scoring.autoThreshold <= 1.0 && !IsTerminal(status)
    ensures var after := RunResult(QuotingGraph(v), false, Row(PRICE, status, s));
      after.status == PRICED && after.store.quote.None?
  {
    var priced := ZeroLineIsNotPriced(v, s, r);
    UngatedStays(v, priced, r);
    assert Routed(v.scoring, priced).0 == AUTO_ELIGIBLE;
    var done := Score(v, priced).store;
    FromPrice(v, s, status, Final(done, DONE, TerminalStatus(QuotingGraph(v), done, DONE)));
  }

  // ---------- Priced without a policy threshold ----------

  ghost predicate AnyGated(v: Services, rows: seq<LineRow>) {
    exists r :: r in rows && IsGated(v, r)
  }

  ghost predicate HasThreshold(rules: seq<PolicyGate.Rule>) {
    exists rule :: rule in rules && !rule.Unrelated?
  }

  /** A request that passed the policy node and ended priced had a threshold to pass, if any line has SKU and price. */
  lemma PricedHasAThresholdIfGated(
      v: Services, rules: seq<PolicyGate.Rule>, row: Row<Store>, run: seq<Machine<Store>>)
    requires PolicyGate.Collapses(rules, v.policy) && Ahead(row.currentNode) >= Ahead(POLICY)
    requires IsSchedule(QuotingGraph(v), row, run) && run[|run| - 1].pc.Finished?
    requires run[|run| - 1].row.status == PRICED
    ensures AnyGated(v, run[|run| - 1].row.store.rows) ==> HasThreshold(rules)
  {
    PricedIsReleased(v, rules, row, run);
    var s := run[|run| - 1].row.store;
    if AnyGated(v, s.rows) {
      var r :| r in s.rows && IsGated(v, r);
      assert Complies(v, rules, r);
    }
  }

  /** The lines without the flags the policy node owns. */
  function Stripped(rows: seq<LineRow>): seq<LineRow> {
    FlaggedAll(PolicyGate.Evaluation(false, false, [], []), rows)
  }

  lemma {:induction false} NothingGated(v: Services, rows: seq<LineRow>)
    ensures GateInputs(v, rows) == [] <==> !AnyGated(v, rows)
  {
    if rows != [] {
      NothingGated(v, rows[1..]);
      assert rows == [rows[0]] + rows[1..];
    }
  }

  /** Without a threshold the policy node blocks every gated line, and with no gated line it only strips its flags. */
  lemma PolicyWithoutThreshold(v: Services, rules: seq<PolicyGate.Rule>, s: Store)
    requires PolicyGate.Collapses(rules, v.policy) && !HasThreshold(rules)
    ensures !AnyGated(v, s.rows) ==> Policy(v, s).store == s.(rows := Stripped(s.rows))
    ensures AnyGated(v, s.rows) ==> AnyHard(Policy(v, s).store.rows)
  {
    NothingGated(v, s.rows);
    if AnyGated(v, s.rows) && !AnyHard(Policy(v, s).store.rows) {
      var r :| r in s.rows && IsGated(v, r);
      var i :| 0 <= i < |s.rows| && s.rows[i] == r;
      UnflaggedRowComplies(v, rules, s.rows, i);
      assert IsGated(v, Policy(v, s).store.rows[i]);
      assert false;
    }
  }

  lemma ReachedFromPolicy(v: Services, s: Store) returns (f: Final<Store>)
    ensures Reaches(QuotingGraph(v), s, POLICY, MAX_NODE_TRANSITIONS, f)
    ensures f.status == PRICED <==> s.found && Routed(v.scoring, Policy(v, s).store).0 == AUTO_ELIGIBLE
  {
    EveryRunEnds(v, s, POLICY, MAX_NODE_TRANSITIONS);
    f := Reach(QuotingGraph(v), s, POLICY, MAX_NODE_TRANSITIONS).value;
    if f.status == PRICED {
      PricedAtPolicy(v, s, MAX_NODE_TRANSITIONS, f);
      FoundAtPolicy(v, s, MAX_NODE_TRANSITIONS, f);
    }
    if s.found && Routed(v.scoring, Policy(v, s).store).0 == AUTO_ELIGIBLE {
      EligibleAtPolicy(v, s, f);
    }
  }

  lemma FoundAtPolicy(v: Services, s: Store, fuel: nat, f: Final<Store>)
    requires Reaches(QuotingGraph(v), s, POLICY, fuel, f) && f.status == PRICED
    ensures s.found
  {
    hide Reach;
    PricedGoesOn(v, s, POLICY, fuel, f);
    assert NodeOf(v, POLICY).run(s) == Policy(v, s);
    PricedAtScore(v, Policy(v, s).store, fuel - 1, f);
  }

  lemma EligibleAtPolicy(v: Services, s: Store, f: Final<Store>)
    requires s.found && Routed(v.scoring, Policy(v, s).store).0 == AUTO_ELIGIBLE
    requires Reaches(QuotingGraph(v), s, POLICY, MAX_NODE_TRANSITIONS, f)
    ensures f.status == PRICED
  {
    hide Reach;
    var passed := Policy(v, s);
    var done := Score(v, passed.store).store;
    var end := Final(done, DONE, TerminalStatus(QuotingGraph(v), done, DONE));
    ReachesTheEnd(v, passed.store, MAX_NODE_TRANSITIONS - 2, end);
    ReachesThrough(v, s, POLICY, MAX_NODE_TRANSITIONS - 1, passed, end);
  }

  lemma PricedFromPolicyIff(v: Services, s: Store, status: Status)
    requires !IsTerminal(status)
    ensures RunResult(QuotingGraph(v), false, Row(POLICY, status, s)).status == PRICED <==>
      s.found && Routed(v.scoring, Policy(v, s).store).0 == AUTO_ELIGIBLE
  {
    hide Reach, Routed, Policy;
    var f := ReachedFromPolicy(v, s);
    QuotingIsRecoverable(v);
    WalkReaches(QuotingGraph(v), false, s, POLICY, 0, f);
  }

  /**
   The gate's fail-closed branch only sees lines with SKU and price: with no threshold at all, a request standing at
   POLICY still ends priced if and only if it has no such line and its lines, stripped of old policy flags, are
   eligible.
   */
  lemma PricedWithoutThresholdIff(v: Services, rules: seq<PolicyGate.Rule>, s: Store, status: Status)
    requires PolicyGate.Collapses(rules, v.policy) && !HasThreshold(rules) && !IsTerminal(status)
    ensures RunResult(QuotingGraph(v), false, Row(POLICY, status, s)).status == PRICED <==>
      && s.found && !AnyGated(v, s.rows)
      && Routed(v.scoring, s.(rows := Stripped(s.rows))).0 == AUTO_ELIGIBLE
  {
    PricedFromPolicyIff(v, s, status);
    PolicyWithoutThreshold(v, rules, s);
  }

  /** The zero-quantity line is such an input. */
  lemma ZeroQuantityNeedsNoThreshold(v: Services, s: Store, r: LineRow, status: Status)
    requires PolicyGate.Collapses([], v.policy)
    requires s.found && HasValidExtraction(s) && s.rows == [r] && IsZeroLine(v, r)
    requires v.scoring.sendCapMinor.None? && v.scoring.autoThreshold <= 1.0 && !IsTerminal(status)
    ensures !HasThreshold([]) && RunResult(QuotingGraph(v), false, Row(POLICY, status, s)).status == PRICED
  {
    UngatedStays(v, s, r);
    PricedFromPolicyIff(v, s, status);
  }

  // ---------- A request without lines, and a vertical one ----------

  lemma OneNodeKeeps(v: Services, s: Store, n: Node)
    requires 1 <= Ahead(n) <= Ahead(CLASSIFY)
    ensures var after := NodeOf(v, n).run(s).store; after.extraction == s.extraction && |after.rows| == |s.rows|
  {
  }

  /** From CLASSIFY on the answer and the number of lines stay, and both must be there at the end. */
  lemma {:induction false} LaterNodesKeep(v: Services, s: Store, n: Node, fuel: nat, f: Final<Store>)
    requires Reaches(QuotingGraph(v), s, n, fuel, f) && f.status == PRICED && 1 <= Ahead(n) <= Ahead(CLASSIFY)
    ensures f.store.extraction == s.extraction && |f.store.rows| == |s.rows|
    ensures HasValidExtraction(s) && s.rows != []
    decreases fuel
  {
    if n == SCORE {
      PricedAtScore(v, s, fuel, f);
    } else {
      PricedGoesOn(v, s, n, fuel, f);
      OneNodeKeeps(v, s, n);
      var e := NodeOf(v, n).run(s);
      LaterNodesKeep(v, e.store, e.outcome.next, fuel - 1, f);
    }
  }

  /** A request that has no lines when it stands at CLASSIFY or later, short of DONE, never ends priced. */
  lemma NoLinesNeverPriced(v: Services, row: Row<Store>, run: seq<Machine<Store>>)
    requires row.store.rows == [] && 1 <= Ahead(row.currentNode) <= Ahead(CLASSIFY)
    requires IsSchedule(QuotingGraph(v), row, run) && run[|run| - 1].pc.Finished?
    ensures run[|run| - 1].row.status != PRICED
  {
    if run[|run| - 1].row.status == PRICED {
      var f := EndOf(v, row, run);
      LaterNodesKeep(v, row.store, row.currentNode, MAX_NODE_TRANSITIONS, f);
    }
  }

  /** The stored answer is a validated one that is not for a vertical. */
  predicate IsLegacyAnswer(s: Store) {
    && HasValidExtraction(s) && s.extraction.value.rawJson.Validated?
    && s.extraction.value.rawJson.extracted.vertical.None?
  }

  lemma ExtractedAnswer(v: Services, s: Store)
    requires !HasValidExtraction(s) && HasValidExtraction(Extract(v, s).store) && Extract(v, s).store.rows != []
    ensures IsLegacyAnswer(Extract(v, s).store)
  {
    hide ExtractNode.Extract;
    ExtractNode.NewAnswerBringsItsLines(v.extractor, v.trim, ExtractView(v, s));
    NoItemsNoRows(v);
  }

  lemma NoItemsNoRows(v: Services)
    ensures NewRows(v, []) == []
  {
  }

  lemma PricedFromExtract(v: Services, s: Store, fuel: nat, f: Final<Store>)
    requires Reaches(QuotingGraph(v), s, EXTRACT, fuel, f) && f.status == PRICED && !HasValidExtraction(s)
    ensures IsLegacyAnswer(f.store)
  {
    hide Extract, Reach;
    var e := Extract(v, s);
    PricedGoesOn(v, s, EXTRACT, fuel, f);
    assert NodeOf(v, EXTRACT).run(s) == e;
    LaterNodesKeep(v, e.store, CLASSIFY, fuel - 1, f);
    ExtractedAnswer(v, s);
  }

  lemma PricedFromParse(v: Services, s: Store, fuel: nat, f: Final<Store>)
    requires Reaches(QuotingGraph(v), s, PARSE, fuel, f) && f.status == PRICED && !HasValidExtraction(s)
    ensures IsLegacyAnswer(f.store)
  {
    hide Reach, IsLegacyAnswer;
    var parsed := Parse(v, s);
    PricedGoesOn(v, s, PARSE, fuel, f);
    assert NodeOf(v, PARSE).run(s) == parsed;
    PricedFromExtract(v, parsed.store, fuel - 1, f);
  }

  /**
   A vertical request always goes to review: a request that had no valid extraction when its run came to PARSE or
   EXTRACT and that ends priced, through whatever crashes, was extracted as a list of lines.
   */
  lemma PricedIsNotVertical(v: Services, row: Row<Store>, run: seq<Machine<Store>>)
    requires Ahead(row.currentNode) >= Ahead(EXTRACT) && !HasValidExtraction(row.store)
    requires IsSchedule(QuotingGraph(v), row, run) && run[|run| - 1].pc.Finished?
    requires run[|run| - 1].row.status == PRICED
    ensures IsLegacyAnswer(run[|run| - 1].row.store)
  {
    hide Reach, IsLegacyAnswer;
    var f := EndOf(v, row, run);
    if row.currentNode == PARSE {
      PricedFromParse(v, row.store, MAX_NODE_TRANSITIONS, f);
    } else {
      PricedFromExtract(v, row.store, MAX_NODE_TRANSITIONS, f);
    }
  }

  /** An answer for no vertical is priced from the lines, and the SKU table holds euros only. */
  ghost predicate PricesAsStored(v: Services) {
    && (forall e: ExtractNode.Extracted :: e.vertical.None? ==> v.vertical(ExtractNode.Validated(e)).None?)
    && (forall id :: id in v.catalog ==> Text.IsEuroCurrency(v.catalog[id].sku.currency))
  }

  /** So on what the tables hold, a freshly extracted request that ends priced has a quote iff a line is priceable. */
  lemma FreshlyPricedHasAQuoteIff(v: Services, row: Row<Store>, run: seq<Machine<Store>>)
    requires PricesAsStored(v) && Ahead(row.currentNode) >= Ahead(EXTRACT) && !HasValidExtraction(row.store)
    requires IsSchedule(QuotingGraph(v), row, run) && run[|run| - 1].pc.Finished?
    requires run[|run| - 1].row.status == PRICED
    ensures var s := run[|run| - 1].row.store;
      s.quote.Some? <==> Recompute.AnyPriceable(PriceLines(v, s.rows))
  {
    var s := run[|run| - 1].row.store;
    PricedIsNotVertical(v, row, run);
    PricedHasAQuoteIff(v, row, run);
    assert VerticalQuote(v, s).None?;
    assert Recompute.AllEuro(PriceLines(v, s.rows));
  }

  // ---------- Success reported for a failed run ----------

  lemma NoNodeAdvancesToFailed(v: Services, n: Node, s: Store)
    requires n != DONE && n != FAILED
    ensures NodeOf(v, n).run(s).outcome != Advance(FAILED)
  {
  }

  /**
   Of the seven nodes none advances to FAILED, so a run reports success and is finalised as failed if and only if the
   request stood at FAILED when its job was delivered again.
   */
  lemma SuccessForAFailedRequestIffRedelivered(v: Services, skip: bool, row: Row<Store>)
    ensures EndsWith(QuotingGraph(v), skip, row, true, FAILURE) <==> row.currentNode == FAILED
  {
    var g := QuotingGraph(v);
    SuccessReportedForAFailedRunIff(g, skip, row);
    var last := LastVisit(g, skip, row.store, row.currentNode, 0);
    if last.Some? {
      NoNodeAdvancesToFailed(v, last.value.node, last.value.store);
      assert !AdvancesToFailed(g, skip, last.value);
    }
  }
}
