/**
 Whole runs of the quoting pipeline: every run ends within its transition bound, crashes never change where, and a
 request that ends priced has passed the policy gate line by line.
 */
module QuotingRuns {
  import opened Pipeline
  import opened Recovery
  import opened QuotingPipeline
  import opened Wrappers
  import PolicyFlags
  import PolicyGate
  import Recompute
  import Text

  /** The nodes a request still has before it: each advance takes one away. */
  function Ahead(n: Node): nat {
    match n
    case PARSE => 7
    case EXTRACT => 6
    case CLASSIFY => 5
    case MATCH => 4
    case PRICE => 3
    case POLICY => 2
    case SCORE => 1
    case DONE => 0
    case FAILED => 0
  }

  lemma AdvancesByOne(v: Services, n: Node, s: Store)
    requires n != DONE && n != FAILED
    ensures var e := NodeOf(v, n).run(s); e.outcome.Advance? ==> Ahead(e.outcome.next) == Ahead(n) - 1
  {
  }

  /** Wherever a request stands, its run ends before the transitions do. */
  lemma {:induction false} EveryRunEnds(v: Services, s: Store, n: Node, fuel: nat)
    requires fuel >= Ahead(n)
    ensures Reach(QuotingGraph(v), s, n, fuel).Some?
    decreases fuel
  {
    if n != DONE && n != FAILED {
      AdvancesByOne(v, n, s);
      var e := NodeOf(v, n).run(s);
      if e.outcome.Advance? {
        EveryRunEnds(v, e.store, e.outcome.next, fuel - 1);
      }
    }
  }

  /**
   However often its worker dies or the job is delivered again, a request that finishes is left as one
   uninterrupted run leaves it.
   */
  lemma QuotingSurvivesCrashes(v: Services, row: Row<Store>, run: seq<Machine<Store>>, skip: bool)
    requires skip ==> HasValidExtraction(row.store)
    requires IsSchedule(QuotingGraph(v), row, run) && run[|run| - 1].pc.Finished?
    ensures run[|run| - 1].row == RunResult(QuotingGraph(v), skip, row)
  {
    QuotingIsRecoverable(v);
    EveryRunEnds(v, row.store, row.currentNode, MAX_NODE_TRANSITIONS);
    RecoveryIsTransparent(QuotingGraph(v), row, run, skip);
  }

  /** And it does finish, once it is left alone for 103 steps. */
  lemma QuotingFinishes(v: Services, row: Row<Store>, run: seq<Machine<Store>>, rest: seq<Machine<Store>>)
    requires IsSchedule(QuotingGraph(v), row, run)
    requires IsCrashFree(QuotingGraph(v), [run[|run| - 1]] + rest) && |rest| >= LONGEST_FINISH
    ensures (run + rest)[|run + rest| - 1].pc.Finished?
    ensures (run + rest)[|run + rest| - 1].row == RunResult(QuotingGraph(v), false, row)
  {
    QuotingIsRecoverable(v);
    EveryRunEnds(v, row.store, row.currentNode, MAX_NODE_TRANSITIONS);
    RecoveryFinishes(QuotingGraph(v), row, run, rest);
  }

  // ---------- A priced request came through price, policy and score ----------

  lemma PricedGoesOn(v: Services, s: Store, n: Node, fuel: nat, f: Final<Store>)
    requires n != DONE && n != FAILED && Reaches(QuotingGraph(v), s, n, fuel, f) && f.status == PRICED
    ensures var e := NodeOf(v, n).run(s);
      && e.outcome.Advance? && Ahead(e.outcome.next) == Ahead(n) - 1
      && fuel > 0 && Reaches(QuotingGraph(v), e.store, e.outcome.next, fuel - 1, f)
  {
    AdvancesByOne(v, n, s);
  }

  /** The store a run that ends priced had when it stood at `goal`. */
  lemma {:induction false} PassesThrough(v: Services, s: Store, n: Node, fuel: nat, f: Final<Store>, goal: Node)
    returns (at: Store, left: nat)
    requires Reaches(QuotingGraph(v), s, n, fuel, f) && f.status == PRICED
    requires Ahead(n) >= Ahead(goal) > 0
    ensures left <= fuel && Reaches(QuotingGraph(v), at, goal, left, f)
    decreases fuel
  {
    if Ahead(n) == Ahead(goal) {
      assert n == goal;
      at, left := s, fuel;
    } else {
      PricedGoesOn(v, s, n, fuel, f);
      var e := NodeOf(v, n).run(s);
      at, left := PassesThrough(v, e.store, e.outcome.next, fuel - 1, f, goal);
    }
  }

  lemma PricedAtScore(v: Services, s: Store, fuel: nat, f: Final<Store>)
    requires Reaches(QuotingGraph(v), s, SCORE, fuel, f) && f.status == PRICED
    ensures s.found && f.store == Score(v, s).store && Routed(v.scoring, s).0 == AUTO_ELIGIBLE
  {
    var g := QuotingGraph(v);
    assert g.nodes[SCORE].run(s) == Score(v, s);
    assert s.found;
    assert Reach(g, Score(v, s).store, DONE, fuel - 1) == Some(f);
  }

  lemma PricedAtPolicy(v: Services, s: Store, fuel: nat, f: Final<Store>)
    requires Reaches(QuotingGraph(v), s, POLICY, fuel, f) && f.status == PRICED
    ensures var after := Policy(v, s).store;
      f.store == Score(v, after).store && Routed(v.scoring, after).0 == AUTO_ELIGIBLE
  {
    assert QuotingGraph(v).nodes[POLICY].run(s) == Policy(v, s);
    PricedAtScore(v, Policy(v, s).store, fuel - 1, f);
  }

  // ---------- Compliance ----------

  lemma {:induction false} GateInputsMembers(v: Services, rows: seq<LineRow>, l: PolicyGate.LineInput)
    ensures l in GateInputs(v, rows) <==> exists r :: r in rows && IsGated(v, r) && l == GateInput(v, r)
  {
    if rows != [] {
      GateInputsMembers(v, rows[1..], l);
      assert rows == [rows[0]] + rows[1..];
    }
  }

  /** A line the gate flags ends the policy node with a hard flag. */
  lemma FlaggedIsHard(v: Services, rows: seq<LineRow>, r: LineRow)
    requires GateInputs(v, rows) != [] && r.id in Findings(v, rows).flagged
    ensures exists f :: f in Flagged(Findings(v, rows), r).flags && IsHard(f)
  {
    var e := Findings(v, rows);
    var flag := PolicyFlags.POLICY_BLOCKED_FLAG;
    if !e.failClosed {
      PolicyGate.FlaggedIffReported(e.breaches, r.id);
      var kind :| PolicyGate.Reported(e.breaches, r.id, kind);
      flag := PolicyFlags.FlagOf(kind);
    }
    assert PolicyFlags.Earned(e, r.id, flag);
    PolicyFlags.ReconciledFlagsAreExact(PolicyFlags.Line(r.id, r.flags), e, flag);
    assert flag in Flagged(e, r).flags && IsHard(flag);
  }

  /** Every line with a SKU and a price is within every active threshold, and there is a threshold. */
  ghost predicate Complies(v: Services, rules: seq<PolicyGate.Rule>, r: LineRow)
    requires IsGated(v, r)
  {
    && (exists rule :: rule in rules && !rule.Unrelated?)
    && (forall rule :: rule in rules ==> !PolicyGate.Forbids(rule, GateInput(v, r)))
  }

  lemma UnflaggedComplies(v: Services, rules: seq<PolicyGate.Rule>, rows: seq<LineRow>, r: LineRow)
    requires PolicyGate.Collapses(rules, v.policy) && r in rows && IsGated(v, r)
    requires forall f :: f in Flagged(Findings(v, rows), r).flags ==> !IsHard(f)
    ensures Complies(v, rules, r)
  {
    var l := GateInput(v, r);
    GateInputsMembers(v, rows, l);
    if r.id in Findings(v, rows).flagged {
      FlaggedIsHard(v, rows, r);
    }
    PolicyGate.GateFlagsExactlyForbiddenLines(rules, v.policy, GateInputs(v, rows), r.id);
    forall rule | rule in rules
      ensures !PolicyGate.Forbids(rule, l)
    {
      if PolicyGate.Forbids(rule, l) {
        var kind := if rule.MaxDiscount? then PolicyGate.DiscountBreach else PolicyGate.FloorBreach;
        assert PolicyGate.ForbiddenLine(rules, GateInputs(v, rows), r.id, kind);
      }
    }
  }

  /** What a request that ended priced is known to satisfy. */
  ghost predicate Released(v: Services, rules: seq<PolicyGate.Rule>, s: Store) {
    && HasValidExtraction(s) && s.rows != []
    && (forall r, f :: r in s.rows && f in r.flags ==> !IsHard(f))
    && (forall r :: r in s.rows && IsGated(v, r) ==> Complies(v, rules, r))
  }

  lemma UnflaggedRowComplies(v: Services, rules: seq<PolicyGate.Rule>, rows: seq<LineRow>, i: nat)
    requires PolicyGate.Collapses(rules, v.policy) && i < |rows| && !AnyHard(FlaggedAll(Findings(v, rows), rows))
    ensures var r := FlaggedAll(Findings(v, rows), rows)[i];
      && (forall f :: f in r.flags ==> !IsHard(f))
      && (IsGated(v, r) ==> Complies(v, rules, r))
  {
    var e := Findings(v, rows);
    var r := FlaggedAll(e, rows)[i];
    assert r == Flagged(e, rows[i]);
    if IsGated(v, r) {
      assert IsGated(v, rows[i]) && GateInput(v, r) == GateInput(v, rows[i]);
      UnflaggedComplies(v, rules, rows, rows[i]);
    }
  }

  lemma GateReleases(v: Services, rules: seq<PolicyGate.Rule>, s: Store)
    requires PolicyGate.Collapses(rules, v.policy)
    requires Routed(v.scoring, Policy(v, s).store).0 == AUTO_ELIGIBLE
    ensures Released(v, rules, Score(v, Policy(v, s).store).store)
  {
    var after := FlaggedAll(Findings(v, s.rows), s.rows);
    forall r | r in after
      ensures forall f :: f in r.flags ==> !IsHard(f)
      ensures IsGated(v, r) ==> Complies(v, rules, r)
    {
      var i :| 0 <= i < |after| && after[i] == r;
      UnflaggedRowComplies(v, rules, s.rows, i);
    }
  }

  /**
   No request slips past the policy gate: whatever crashes and repeated deliveries a run goes through, if it took the
   request through the policy node and left it priced, the extraction is valid, no line carries a flag of the
   price or policy node, and each priced line respects every active rule, of which there is at least one.
   */
  lemma PricedIsReleased(
      v: Services, rules: seq<PolicyGate.Rule>, row: Row<Store>, run: seq<Machine<Store>>)
    requires PolicyGate.Collapses(rules, v.policy) && Ahead(row.currentNode) >= Ahead(POLICY)
    requires IsSchedule(QuotingGraph(v), row, run) && run[|run| - 1].pc.Finished?
    requires run[|run| - 1].row.status == PRICED
    ensures Released(v, rules, run[|run| - 1].row.store)
  {
    hide Reach, Score, Policy, Released;
    var f := EndOf(v, row, run);
    var at, left := PassesThrough(v, row.store, row.currentNode, MAX_NODE_TRANSITIONS, f, POLICY);
    PricedAtPolicy(v, at, left, f);
    GateReleases(v, rules, at);
  }

  /** A unit price within what a rule allows for a SKU, by the figures of the two. */
  ghost predicate WithinPrices(rule: PolicyGate.Rule, sku: CatalogSku, unit: int) {
    match rule
    case MarginFloor(floor) =>
      sku.costMinor.Some? ==>
        if unit > 0 then unit as real * (100.0 - floor) >= 100.0 * sku.costMinor.value as real
        else sku.costMinor.value <= 0
    case MaxDiscount(cap) =>
      sku.sku.basePriceMinor > 0 ==>
        100.0 * (sku.sku.basePriceMinor - unit) as real <= cap * sku.sku.basePriceMinor as real
    case Unrelated => true
  }

  /**
   In prices: every line of such a request that has a price and whose SKU the catalog holds is sold within the margin
   and the discount every active rule allows.
   */
  lemma PricedIsWithinPrices(
      v: Services, rules: seq<PolicyGate.Rule>, row: Row<Store>, run: seq<Machine<Store>>, r: LineRow)
    requires PolicyGate.Collapses(rules, v.policy) && Ahead(row.currentNode) >= Ahead(POLICY)
    requires IsSchedule(QuotingGraph(v), row, run) && run[|run| - 1].pc.Finished?
    requires run[|run| - 1].row.status == PRICED
    requires r in run[|run| - 1].row.store.rows && r.unitPriceMinor.Some?
    requires r.matchedSku.Some? && r.matchedSku.value in v.catalog
    ensures forall rule :: rule in rules ==> WithinPrices(rule, v.catalog[r.matchedSku.value], r.unitPriceMinor.value)
  {
    PricedIsReleased(v, rules, row, run);
    assert IsGated(v, r) && Complies(v, rules, r);
    forall rule | rule in rules
      ensures WithinPrices(rule, v.catalog[r.matchedSku.value], r.unitPriceMinor.value)
    {
      AllowedInPrices(v, rule, r);
    }
  }

  lemma AllowedInPrices(v: Services, rule: PolicyGate.Rule, r: LineRow)
    requires IsGated(v, r) && !PolicyGate.Forbids(rule, GateInput(v, r))
    ensures WithinPrices(rule, v.catalog[r.matchedSku.value], r.unitPriceMinor.value)
  {
    match rule
    case MarginFloor(floor) => PolicyGate.ForbidsInPrices(GateInput(v, r), floor);
    case MaxDiscount(cap) => PolicyGate.ForbidsInPrices(GateInput(v, r), cap);
    case Unrelated =>
  }

  lemma EndOf(v: Services, row: Row<Store>, run: seq<Machine<Store>>) returns (f: Final<Store>)
    requires IsSchedule(QuotingGraph(v), row, run) && run[|run| - 1].pc.Finished?
    requires run[|run| - 1].row.status == PRICED
    ensures Reaches(QuotingGraph(v), row.store, row.currentNode, MAX_NODE_TRANSITIONS, f)
    ensures f.status == PRICED && run[|run| - 1].row.store == f.store
  {
    var g := QuotingGraph(v);
    QuotingIsRecoverable(v);
    EveryRunEnds(v, row.store, row.currentNode, MAX_NODE_TRANSITIONS);
    f := Reach(g, row.store, row.currentNode, MAX_NODE_TRANSITIONS).value;
    QuotingSurvivesCrashes(v, row, run, false);
    WalkReaches(g, false, row.store, row.currentNode, 0, f);
  }

  // ---------- Who is eligible ----------

  lemma {:induction false} LowestIsBelow(c: Scoring, rows: seq<LineRow>, x: real)
    requires rows != []
    ensures x <= LowestConfidence(c, rows) <==> forall r :: r in rows ==> x <= Confidence(c, r)
  {
    assert rows == [rows[0]] + rows[1..];
    if |rows| > 1 {
      LowestIsBelow(c, rows[1..], x);
    }
  }

  /**
   The minimum of the three factors decides as three separate tests would: a request is sent on without review if
   and only if its answer is valid, it has lines, each line is matched well enough, no gate holds it back, and
   the penalties for soft flags and for a large or incomplete deal, where due, still reach the threshold.
   */
  lemma AutoEligibleIff(c: Scoring, s: Store)
    requires 0.0 <= c.autoThreshold <= 1.0
    ensures Routed(c, s).0 == AUTO_ELIGIBLE <==>
      && HasValidExtraction(s) && s.rows != [] && !AnyHard(s.rows)
      && (c.autoThreshold > 0.0 ==> forall r :: r in s.rows ==> c.autoThreshold <= Confidence(c, r))
      && (AnyFlag(s.rows) ==> c.autoThreshold <= c.policyFlagPenalty)
      && (c.sendCapMinor.Some? && (IsIncomplete(s.rows) || DealValue(s.rows) > c.sendCapMinor.value as real) ==>
            c.autoThreshold <= c.dealValuePenalty)
  {
    if s.rows != [] {
      LowestIsBelow(c, s.rows, c.autoThreshold);
    }
  }
}
