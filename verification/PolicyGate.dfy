/**
 The policy gate: duplicate thresholds collapse to the most restrictive one, every priced line is held
 against the collapsed margin floor and discount cap, and without any threshold the gate fails closed.
 */
module PolicyGate {
  import opened InsertionOrder
  import opened Rounding
  import opened Wrappers
  import QuotePricing

  /** An active rule row of the organisation, after its configuration was parsed. */
  datatype Rule = MarginFloor(minMarginPct: real) | MaxDiscount(maxDiscountPct: real) | Unrelated

  datatype RuleSet = RuleSet(marginFloorPct: Option<real>, maxDiscountPct: Option<real>, hasAnyRules: bool)

  datatype LineInput = LineInput(lineItemId: string, basePriceMinor: int, unitPriceMinor: int, costMinor: Option<int>)

  datatype BreachType = FloorBreach | DiscountBreach

  datatype Breach = Breach(lineItemId: string, kind: BreachType, observedPct: real, limitPct: real)

  datatype Evaluation = Evaluation(breached: bool, failClosed: bool, breaches: seq<Breach>, flagged: seq<string>)

  function Pct1(x: real): real {
    Round(x * 10.0) as real / 10.0
  }

  function DiscountPct(line: LineInput): real
    requires line.basePriceMinor > 0
  {
    (line.basePriceMinor - line.unitPriceMinor) as real / line.basePriceMinor as real * 100.0
  }

  function MarginPct(line: LineInput, cost: int): real
    requires line.unitPriceMinor > 0
  {
    (line.unitPriceMinor - cost) as real / line.unitPriceMinor as real * 100.0
  }

  // ---------- What one rule forbids ----------

  predicate ExceedsCap(line: LineInput, cap: real) {
    line.basePriceMinor > 0 && DiscountPct(line) > cap
  }

  /** Below the floor; a free or negative price with a real cost is below every floor. */
  predicate BelowFloor(line: LineInput, floor: real) {
    line.costMinor.Some? &&
    if line.unitPriceMinor > 0 then MarginPct(line, line.costMinor.value) < floor else line.costMinor.value > 0
  }

  predicate Forbids(rule: Rule, line: LineInput) {
    match rule
    case MarginFloor(floor) => BelowFloor(line, floor)
    case MaxDiscount(cap) => ExceedsCap(line, cap)
    case Unrelated => false
  }

  // ---------- Collapsing duplicate rules ----------

  ghost predicate IsHighest(floors: seq<real>, m: Option<real>) {
    if floors == [] then m.None? else m.Some? && m.value in floors && forall f :: f in floors ==> f <= m.value
  }

  ghost predicate IsLowest(caps: seq<real>, m: Option<real>) {
    if caps == [] then m.None? else m.Some? && m.value in caps && forall c :: c in caps ==> m.value <= c
  }

  /** The rule set stands for the rules: highest floor, lowest cap, and whether there is any threshold. */
  ghost predicate Collapses(rules: seq<Rule>, s: RuleSet) {
    && (s.marginFloorPct.None? <==> forall r :: r in rules ==> !r.MarginFloor?)
    && (s.maxDiscountPct.None? <==> forall r :: r in rules ==> !r.MaxDiscount?)
    && (s.marginFloorPct.Some? ==> MarginFloor(s.marginFloorPct.value) in rules)
    && (s.maxDiscountPct.Some? ==> MaxDiscount(s.maxDiscountPct.value) in rules)
    && (forall r :: r in rules && r.MarginFloor? ==> r.minMarginPct <= s.marginFloorPct.value)
    && (forall r :: r in rules && r.MaxDiscount? ==> s.maxDiscountPct.value <= r.maxDiscountPct)
    && (s.hasAnyRules <==> exists r :: r in rules && !r.Unrelated?)
  }

  method Highest(values: seq<real>) returns (m: Option<real>)
    ensures IsHighest(values, m)
  {
    if values == [] {
      return None;
    }
    var top := values[0];
    for i := 1 to |values|
      invariant top in values && forall j :: 0 <= j < i ==> values[j] <= top
    {
      top := Max(top, values[i]);
    }
    m := Some(top);
  }

  method Lowest(values: seq<real>) returns (m: Option<real>)
    ensures IsLowest(values, m)
  {
    if values == [] {
      return None;
    }
    var bottom := values[0];
    for i := 1 to |values|
      invariant bottom in values && forall j :: 0 <= j < i ==> bottom <= values[j]
    {
      if values[i] < bottom {
        bottom := values[i];
      }
    }
    m := Some(bottom);
  }

  method GetRuleSetForOrg(rules: seq<Rule>) returns (s: RuleSet)
    ensures Collapses(rules, s)
  {
    var floors: seq<real>, caps: seq<real> := [], [];
    for i := 0 to |rules|
      invariant forall f :: f in floors <==> MarginFloor(f) in rules[..i]
      invariant forall c :: c in caps <==> MaxDiscount(c) in rules[..i]
    {
      match rules[i] {
        case MarginFloor(floor) => floors := floors + [floor];
        case MaxDiscount(cap) => caps := caps + [cap];
        case Unrelated =>
      }
      assert rules[..i + 1] == rules[..i] + [rules[i]];
    }
    assert rules[..|rules|] == rules;
    var floor := Highest(floors);
    var cap := Lowest(caps);
    s := RuleSet(floor, cap, floor.Some? || cap.Some?);
    assert forall r :: r in rules && r.MarginFloor? ==> r.minMarginPct in floors;
    assert forall r :: r in rules && r.MaxDiscount? ==> r.maxDiscountPct in caps;
    if floors != [] {
      assert MarginFloor(floors[0]) in rules;
    }
    if caps != [] {
      assert MaxDiscount(caps[0]) in rules;
    }
  }

  // ---------- Evaluating the lines ----------

  function CapBreaches(line: LineInput, s: RuleSet): seq<Breach> {
    if s.maxDiscountPct.Some? && ExceedsCap(line, s.maxDiscountPct.value)
    then [Breach(line.lineItemId, DiscountBreach, Pct1(DiscountPct(line)), s.maxDiscountPct.value)] else []
  }

  function FloorBreaches(line: LineInput, s: RuleSet): seq<Breach> {
    if s.marginFloorPct.Some? && BelowFloor(line, s.marginFloorPct.value)
    then [Breach(line.lineItemId, FloorBreach,
                 Pct1(if line.unitPriceMinor > 0 then MarginPct(line, line.costMinor.value) else -100.0),
                 s.marginFloorPct.value)]
    else []
  }

  function BreachesOf(lines: seq<LineInput>, s: RuleSet): seq<Breach> {
    if lines == [] then []
    else
      var last := |lines| - 1;
      BreachesOf(lines[..last], s) + (CapBreaches(lines[last], s) + FloorBreaches(lines[last], s))
  }

  function LineIds(lines: seq<LineInput>): seq<string> {
    seq(|lines|, i requires 0 <= i < |lines| => lines[i].lineItemId)
  }

  function BreachIds(breaches: seq<Breach>): seq<string> {
    seq(|breaches|, i requires 0 <= i < |breaches| => breaches[i].lineItemId)
  }

  /** Without any threshold the gate fails closed and flags every line it was shown. */
  function EvaluationOf(lines: seq<LineInput>, s: RuleSet): Evaluation {
    if !s.hasAnyRules then Evaluation(lines != [], true, [], LineIds(lines))
    else
      var breaches := BreachesOf(lines, s);
      Evaluation(breaches != [], false, breaches, Distinct(BreachIds(breaches)))
  }

  method Evaluate(lines: seq<LineInput>, s: RuleSet) returns (e: Evaluation)
    ensures e == EvaluationOf(lines, s)
  {
    if !s.hasAnyRules {
      return Evaluation(|lines| > 0, true, [], LineIds(lines));
    }
    var breaches: seq<Breach> := [];
    for i := 0 to |lines|
      invariant breaches == BreachesOf(lines[..i], s)
    {
      var found := EvaluateLine(lines[i], s);
      breaches := breaches + found;
      assert lines[..i + 1][..i] == lines[..i];
    }
    assert lines[..|lines|] == lines;
    var flagged := FlaggedIds(breaches);
    e := Evaluation(|breaches| > 0, false, breaches, flagged);
  }

  method EvaluateLine(line: LineInput, s: RuleSet) returns (breaches: seq<Breach>)
    ensures breaches == CapBreaches(line, s) + FloorBreaches(line, s)
  {
    breaches := [];
    if s.maxDiscountPct.Some? && line.basePriceMinor > 0 {
      var discountPct := (line.basePriceMinor - line.unitPriceMinor) as real / line.basePriceMinor as real * 100.0;
      if discountPct > s.maxDiscountPct.value {
        breaches := breaches + [Breach(line.lineItemId, DiscountBreach, Pct1(discountPct), s.maxDiscountPct.value)];
      }
    }
    if s.marginFloorPct.Some? && line.costMinor.Some? {
      if line.unitPriceMinor > 0 {
        var marginPct := (line.unitPriceMinor - line.costMinor.value) as real / line.unitPriceMinor as real * 100.0;
        if marginPct < s.marginFloorPct.value {
          breaches := breaches + [Breach(line.lineItemId, FloorBreach, Pct1(marginPct), s.marginFloorPct.value)];
        }
      } else if line.costMinor.value > 0 {
        breaches := breaches + [Breach(line.lineItemId, FloorBreach, Pct1(-100.0), s.marginFloorPct.value)];
      }
    }
  }

  /** The lines with a breach, each once, in the order of their first breach. */
  method FlaggedIds(breaches: seq<Breach>) returns (ids: seq<string>)
    ensures ids == Distinct(BreachIds(breaches))
  {
    ids := [];
    for i := 0 to |breaches|
      invariant ids == Distinct(BreachIds(breaches[..i]))
    {
      DistinctAppend(BreachIds(breaches[..i]), breaches[i].lineItemId);
      assert BreachIds(breaches[..i + 1]) == BreachIds(breaches[..i]) + [breaches[i].lineItemId];
      ids := Include(ids, breaches[i].lineItemId);
    }
    assert breaches[..|breaches|] == breaches;
  }

  // ---------- The collapsed thresholds decide exactly as all the rules together ----------

  /** A line breaches the collapsed cap (floor) if and only if some active rule of that kind forbids it. */
  lemma CollapsedThresholdsAreExact(rules: seq<Rule>, s: RuleSet, line: LineInput)
    requires Collapses(rules, s)
    ensures CapBreaches(line, s) != [] <==> exists r :: r in rules && r.MaxDiscount? && Forbids(r, line)
    ensures FloorBreaches(line, s) != [] <==> exists r :: r in rules && r.MarginFloor? && Forbids(r, line)
  {
    if s.maxDiscountPct.Some? && ExceedsCap(line, s.maxDiscountPct.value) {
      assert Forbids(MaxDiscount(s.maxDiscountPct.value), line);
    }
    if s.marginFloorPct.Some? && BelowFloor(line, s.marginFloorPct.value) {
      assert Forbids(MarginFloor(s.marginFloorPct.value), line);
    }
  }

  lemma {:induction false} BreachesOfMembers(lines: seq<LineInput>, s: RuleSet, b: Breach)
    ensures b in BreachesOf(lines, s) <==> exists l :: l in lines && b in CapBreaches(l, s) + FloorBreaches(l, s)
  {
    if lines != [] {
      var last := |lines| - 1;
      assert lines == lines[..last] + [lines[last]];
      BreachesOfMembers(lines[..last], s, b);
    }
  }

  predicate Names(kind: BreachType, rule: Rule) {
    match kind
    case DiscountBreach => rule.MaxDiscount?
    case FloorBreach => rule.MarginFloor?
  }

  /** Some line of that id is forbidden by some rule of the kind. */
  ghost predicate ForbiddenLine(rules: seq<Rule>, lines: seq<LineInput>, id: string, kind: BreachType) {
    exists l, r :: l in lines && l.lineItemId == id && r in rules && Names(kind, r) && Forbids(r, l)
  }

  ghost predicate Reported(breaches: seq<Breach>, id: string, kind: BreachType) {
    exists b :: b in breaches && b.lineItemId == id && b.kind == kind
  }

  lemma BreachIsForbidden(rules: seq<Rule>, s: RuleSet, lines: seq<LineInput>, b: Breach)
    requires Collapses(rules, s) && b in BreachesOf(lines, s)
    ensures ForbiddenLine(rules, lines, b.lineItemId, b.kind)
  {
    BreachesOfMembers(lines, s, b);
    var l :| l in lines && b in CapBreaches(l, s) + FloorBreaches(l, s);
    CollapsedThresholdsAreExact(rules, s, l);
    assert l.lineItemId == b.lineItemId;
  }

  lemma ForbiddenIsBreach(rules: seq<Rule>, s: RuleSet, lines: seq<LineInput>, l: LineInput, r: Rule, kind: BreachType)
    requires Collapses(rules, s) && l in lines && r in rules && Names(kind, r) && Forbids(r, l)
    ensures Reported(BreachesOf(lines, s), l.lineItemId, kind)
  {
    CollapsedThresholdsAreExact(rules, s, l);
    var b := if r.MaxDiscount? then CapBreaches(l, s)[0] else FloorBreaches(l, s)[0];
    assert b in CapBreaches(l, s) + FloorBreaches(l, s);
    BreachesOfMembers(lines, s, b);
  }

  /** A breach of a kind is reported for a line if and only if some individual active rule of that kind forbids it. */
  lemma ReportsExactlyForbiddenLines(rules: seq<Rule>, s: RuleSet, lines: seq<LineInput>, id: string, kind: BreachType)
    requires Collapses(rules, s)
    ensures Reported(BreachesOf(lines, s), id, kind) <==> ForbiddenLine(rules, lines, id, kind)
  {
    if Reported(BreachesOf(lines, s), id, kind) {
      var b :| b in BreachesOf(lines, s) && b.lineItemId == id && b.kind == kind;
      BreachIsForbidden(rules, s, lines, b);
    }
    if ForbiddenLine(rules, lines, id, kind) {
      var l, r :| l in lines && l.lineItemId == id && r in rules && Names(kind, r) && Forbids(r, l);
      ForbiddenIsBreach(rules, s, lines, l, r, kind);
    }
  }

  lemma FlaggedIffReported(breaches: seq<Breach>, id: string)
    ensures id in Distinct(BreachIds(breaches)) <==> exists kind :: Reported(breaches, id, kind)
  {
    DistinctKeeps(BreachIds(breaches));
    if id in BreachIds(breaches) {
      var i :| 0 <= i < |breaches| && BreachIds(breaches)[i] == id;
      assert Reported(breaches, id, breaches[i].kind);
    }
    if kind :| Reported(breaches, id, kind) {
      var b :| b in breaches && b.lineItemId == id && b.kind == kind;
      var i :| 0 <= i < |breaches| && breaches[i] == b;
      assert BreachIds(breaches)[i] == id;
    }
  }

  /**
   The gate flags a line if and only if some individual active rule forbids it, or no rule sets a threshold at
   all: the order and duplication of the rules do not matter.
   */
  lemma GateFlagsExactlyForbiddenLines(rules: seq<Rule>, s: RuleSet, lines: seq<LineInput>, id: string)
    requires Collapses(rules, s)
    ensures id in EvaluationOf(lines, s).flagged <==>
      || (exists kind :: ForbiddenLine(rules, lines, id, kind))
      || ((forall r :: r in rules ==> r.Unrelated?) && exists l :: l in lines && l.lineItemId == id)
  {
    if s.hasAnyRules {
      FlaggedIffReported(BreachesOf(lines, s), id);
      forall kind {
        ReportsExactlyForbiddenLines(rules, s, lines, id, kind);
      }
    } else {
      assert forall i :: 0 <= i < |lines| ==> LineIds(lines)[i] == lines[i].lineItemId && lines[i] in lines;
    }
  }

  // ---------- How the gate sees a rule-priced line ----------

  /** The line the policy node builds from a line the pricer priced. */
  function Seen(line: QuotePricing.LineInput, pct: real, cost: Option<int>): LineInput {
    LineInput(line.lineItemId, line.basePriceMinor, QuotePricing.Discounted(line.basePriceMinor, pct), cost)
  }

  /** The seen discount is the granted one plus what rounding took off the unit price, as a percentage. */
  lemma SeenDiscount(line: QuotePricing.LineInput, pct: real, cost: Option<int>) returns (exact: real)
    requires line.basePriceMinor > 0
    ensures exact == QuotePricing.ExactDiscounted(line.basePriceMinor, pct)
    ensures DiscountPct(Seen(line, pct, cost)) == pct +
      (exact - Round(exact) as real) / line.basePriceMinor as real * 100.0
  {
    var base := line.basePriceMinor as real;
    exact := base * (100.0 - pct) / 100.0;
    var unit := QuotePricing.Discounted(line.basePriceMinor, pct);
    assert unit == Round(exact);
    assert base - unit as real == base * pct / 100.0 + (exact - unit as real);
    SplitPercent(base, pct, exact - unit as real);
  }

  lemma SplitPercent(base: real, pct: real, gap: real)
    requires base > 0.0
    ensures (base * pct / 100.0 + gap) / base * 100.0 == pct + gap / base * 100.0
  {
    assert (base * pct / 100.0 + gap) / base == base * pct / 100.0 / base + gap / base;
    assert base * pct / 100.0 / base == pct / 100.0;
  }

  lemma PercentOf(base: real, gap: real)
    requires base > 0.0 && -0.5 <= gap < 0.5
    ensures -50.0 / base <= gap / base * 100.0 < 50.0 / base
    ensures gap / base * 100.0 > 0.0 <==> gap > 0.0
  {
    assert gap / base * 100.0 == (gap * 100.0) / base;
  }

  lemma SeenDiscountIsNear(line: QuotePricing.LineInput, pct: real, cost: Option<int>)
    requires line.basePriceMinor > 0
    ensures DiscountPct(Seen(line, pct, cost)) < pct + 50.0 / line.basePriceMinor as real
    ensures DiscountPct(Seen(line, pct, cost)) >= pct - 50.0 / line.basePriceMinor as real
  {
    var exact := SeenDiscount(line, pct, cost);
    RoundNear(exact);
    PercentOf(line.basePriceMinor as real, exact - Round(exact) as real);
  }

  /**
   A line priced with a d% break is never reported against a cap of at least d + 50/base percent: the
   half unit lost in rounding the unit price cannot reach it.
   */
  lemma BreakWithinCapPasses(line: QuotePricing.LineInput, breaks: seq<QuotePricing.QuantityBreak>, cost: Option<int>,
      s: RuleSet)
    requires line.basePriceMinor > 0
    requires s.maxDiscountPct.Some? ==>
      s.maxDiscountPct.value >= QuotePricing.PriceLine(line, breaks).appliedDiscountPct +
        50.0 / line.basePriceMinor as real
    ensures CapBreaches(LineInput(line.lineItemId, line.basePriceMinor,
      QuotePricing.PriceLine(line, breaks).unitPriceMinor, cost), s) == []
  {
    SeenDiscountIsNear(line, QuotePricing.PriceLine(line, breaks).appliedDiscountPct, cost);
  }

  /**
   A cap of exactly d% is not enough: the line is reported if and only if its exact unit price has a
   fraction below one half, so that rounding takes it down.
   */
  lemma BreakAtCapBreachesIffRoundedDown(line: QuotePricing.LineInput, pct: real, cost: Option<int>)
    requires line.basePriceMinor > 0
    ensures var exact := QuotePricing.ExactDiscounted(line.basePriceMinor, pct);
      ExceedsCap(Seen(line, pct, cost), pct) <==> 0.0 < exact - exact.Floor as real < 0.5
  {
    var exact := SeenDiscount(line, pct, cost);
    RoundsDown(exact);
    RoundNear(exact);
    PercentOf(line.basePriceMinor as real, exact - Round(exact) as real);
  }

  /** Such a line: 10% off 16 cents is sold at 14, which the gate sees as 12.5% and reports against a cap of 10%. */
  lemma TenPercentOffSixteenIsReported(line: QuotePricing.LineInput, cost: Option<int>)
    requires line.basePriceMinor == 16 && line.quantity >= 1.0
    ensures var ten := [QuotePricing.QuantityBreak(1, 10.0)];
      var seen := LineInput(line.lineItemId, 16, QuotePricing.PriceLine(line, ten).unitPriceMinor, cost);
      && DiscountPct(seen) == 12.5
      && EvaluationOf([seen], RuleSet(None, Some(10.0), true)).flagged == [line.lineItemId]
  {
    var ten := [QuotePricing.QuantityBreak(1, 10.0)];
    assert QuotePricing.AppliedDiscount(ten, line.quantity) == 10.0;
    assert QuotePricing.ExactDiscounted(16, 10.0) == 14.4 && Round(14.4) == 14;
    assert QuotePricing.PriceLine(line, ten).unitPriceMinor == 14;
    var seen := LineInput(line.lineItemId, 16, 14, cost);
    var cap := RuleSet(None, Some(10.0), true);
    assert DiscountPct(seen) == 12.5;
    OneLineBreaches(seen, cap);
    assert BreachIds(BreachesOf([seen], cap)) == [line.lineItemId];
    DistinctOfNoDuplicates([line.lineItemId]);
  }

  lemma OneLineBreaches(line: LineInput, s: RuleSet)
    ensures BreachesOf([line], s) == CapBreaches(line, s) + FloorBreaches(line, s)
  {
    assert BreachesOf([line][..0], s) == [];
  }

  // ---------- The gate in prices ----------

  /** Sold below the margin: 100 times the cost against the share of the price the floor leaves for it. */
  predicate SellsBelow(l: LineInput, floor: real) {
    l.costMinor.Some? &&
    if l.unitPriceMinor > 0 then l.unitPriceMinor as real * (100.0 - floor) < 100.0 * l.costMinor.value as real
    else l.costMinor.value > 0
  }

  /** Sold below the list price by more than the cap allows. */
  predicate DiscountsBeyond(l: LineInput, cap: real) {
    l.basePriceMinor > 0 && 100.0 * (l.basePriceMinor - l.unitPriceMinor) as real > cap * l.basePriceMinor as real
  }

  lemma PercentagePoints(part: real, whole: real, pct: real)
    requires whole > 0.0
    ensures part / whole * 100.0 * whole == 100.0 * part
    ensures part / whole * 100.0 < pct <==> 100.0 * part < pct * whole
    ensures part / whole * 100.0 > pct <==> 100.0 * part > pct * whole
  {
    var x := part / whole * 100.0;
    assert x * whole == 100.0 * part;
    Compare(x, pct, whole);
  }

  lemma Compare(x: real, y: real, scale: real)
    requires scale > 0.0
    ensures x < y <==> x * scale < y * scale
    ensures x > y <==> x * scale > y * scale
  {
    assert (y - x) * scale == y * scale - x * scale;
  }

  lemma ForbidsInPrices(l: LineInput, limit: real)
    ensures BelowFloor(l, limit) <==> SellsBelow(l, limit)
    ensures ExceedsCap(l, limit) <==> DiscountsBeyond(l, limit)
  {
    if l.unitPriceMinor > 0 && l.costMinor.Some? {
      PercentagePoints((l.unitPriceMinor - l.costMinor.value) as real, l.unitPriceMinor as real, limit);
      assert l.unitPriceMinor as real * (100.0 - limit) ==
        100.0 * l.unitPriceMinor as real - limit * l.unitPriceMinor as real;
    }
    if l.basePriceMinor > 0 {
      PercentagePoints((l.basePriceMinor - l.unitPriceMinor) as real, l.basePriceMinor as real, limit);
    }
  }

  predicate ForbidsByPrice(rule: Rule, l: LineInput) {
    match rule
    case MarginFloor(floor) => SellsBelow(l, floor)
    case MaxDiscount(cap) => DiscountsBeyond(l, cap)
    case Unrelated => false
  }

  /**
   The gate, in prices and rules alone: a line is flagged if and only if it is sold below the margin some active floor
   asks for or further below the list price than some active cap allows, or no active rule sets a threshold.
   */
  lemma GateInPrices(rules: seq<Rule>, s: RuleSet, lines: seq<LineInput>, id: string)
    requires Collapses(rules, s)
    ensures id in EvaluationOf(lines, s).flagged <==>
      exists l :: l in lines && l.lineItemId == id &&
        ((exists r :: r in rules && ForbidsByPrice(r, l)) || forall r :: r in rules ==> r.Unrelated?)
  {
    GateFlagsExactlyForbiddenLines(rules, s, lines, id);
    forall l, r: Rule
      ensures Forbids(r, l) <==> ForbidsByPrice(r, l)
    {
      ForbidsInPrices(l, if r.MarginFloor? then r.minMarginPct else if r.MaxDiscount? then r.maxDiscountPct else 0.0);
    }
    if kind :| ForbiddenLine(rules, lines, id, kind) {
      var l, r :| l in lines && l.lineItemId == id && r in rules && Names(kind, r) && Forbids(r, l);
      assert ForbidsByPrice(r, l);
    }
    if l, r :| l in lines && l.lineItemId == id && r in rules && ForbidsByPrice(r, l) {
      assert Forbids(r, l);
      assert ForbiddenLine(rules, lines, id, if r.MaxDiscount? then DiscountBreach else FloorBreach);
    }
  }

  /** part is `observed` percent of whole, to a twentieth of a point. */
  predicate IsAbout(observed: real, part: int, whole: int) {
    -0.05 * whole as real <= observed * whole as real - 100.0 * part as real <= 0.05 * whole as real
  }

  /** What a breach of a line says: the limit it is held against, and the observed percentage. */
  ghost predicate TellsTheFigures(b: Breach, l: LineInput, s: RuleSet) {
    && b.lineItemId == l.lineItemId
    && match b.kind
       case DiscountBreach =>
         && s.maxDiscountPct == Some(b.limitPct) && DiscountsBeyond(l, b.limitPct)
         && IsAbout(b.observedPct, l.basePriceMinor - l.unitPriceMinor, l.basePriceMinor)
       case FloorBreach =>
         && s.marginFloorPct == Some(b.limitPct) && SellsBelow(l, b.limitPct)
         && (l.unitPriceMinor > 0 ==> IsAbout(b.observedPct, l.unitPriceMinor - l.costMinor.value, l.unitPriceMinor))
         && (l.unitPriceMinor <= 0 ==> b.observedPct == -100.0)
  }

  lemma ScaledGap(x: real, y: real, scale: real)
    requires scale > 0.0 && -0.05 <= x - y <= 0.05
    ensures -0.05 * scale <= x * scale - y * scale <= 0.05 * scale
  {
    ProductNonNegative(x - y + 0.05, scale);
    ProductNonNegative(0.05 - (x - y), scale);
    assert (x - y + 0.05) * scale == x * scale - y * scale + 0.05 * scale;
    assert (0.05 - (x - y)) * scale == 0.05 * scale - (x * scale - y * scale);
  }

  lemma ToATenth(part: int, whole: int, pct: real)
    requires whole > 0 && pct == part as real / whole as real * 100.0
    ensures IsAbout(Pct1(pct), part, whole)
  {
    PercentagePoints(part as real, whole as real, 0.0);
    RoundNear(pct * 10.0);
    ScaledGap(Pct1(pct), pct, whole as real);
  }

  lemma MinusHundred()
    ensures Pct1(-100.0) == -100.0
  {
    assert Round(-1000.0) == -1000;
  }

  lemma BreachTellsTheFigures(l: LineInput, s: RuleSet, b: Breach)
    requires b in CapBreaches(l, s) + FloorBreaches(l, s)
    ensures TellsTheFigures(b, l, s)
  {
    hide IsAbout, Pct1, SellsBelow, DiscountsBeyond;
    ForbidsInPrices(l, b.limitPct);
    MinusHundred();
    if b.kind == DiscountBreach {
      ToATenth(l.basePriceMinor - l.unitPriceMinor, l.basePriceMinor, DiscountPct(l));
    } else if l.unitPriceMinor > 0 {
      ToATenth(l.unitPriceMinor - l.costMinor.value, l.unitPriceMinor, MarginPct(l, l.costMinor.value));
    }
  }

  /**
   Every breach of an evaluation is of one of the lines and tells its figures, and a line that crosses the collapsed
   threshold of a kind has a breach of that kind.
   */
  lemma EvaluationTellsTheFigures(lines: seq<LineInput>, s: RuleSet)
    ensures forall b :: b in EvaluationOf(lines, s).breaches ==> exists l :: l in lines && TellsTheFigures(b, l, s)
    ensures s.hasAnyRules ==> forall l :: l in lines ==>
      && (s.maxDiscountPct.Some? && DiscountsBeyond(l, s.maxDiscountPct.value) ==>
            exists b :: b in EvaluationOf(lines, s).breaches && b.kind == DiscountBreach && TellsTheFigures(b, l, s))
      && (s.marginFloorPct.Some? && SellsBelow(l, s.marginFloorPct.value) ==>
            exists b :: b in EvaluationOf(lines, s).breaches && b.kind == FloorBreach && TellsTheFigures(b, l, s))
  {
    forall b | b in EvaluationOf(lines, s).breaches
      ensures exists l :: l in lines && TellsTheFigures(b, l, s)
    {
      BreachesOfMembers(lines, s, b);
      var l :| l in lines && b in CapBreaches(l, s) + FloorBreaches(l, s);
      BreachTellsTheFigures(l, s, b);
    }
    if s.hasAnyRules {
      forall l | l in lines
        ensures s.maxDiscountPct.Some? && DiscountsBeyond(l, s.maxDiscountPct.value) ==>
          exists b :: b in EvaluationOf(lines, s).breaches && b.kind == DiscountBreach && TellsTheFigures(b, l, s)
        ensures s.marginFloorPct.Some? && SellsBelow(l, s.marginFloorPct.value) ==>
          exists b :: b in EvaluationOf(lines, s).breaches && b.kind == FloorBreach && TellsTheFigures(b, l, s)
      {
        LineIsReported(lines, s, l);
      }
    }
  }

  lemma LineIsReported(lines: seq<LineInput>, s: RuleSet, l: LineInput)
    requires l in lines
    ensures s.maxDiscountPct.Some? && DiscountsBeyond(l, s.maxDiscountPct.value) ==>
      exists b :: b in BreachesOf(lines, s) && b.kind == DiscountBreach && TellsTheFigures(b, l, s)
    ensures s.marginFloorPct.Some? && SellsBelow(l, s.marginFloorPct.value) ==>
      exists b :: b in BreachesOf(lines, s) && b.kind == FloorBreach && TellsTheFigures(b, l, s)
  {
    var found := CapBreaches(l, s) + FloorBreaches(l, s);
    if s.maxDiscountPct.Some? && DiscountsBeyond(l, s.maxDiscountPct.value) {
      ForbidsInPrices(l, s.maxDiscountPct.value);
      var b := CapBreaches(l, s)[0];
      assert b in found;
      BreachesOfMembers(lines, s, b);
      BreachTellsTheFigures(l, s, b);
    }
    if s.marginFloorPct.Some? && SellsBelow(l, s.marginFloorPct.value) {
      ForbidsInPrices(l, s.marginFloorPct.value);
      var b := FloorBreaches(l, s)[0];
      assert b in found;
      BreachesOfMembers(lines, s, b);
      BreachTellsTheFigures(l, s, b);
    }
  }

  /** The gate is breached if and only if it flags a line, and fails closed if and only if no rule sets a threshold. */
  lemma BreachedIffFlagged(rules: seq<Rule>, s: RuleSet, lines: seq<LineInput>)
    requires Collapses(rules, s)
    ensures var e := EvaluationOf(lines, s);
      && (e.breached <==> exists l :: l in lines && l.lineItemId in e.flagged)
      && (e.failClosed <==> forall r :: r in rules ==> r.Unrelated?)
      && (e.failClosed ==> e.breaches == [])
  {
    var e := EvaluationOf(lines, s);
    if e.failClosed {
      if lines != [] {
        assert e.flagged[0] == lines[0].lineItemId;
      }
    } else {
      if e.breached {
        var b := e.breaches[0];
        EvaluationTellsTheFigures(lines, s);
        assert b in e.breaches;
        var l :| l in lines && TellsTheFigures(b, l, s);
        assert Reported(e.breaches, l.lineItemId, b.kind);
        FlaggedIffReported(e.breaches, l.lineItemId);
      }
      if l :| l in lines && l.lineItemId in e.flagged {
        FlaggedIffReported(e.breaches, l.lineItemId);
      }
    }
  }
}
