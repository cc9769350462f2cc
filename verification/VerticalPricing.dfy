/**
 What the two vertical pricing engines share: tenant-owned rules in sort order, catalog lookups by code
 and by id, quote lines numbered as they are pushed, and the checks on the SKUs a quote uses.
 */
module VerticalPricing {
  import opened InsertionOrder
  import opened Wrappers
  import opened Rounding
  import opened StableSort
  import opened Sums
  import opened Text

  datatype Vertical = AVAC | CAIXILHARIA

  datatype RuleType =
    | CATALOG_UNIT | FIXED_ADDER | LABOR_HOURS | CONDITIONAL_SURCHARGE | INCLUDED_ALLOWANCE
    | MARGIN_MARKUP | QTY_BREAK | TAX | OTHER_TYPE

  datatype Rule<C> = Rule(ruleType: RuleType, vertical: Option<Vertical>, sortOrder: int, active: bool, config: C)

  datatype Sku = Sku(id: string, code: string, name: string, basePriceMinor: int, currency: string,
      leadTimeDays: Option<int>, active: bool)

  datatype Kind = Equipment | Material | Labor | Consumable | Margin | Tax

  /** Amounts are exact reals: a fractional number of hours or kilometres is not rounded. */
  datatype QuoteLine = QuoteLine(
    skuId: Option<string>, description: string, quantity: real, unitPriceMinor: real, amountMinor: real,
    position: int, kind: Kind)

  function AmountOf(l: QuoteLine): real {
    l.amountMinor
  }

  function Total(lines: seq<QuoteLine>): real {
    SumBy(lines, AmountOf)
  }

  lemma OneLineTotal(l: QuoteLine)
    ensures Total([l]) == l.amountMinor
  {
    assert SumBy([l][1..], AmountOf) == 0.0;
    assert SumBy([l], AmountOf) == AmountOf(l);
  }

  /** A line before it is pushed; pushing gives it the next position. */
  function FixedDraft(description: string, amount: real, kind: Kind): QuoteLine {
    QuoteLine(None, description, 1.0, amount, amount, 0, kind)
  }

  function Cost(priceMinor: int, quantity: real): real {
    priceMinor as real * quantity
  }

  function CatalogDraft(sku: Sku, description: string, quantity: real, kind: Kind): QuoteLine {
    QuoteLine(Some(sku.id), description, quantity, sku.basePriceMinor as real,
      Cost(sku.basePriceMinor, quantity), 0, kind)
  }

  /** The drafts in push order, numbered from one. */
  function Numbered(drafts: seq<QuoteLine>): seq<QuoteLine> {
    seq(|drafts|, i requires 0 <= i < |drafts| => drafts[i].(position := i + 1))
  }

  /** Whatever does not look at positions adds up to the same before and after numbering. */
  lemma {:induction false} NumberedSum(drafts: seq<QuoteLine>, f: QuoteLine -> real)
    requires forall l: QuoteLine, n: int :: f(l.(position := n)) == f(l)
    ensures SumBy(Numbered(drafts), f) == SumBy(drafts, f)
  {
    if drafts != [] {
      var last := |drafts| - 1;
      NumberedSum(drafts[..last], f);
      assert drafts == drafts[..last] + [drafts[last]];
      assert Numbered(drafts) == Numbered(drafts[..last]) + [Numbered(drafts)[last]];
      SumByAppend(drafts[..last], drafts[last], f);
      SumByAppend(Numbered(drafts[..last]), Numbered(drafts)[last], f);
    }
  }

  lemma NumberedTotal(drafts: seq<QuoteLine>)
    ensures Total(Numbered(drafts)) == Total(drafts)
  {
    NumberedSum(drafts, AmountOf);
  }

  lemma NumberedPush(drafts: seq<QuoteLine>, draft: QuoteLine)
    ensures Numbered(drafts + [draft]) == Numbered(drafts) + [draft.(position := |drafts| + 1)]
  {
  }

  /** Lines worth the subtotal, plus a tax that may have a line of its own. */
  lemma TaxOnALine(subtotal: real, tax: int, onALine: bool, lines: real, total: real)
    requires lines == subtotal + (if onALine then tax as real else 0.0) && total == subtotal + tax as real
    ensures lines == total <==> onALine || tax == 0
  {
  }

  // ---------- Rules ----------

  function BySortOrder<C>(r: Rule<C>): real {
    r.sortOrder as real
  }

  function RulesFor<C>(rules: seq<Rule<C>>, v: Vertical): seq<Rule<C>> {
    if rules == [] then []
    else (if rules[0].active && rules[0].vertical == Some(v) then [rules[0]] else []) + RulesFor(rules[1..], v)
  }

  /** The active rules of a vertical in sort order. */
  function ActiveRules<C>(rules: seq<Rule<C>>, v: Vertical): seq<Rule<C>> {
    SortBy(RulesFor(rules, v), BySortOrder)
  }

  /** The first rule of a type whose configuration parses. */
  function FirstConfig<C>(rules: seq<Rule<C>>, t: RuleType, parses: C -> bool): Option<C> {
    if rules == [] then None
    else if rules[0].ruleType == t && parses(rules[0].config) then Some(rules[0].config)
    else FirstConfig(rules[1..], t, parses)
  }

  lemma {:induction false} FirstConfigParses<C>(rules: seq<Rule<C>>, t: RuleType, parses: C -> bool)
    ensures FirstConfig(rules, t, parses).Some? ==>
      && parses(FirstConfig(rules, t, parses).value)
      && exists r :: r in rules && r.config == FirstConfig(rules, t, parses).value
  {
    if rules != [] {
      assert rules == [rules[0]] + rules[1..];
      FirstConfigParses(rules[1..], t, parses);
    }
  }

  ghost predicate Offers<C>(r: Rule<C>, t: RuleType, parses: C -> bool) {
    r.ruleType == t && parses(r.config)
  }

  lemma {:induction false} FirstConfigIsEarliest<C>(rules: seq<Rule<C>>, t: RuleType, parses: C -> bool)
    requires Sorted(rules, BySortOrder)
    ensures match FirstConfig(rules, t, parses)
      case None => forall r :: r in rules ==> !Offers(r, t, parses)
      case Some(c) => exists r ::
        && r in rules && Offers(r, t, parses) && r.config == c
        && forall s :: s in rules && Offers(s, t, parses) ==> r.sortOrder <= s.sortOrder
  {
    if rules != [] {
      var first, rest := rules[0], rules[1..];
      assert rules == [first] + rest;
      assert forall i :: 0 <= i < |rest| ==> rest[i] == rules[i + 1];
      if Offers(first, t, parses) {
        forall s | s in rules
          ensures first.sortOrder <= s.sortOrder
        {
          var i :| 0 <= i < |rules| && rules[i] == s;
          assert i > 0 ==> BySortOrder(rules[0]) <= BySortOrder(rules[i]);
        }
      } else {
        FirstConfigIsEarliest(rest, t, parses);
      }
    }
  }

  lemma {:induction false} FirstConfigAt<C>(rules: seq<Rule<C>>, t: RuleType, parses: C -> bool, i: nat)
    requires i < |rules| && Offers(rules[i], t, parses)
    requires forall j :: 0 <= j < i ==> !Offers(rules[j], t, parses)
    ensures FirstConfig(rules, t, parses) == Some(rules[i].config)
  {
    if i > 0 {
      assert !Offers(rules[0], t, parses);
      assert forall j :: 0 <= j < |rules[1..]| ==> rules[1..][j] == rules[j + 1];
      FirstConfigAt(rules[1..], t, parses, i - 1);
    }
  }

  lemma {:induction false} NoConfig<C>(rules: seq<Rule<C>>, t: RuleType, parses: C -> bool)
    requires forall j :: 0 <= j < |rules| ==> !Offers(rules[j], t, parses)
    ensures FirstConfig(rules, t, parses) == None
  {
    if rules != [] {
      assert !Offers(rules[0], t, parses);
      NoConfig(rules[1..], t, parses);
    }
  }

  /** Rules that are all active, of the vertical and in ascending order are used as they are stored. */
  lemma {:induction false} RulesForAll<C>(rules: seq<Rule<C>>, v: Vertical)
    requires forall j :: 0 <= j < |rules| ==> rules[j].active && rules[j].vertical == Some(v)
    ensures RulesFor(rules, v) == rules
  {
    if rules != [] {
      assert rules[0].active;
      RulesForAll(rules[1..], v);
      assert rules == [rules[0]] + rules[1..];
    }
  }

  lemma NumberedRulesAreActive<C>(rules: seq<Rule<C>>, v: Vertical)
    requires forall j :: 0 <= j < |rules| ==>
      rules[j].active && rules[j].vertical == Some(v) && rules[j].sortOrder == j + 1
    ensures ActiveRules(rules, v) == rules
  {
    RulesForAll(rules, v);
    SortOfSorted(rules, BySortOrder);
  }

  /**
   Of a tenant's active rules of the vertical that offer a configuration, one with the lowest sort order is used;
   none only if none offers.
   */
  lemma LowestOrderWins<C>(all: seq<Rule<C>>, v: Vertical, t: RuleType, parses: C -> bool)
    ensures match FirstConfig(ActiveRules(all, v), t, parses)
      case None => forall r :: r in all && r.active && r.vertical == Some(v) ==> !Offers(r, t, parses)
      case Some(c) => exists r ::
        && r in all && r.active && r.vertical == Some(v) && Offers(r, t, parses) && r.config == c
        && forall s :: s in all && s.active && s.vertical == Some(v) && Offers(s, t, parses) ==>
          r.sortOrder <= s.sortOrder
  {
    SortByKeeps(RulesFor(all, v), BySortOrder);
    SortByMembers(RulesFor(all, v), BySortOrder);
    FirstConfigIsEarliest(ActiveRules(all, v), t, parses);
    forall r
      ensures r in ActiveRules(all, v) <==> r in all && r.active && r.vertical == Some(v)
    {
      RulesForMembers(all, v, r);
    }
    var found := FirstConfig(ActiveRules(all, v), t, parses);
    if found.Some? {
      var r :| r in ActiveRules(all, v) && Offers(r, t, parses) && r.config == found.value
        && forall s :: s in ActiveRules(all, v) && Offers(s, t, parses) ==> r.sortOrder <= s.sortOrder;
      assert r in all && r.active && r.vertical == Some(v);
    }
  }

  lemma {:induction false} RulesForMembers<C>(rules: seq<Rule<C>>, v: Vertical, r: Rule<C>)
    ensures r in RulesFor(rules, v) <==> r in rules && r.active && r.vertical == Some(v)
  {
    if rules != [] {
      RulesForMembers(rules[1..], v, r);
      assert r in rules <==> r == rules[0] || r in rules[1..];
    }
  }

  lemma {:induction false} RulesForDistinct<C>(rules: seq<Rule<C>>, v: Vertical)
    requires DistinctKeys(rules, BySortOrder)
    ensures DistinctKeys(RulesFor(rules, v), BySortOrder)
  {
    if rules != [] {
      var rest := RulesFor(rules[1..], v);
      RulesForDistinct(rules[1..], v);
      forall i | 0 <= i < |rest|
        ensures BySortOrder(rest[i]) != BySortOrder(rules[0])
      {
        RulesForMembers(rules[1..], v, rest[i]);
        var j :| 0 <= j < |rules[1..]| && rules[1..][j] == rest[i];
        assert rules[j + 1] == rest[i];
      }
    }
  }

  /** With distinct sort orders the order in which the rules are stored does not matter. */
  lemma ActiveRulesOfPermutation<C>(a: seq<Rule<C>>, b: seq<Rule<C>>, v: Vertical)
    requires multiset(a) == multiset(b) && DistinctKeys(a, BySortOrder)
    ensures ActiveRules(a, v) == ActiveRules(b, v)
  {
    DistinctKeysOfPermutation(a, b, BySortOrder);
    RulesForDistinct(a, v);
    RulesForDistinct(b, v);
    forall r
      ensures r in RulesFor(a, v) <==> r in RulesFor(b, v)
    {
      RulesForMembers(a, v, r);
      RulesForMembers(b, v, r);
      assert r in a <==> r in multiset(a);
      assert r in b <==> r in multiset(b);
    }
    SortOfSameMembers(RulesFor(a, v), RulesFor(b, v), BySortOrder);
  }

  // ---------- Catalog ----------

  /** The map from code to active SKU: a later row replaces an earlier one with the same code. */
  function SkuByCode(catalog: seq<Sku>, code: string): Option<Sku> {
    if catalog == [] then None
    else
      var last := |catalog| - 1;
      if catalog[last].active && catalog[last].code == code then Some(catalog[last])
        else SkuByCode(catalog[..last], code)
  }

  /** catalog.find by id, over active and inactive rows alike. */
  function SkuById(catalog: seq<Sku>, id: string): Option<Sku> {
    if catalog == [] then None else if catalog[0].id == id then Some(catalog[0]) else SkuById(catalog[1..], id)
  }

  ghost predicate UniqueSkus(catalog: seq<Sku>) {
    forall i, j :: 0 <= i < j < |catalog| ==> catalog[i].id != catalog[j].id && catalog[i].code != catalog[j].code
  }

  lemma {:induction false} SkuByCodeFinds(catalog: seq<Sku>, code: string)
    ensures SkuByCode(catalog, code).Some? ==>
      SkuByCode(catalog, code).value in catalog && SkuByCode(catalog, code).value.active &&
        SkuByCode(catalog, code).value.code == code
    ensures SkuByCode(catalog, code).None? ==> forall s :: s in catalog && s.active ==> s.code != code
  {
    if catalog != [] {
      var last := |catalog| - 1;
      assert catalog == catalog[..last] + [catalog[last]];
      SkuByCodeFinds(catalog[..last], code);
    }
  }

  lemma {:induction false} SkuByIdFinds(catalog: seq<Sku>, id: string)
    ensures SkuById(catalog, id).Some? ==> SkuById(catalog, id).value in catalog && SkuById(catalog, id).value.id == id
    ensures SkuById(catalog, id).None? ==> forall s :: s in catalog ==> s.id != id
  {
    if catalog != [] {
      assert catalog == [catalog[0]] + catalog[1..];
      SkuByIdFinds(catalog[1..], id);
    }
  }

  lemma SameSku(catalog: seq<Sku>, a: Sku, b: Sku)
    requires UniqueSkus(catalog) && a in catalog && b in catalog && (a.id == b.id || a.code == b.code)
    ensures a == b
  {
    var i :| 0 <= i < |catalog| && catalog[i] == a;
    var j :| 0 <= j < |catalog| && catalog[j] == b;
  }

  lemma UniqueOfPermutation(a: seq<Sku>, b: seq<Sku>)
    requires multiset(a) == multiset(b) && UniqueSkus(a)
    ensures UniqueSkus(b)
  {
    NoDuplicatesOfPermutation(a, b);
    forall i, j | 0 <= i < j < |b|
      ensures b[i].id != b[j].id && b[i].code != b[j].code
    {
      assert b[i] in multiset(a) && b[j] in multiset(a);
      assert b[i] in a && b[j] in a && b[i] != b[j];
      if b[i].id == b[j].id || b[i].code == b[j].code {
        SameSku(a, b[i], b[j]);
      }
    }
  }

  lemma LookupsOfPermutation(a: seq<Sku>, b: seq<Sku>, code: string, id: string)
    requires multiset(a) == multiset(b) && UniqueSkus(a)
    ensures SkuByCode(a, code) == SkuByCode(b, code)
    ensures SkuById(a, id) == SkuById(b, id)
  {
    UniqueOfPermutation(a, b);
    assert forall s :: s in a <==> s in multiset(a);
    assert forall s :: s in b <==> s in multiset(b);
    SkuByCodeFinds(a, code);
    SkuByCodeFinds(b, code);
    SkuByIdFinds(a, id);
    SkuByIdFinds(b, id);
    if SkuByCode(a, code).Some? {
      SameSku(a, SkuByCode(a, code).value, SkuByCode(b, code).value);
    }
    if SkuById(a, id).Some? {
      SameSku(a, SkuById(a, id).value, SkuById(b, id).value);
    }
  }

  // ---------- The SKUs a quote uses ----------

  function RelevantSkus(lines: seq<QuoteLine>, catalog: seq<Sku>): seq<Sku> {
    if lines == [] then []
    else
      (if lines[0].skuId.Some? && SkuById(catalog, lines[0].skuId.value).Some?
       then [SkuById(catalog, lines[0].skuId.value).value] else [])
      + RelevantSkus(lines[1..], catalog)
  }

  predicate AllEuro(skus: seq<Sku>) {
    forall i :: 0 <= i < |skus| ==> skus[i].currency == STRATOS_CURRENCY
  }

  function MaxLeadTime(skus: seq<Sku>): Option<int> {
    if skus == [] then None
    else
      match (skus[0].leadTimeDays, MaxLeadTime(skus[1..]))
      case (None, rest) => rest
      case (Some(d), None) => Some(d)
      case (Some(d), Some(e)) => Some(if d >= e then d else e)
  }

  /** The quote takes as long as its slowest SKU; None when none of them says. */
  lemma {:induction false} SlowestSkuDecides(skus: seq<Sku>)
    ensures match MaxLeadTime(skus)
      case None => forall s :: s in skus ==> s.leadTimeDays.None?
      case Some(d) =>
        && (exists s :: s in skus && s.leadTimeDays == Some(d))
        && forall s :: s in skus && s.leadTimeDays.Some? ==> s.leadTimeDays.value <= d
  {
    if skus != [] {
      SlowestSkuDecides(skus[1..]);
      assert skus == [skus[0]] + skus[1..];
    }
  }

  lemma {:induction false} RelevantSkuOf(lines: seq<QuoteLine>, catalog: seq<Sku>, l: QuoteLine)
    requires l in lines && l.skuId.Some? && SkuById(catalog, l.skuId.value).Some?
    ensures SkuById(catalog, l.skuId.value).value in RelevantSkus(lines, catalog)
  {
    if l != lines[0] {
      RelevantSkuOf(lines[1..], catalog, l);
    }
  }

  lemma {:induction false} RelevantOfPermutation(lines: seq<QuoteLine>, a: seq<Sku>, b: seq<Sku>)
    requires multiset(a) == multiset(b) && UniqueSkus(a)
    ensures RelevantSkus(lines, a) == RelevantSkus(lines, b)
  {
    if lines != [] {
      RelevantOfPermutation(lines[1..], a, b);
      if lines[0].skuId.Some? {
        LookupsOfPermutation(a, b, "", lines[0].skuId.value);
      }
    }
  }

  ghost predicate SameLookups(a: seq<Sku>, b: seq<Sku>) {
    forall code: string :: SkuByCode(a, code) == SkuByCode(b, code)
  }

  lemma SameLookupsOfPermutation(a: seq<Sku>, b: seq<Sku>)
    requires multiset(a) == multiset(b) && UniqueSkus(a)
    ensures SameLookups(a, b)
  {
    forall code: string
      ensures SkuByCode(a, code) == SkuByCode(b, code)
    {
      LookupsOfPermutation(a, b, code, "");
    }
  }

  // ---------- Sound lines ----------

  ghost predicate ActiveRow(s: Sku, id: string, catalog: seq<Sku>) {
    s in catalog && s.active && s.id == id
  }

  /** A line costs nothing negative, and one with a SKU names an active catalog row. */
  ghost predicate Sound(l: QuoteLine, catalog: seq<Sku>) {
    0.0 <= l.amountMinor && (l.skuId.Some? ==> exists s :: ActiveRow(s, l.skuId.value, catalog))
  }

  ghost predicate AllSound(lines: seq<QuoteLine>, catalog: seq<Sku>) {
    forall i :: 0 <= i < |lines| ==> Sound(lines[i], catalog)
  }

  lemma UnitLineIsSound(catalog: seq<Sku>, sku: Sku, description: string, quantity: real, kind: Kind)
    requires ActiveRow(sku, sku.id, catalog) && 0 <= sku.basePriceMinor && 0.0 <= quantity
    ensures Sound(CatalogDraft(sku, description, quantity, kind), catalog)
  {
    ProductNonNegative(sku.basePriceMinor as real, quantity);
  }

  lemma {:induction false} SoundTotal(lines: seq<QuoteLine>, catalog: seq<Sku>)
    requires AllSound(lines, catalog)
    ensures 0.0 <= Total(lines)
  {
    if lines != [] {
      assert Sound(lines[0], catalog);
      SoundTotal(lines[1..], catalog);
    }
  }

  lemma SoundConcat(a: seq<QuoteLine>, b: seq<QuoteLine>, catalog: seq<Sku>)
    requires AllSound(a, catalog) && AllSound(b, catalog)
    ensures AllSound(a + b, catalog)
  {
  }

  lemma PercentNonNegative(amount: real, pct: real)
    requires 0.0 <= amount && 0.0 <= pct
    ensures 0 <= PercentOf(amount, pct)
  {
    ProductNonNegative(amount, pct);
    RoundNonNegative(amount * pct / 100.0);
  }

  lemma NumberedRows(sound: seq<QuoteLine>, free: seq<QuoteLine>, catalog: seq<Sku>)
    requires AllSound(sound, catalog) && forall i :: 0 <= i < |free| ==> free[i].skuId.None?
    ensures forall l :: l in Numbered(sound + free) && l.skuId.Some? ==>
      exists s :: ActiveRow(s, l.skuId.value, catalog)
  {
    forall i | 0 <= i < |sound + free|
      ensures (sound + free)[i].skuId.Some? ==> exists s :: ActiveRow(s, (sound + free)[i].skuId.value, catalog)
    {
      if i < |sound| {
        assert Sound(sound[i], catalog);
      }
    }
  }

  /** With unique ids, a line's active row is the one the currency check looks at. */
  lemma EuroRow(lines: seq<QuoteLine>, catalog: seq<Sku>, l: QuoteLine)
    requires UniqueSkus(catalog) && AllEuro(RelevantSkus(lines, catalog))
    requires l in lines && l.skuId.Some? && exists s :: ActiveRow(s, l.skuId.value, catalog)
    ensures exists s :: ActiveRow(s, l.skuId.value, catalog) && s.currency == STRATOS_CURRENCY
  {
    var s :| ActiveRow(s, l.skuId.value, catalog);
    SkuByIdFinds(catalog, l.skuId.value);
    SameSku(catalog, s, SkuById(catalog, l.skuId.value).value);
    RelevantSkuOf(lines, catalog, l);
  }

  // ---------- Missing rules ----------

  function Unless(present: bool, name: string): seq<string> {
    if present then [] else [name]
  }

  /** What a pricing step pushes: quote lines still without a position, and the names of what is missing. */
  datatype Part = Part(drafts: seq<QuoteLine>, missing: seq<string>)

  const NOTHING := Part([], [])

  function Joined(a: Part, b: Part): Part {
    Part(a.drafts + b.drafts, a.missing + b.missing)
  }

  function PercentOf(amount: real, pct: real): int {
    Round(amount * pct / 100.0)
  }

  function Absent(code: string): Part {
    Part([], ["catalog." + code])
  }

  lemma PartSum(a: Part, b: Part, f: QuoteLine -> real)
    ensures SumBy(Joined(a, b).drafts, f) == SumBy(a.drafts, f) + SumBy(b.drafts, f)
  {
    SumByConcat(a.drafts, b.drafts, f);
  }

  lemma JoinedIsAssociative(a: Part, b: Part, c: Part)
    ensures Joined(Joined(a, b), c) == Joined(a, Joined(b, c))
  {
    assert a.drafts + b.drafts + c.drafts == a.drafts + (b.drafts + c.drafts);
    assert a.missing + b.missing + c.missing == a.missing + (b.missing + c.missing);
  }

  /** The two arrays and the counter an engine pushes to; requireSku pushes to them too. */
  class Sheet {
    var lines: seq<QuoteLine>
    var missingRules: seq<string>
    var position: int
    ghost var pushed: Part

    constructor ()
      ensures Valid() && pushed == NOTHING
    {
      lines, missingRules, position := [], [], 1;
      pushed := NOTHING;
    }

    ghost predicate Valid()
      reads this
    {
      && lines == Numbered(pushed.drafts)
      && missingRules == pushed.missing
      && position == |lines| + 1
    }

    method Push(draft: QuoteLine)
      requires Valid()
      modifies this
      ensures Valid() && pushed == Joined(old(pushed), Part([draft], []))
    {
      NumberedPush(pushed.drafts, draft);
      lines := lines + [draft.(position := position)];
      position := position + 1;
      pushed := Joined(pushed, Part([draft], []));
    }

    method Miss(name: string)
      requires Valid()
      modifies this
      ensures Valid() && pushed == Joined(old(pushed), Part([], [name]))
    {
      missingRules := missingRules + [name];
      pushed := Joined(pushed, Part([], [name]));
    }

    method MissUnless(present: bool, name: string)
      requires Valid()
      modifies this
      ensures Valid() && pushed == Joined(old(pushed), Part([], Unless(present, name)))
    {
      if !present {
        Miss(name);
      }
    }

    /** An unknown or inactive code is recorded as missing. */
    method RequireSku(code: string, catalog: seq<Sku>) returns (sku: Option<Sku>)
      requires Valid()
      modifies this
      ensures Valid() && sku == SkuByCode(catalog, code)
      ensures pushed == Joined(old(pushed), if sku.None? then Absent(code) else NOTHING)
    {
      sku := SkuByCode(catalog, code);
      if sku.None? {
        Miss("catalog." + code);
      }
    }
  }
}
