/**
 The seven nodes of the quoting pipeline over one request's stored data, and the proof that together they are what
 crash recovery asks for. Each node reads and writes its own part of the store through the model of that node.
 */
module QuotingPipeline {
  import opened Pipeline
  import opened Recovery
  import opened StableSort
  import opened Wrappers
  import ExtractNode
  import MatchNode
  import PolicyFlags
  import PolicyGate
  import QuotePricing
  import Recompute
  import RecomputeAgain

  datatype ParseStatus = UNREAD | PARSED | UNPARSED | MANUAL_PASTE

  datatype Attachment = Attachment(
    file: string, status: ParseStatus, rawText: Option<string>, parsedText: Option<string>, reason: Option<string>)

  datatype LineRow = LineRow(
    id: string, position: int, rawText: string, quantity: Option<real>, unit: string, matchedSku: Option<string>,
    confidence: Option<real>, matchMethod: Option<MatchNode.Method>, tie: Option<(real, real)>,
    candidates: seq<MatchNode.CandidateRow>, unitPriceMinor: Option<int>, leadTimeDays: Option<int>, flags: seq<string>)

  /** One request: `found` tells whether its row exists, `rows` are its line items by position. */
  datatype Store = Store(
    found: bool, subject: Option<string>, body: Option<string>, attachments: seq<Attachment>,
    extraction: Option<ExtractNode.ExtractionRow>, facts: Option<ExtractNode.Extracted>,
    requestType: Option<(string, real)>, rows: seq<LineRow>, quote: Option<Recompute.Quote>,
    routing: Option<Routing>, overallConfidence: Option<real>)

  datatype CatalogSku = CatalogSku(sku: Recompute.Sku, costMinor: Option<int>)

  datatype Scoring = Scoring(
    autoThreshold: real, unmatchedFloor: real, policyFlagPenalty: real, dealValuePenalty: real,
    sendCapMinor: Option<int>)

  /**
   What the nodes ask of the world, as functions of what they pass on: the files, the model, the catalog, the rules.
   `vertical` is the AVAC or window pricing of a stored answer: None if it is neither, no quote when blocked.
   */
  datatype Services = Services(
    read: string -> Result<string, string>,
    trim: string -> string,
    extractor: ExtractNode.Extractor,
    newId: nat -> string,
    classify: (Option<ExtractNode.Extracted>, string, seq<LineRow>) -> (string, real),
    search: MatchNode.Search,
    catalog: map<string, CatalogSku>,
    pricing: QuotePricing.RuleSet,
    vertical: ExtractNode.RawJson -> Option<Option<Recompute.Quote>>,
    policy: PolicyGate.RuleSet,
    scoring: Scoring)

  // ---------- PARSE ----------

  predicate Unreadable(v: Services, a: Attachment) {
    !a.status.MANUAL_PASTE? && v.read(a.file).Err?
  }

  function Read(v: Services, a: Attachment): Attachment {
    if a.status.MANUAL_PASTE? then a
    else
      match v.read(a.file)
      case Ok(text) => a.(parsedText := Some(text), status := PARSED, reason := None)
      case Err(reason) => a.(status := UNPARSED, reason := Some(reason))
  }

  /** The attachments the node gets to: up to and including the first it cannot read. */
  function Reached(v: Services, attachments: seq<Attachment>): (n: nat)
    ensures n <= |attachments|
  {
    if attachments == [] then 0
    else if Unreadable(v, attachments[0]) then 1
    else 1 + Reached(v, attachments[1..])
  }

  predicate AnyUnreadable(v: Services, attachments: seq<Attachment>) {
    exists a :: a in attachments && Unreadable(v, a)
  }

  function ReadFirst(v: Services, attachments: seq<Attachment>, n: nat): seq<Attachment> {
    seq(|attachments|, i requires 0 <= i < |attachments| => if i < n then Read(v, attachments[i]) else attachments[i])
  }

  function Parse(v: Services, s: Store): Effect<Store> {
    if !s.found then Effect(s, NodeFailed, None)
    else
      Effect(s.(attachments := ReadFirst(v, s.attachments, Reached(v, s.attachments))),
             if AnyUnreadable(v, s.attachments) then Clarify else Advance(EXTRACT), None)
  }

  /** Attachments are written one by one, for a request that exists. */
  ghost predicate ParseTorn(v: Services, s: Store, torn: Store) {
    exists n :: 0 <= n <= (if s.found then Reached(v, s.attachments) else 0) &&
      torn == s.(attachments := ReadFirst(v, s.attachments, n))
  }

  // ---------- EXTRACT ----------

  function Part(text: string): seq<string> {
    if text == "" then [] else [text]
  }

  function Trimmed(v: Services, text: Option<string>): string {
    if text.Some? then v.trim(text.value) else ""
  }

  function TextOf(v: Services, a: Attachment): string {
    Trimmed(v, if a.status.MANUAL_PASTE? then a.rawText else a.parsedText)
  }

  function AttachmentParts(v: Services, attachments: seq<Attachment>): seq<string> {
    if attachments == [] then [] else Part(TextOf(v, attachments[0])) + AttachmentParts(v, attachments[1..])
  }

  function Joined(parts: seq<string>): string {
    if parts == [] then "" else if |parts| == 1 then parts[0] else parts[0] + "\n\n" + Joined(parts[1..])
  }

  function SourceText(v: Services, s: Store): string {
    Joined(Part(Trimmed(v, s.subject)) + Part(Trimmed(v, s.body)) + AttachmentParts(v, s.attachments))
  }

  function ExtractView(v: Services, s: Store): ExtractNode.Stored {
    ExtractNode.Stored(s.found, SourceText(v, s), s.extraction, [], s.facts)
  }

  predicate HasValidExtraction(s: Store) {
    s.extraction.Some? && s.extraction.value.schemaValid
  }

  function NewRow(id: string, item: ExtractNode.LineItem): LineRow {
    LineRow(id, item.position, item.rawText, Some(item.quantity), item.unit, None, None, None, None, [], None, None, [])
  }

  function RowPosition(r: LineRow): real {
    r.position as real
  }

  /** The rows that replace the request's lines, as they are read back in position order. */
  function NewRows(v: Services, items: seq<ExtractNode.LineItem>): seq<LineRow> {
    SortBy(seq(|items|, i requires 0 <= i < |items| => NewRow(v.newId(i), items[i])), RowPosition)
  }

  function Extract(v: Services, s: Store): Effect<Store> {
    var e := ExtractNode.Extract(v.extractor, v.trim, ExtractView(v, s));
    var isNew := !HasValidExtraction(s) && ExtractNode.IsValid(e.store);
    Effect(s.(extraction := e.store.extraction, facts := e.store.facts,
              rows := if isNew then NewRows(v, e.store.lineItems) else s.rows),
           e.outcome, e.wrote)
  }

  // ---------- CLASSIFY ----------

  function Description(s: Store): string {
    if s.body.Some? then s.body.value else if s.subject.Some? then s.subject.value else ""
  }

  /** Writes the next checkpoint together with the classification. */
  function Classify(v: Services, s: Store): Effect<Store> {
    if !s.found then Effect(s, NodeFailed, None)
    else Effect(s.(requestType := Some(v.classify(s.facts, Description(s), s.rows))), Advance(MATCH), Some(MATCH))
  }

  // ---------- MATCH ----------

  function MatchView(r: LineRow): MatchNode.Line {
    MatchNode.Line(r.id, r.rawText, r.matchedSku, r.confidence, r.matchMethod, r.flags, r.tie, r.candidates)
  }

  function MatchRow(v: Services, r: LineRow): LineRow {
    var l := MatchNode.Matched(v.search, MatchView(r));
    r.(matchedSku := l.matchedSku, confidence := l.confidence, matchMethod := l.matchMethod, flags := l.flags,
       tie := l.tie, candidates := l.candidates)
  }

  function MatchFirst(v: Services, rows: seq<LineRow>, n: nat): seq<LineRow> {
    seq(|rows|, i requires 0 <= i < |rows| => if i < n then MatchRow(v, rows[i]) else rows[i])
  }

  function Match(v: Services, s: Store): Effect<Store> {
    Effect(s.(rows := MatchFirst(v, s.rows, |s.rows|)), Advance(PRICE), None)
  }

  /** Lines are matched one transaction each. */
  ghost predicate MatchTorn(v: Services, s: Store, torn: Store) {
    exists n :: 0 <= n <= |s.rows| && torn == s.(rows := MatchFirst(v, s.rows, n))
  }

  // ---------- PRICE ----------

  function SkuOf(v: Services, r: LineRow): Option<CatalogSku> {
    if r.matchedSku.Some? && r.matchedSku.value in v.catalog then Some(v.catalog[r.matchedSku.value]) else None
  }

  function PriceView(v: Services, r: LineRow): Recompute.LineItem {
    var sku := SkuOf(v, r);
    Recompute.LineItem(r.id, r.position, r.quantity, if sku.Some? then Some(sku.value.sku) else None,
                       r.unitPriceMinor, r.leadTimeDays, r.flags)
  }

  function PriceLines(v: Services, rows: seq<LineRow>): seq<Recompute.LineItem> {
    seq(|rows|, i requires 0 <= i < |rows| => PriceView(v, rows[i]))
  }

  function WithPricing(r: LineRow, li: Recompute.LineItem): LineRow {
    r.(unitPriceMinor := li.unitPriceMinor, leadTimeDays := li.leadTimeDays, flags := li.flags)
  }

  function WithPrices(rows: seq<LineRow>, lines: seq<Recompute.LineItem>): seq<LineRow>
    requires |rows| == |lines|
  {
    seq(|rows|, i requires 0 <= i < |rows| => WithPricing(rows[i], lines[i]))
  }

  function VerticalQuote(v: Services, s: Store): Option<Option<Recompute.Quote>> {
    if s.extraction.Some? then v.vertical(s.extraction.value.rawJson) else None
  }

  function PriceFromLines(v: Services, s: Store): Store {
    var after := Recompute.NodeAfter(Recompute.Stored(PriceLines(v, s.rows), s.quote), v.pricing);
    s.(rows := WithPrices(s.rows, after.lines), quote := after.quote)
  }

  function Priced(v: Services, s: Store): Store {
    match VerticalQuote(v, s)
    case Some(quote) => s.(quote := quote)
    case None => PriceFromLines(v, s)
  }

  function Price(v: Services, s: Store): Effect<Store> {
    Effect(Priced(v, s), Advance(POLICY), None)
  }

  // ---------- POLICY ----------

  predicate IsGated(v: Services, r: LineRow) {
    SkuOf(v, r).Some? && r.unitPriceMinor.Some?
  }

  function GateInput(v: Services, r: LineRow): PolicyGate.LineInput
    requires IsGated(v, r)
  {
    var sku := SkuOf(v, r).value;
    PolicyGate.LineInput(r.id, sku.sku.basePriceMinor, r.unitPriceMinor.value, sku.costMinor)
  }

  function GateInputs(v: Services, rows: seq<LineRow>): seq<PolicyGate.LineInput> {
    if rows == [] then []
    else (if IsGated(v, rows[0]) then [GateInput(v, rows[0])] else []) + GateInputs(v, rows[1..])
  }

  /** Without a priced line there is nothing to hold against the rules. */
  function Findings(v: Services, rows: seq<LineRow>): PolicyGate.Evaluation {
    var inputs := GateInputs(v, rows);
    if inputs != [] then PolicyGate.EvaluationOf(inputs, v.policy) else PolicyGate.Evaluation(false, false, [], [])
  }

  function Flagged(e: PolicyGate.Evaluation, r: LineRow): LineRow {
    r.(flags := PolicyFlags.Reconciled(PolicyFlags.Line(r.id, r.flags), e).flags)
  }

  function FlaggedAll(e: PolicyGate.Evaluation, rows: seq<LineRow>): seq<LineRow> {
    seq(|rows|, i requires 0 <= i < |rows| => Flagged(e, rows[i]))
  }

  function Policy(v: Services, s: Store): Effect<Store> {
    Effect(s.(rows := FlaggedAll(Findings(v, s.rows), s.rows)), Advance(SCORE), None)
  }

  // ---------- SCORE ----------

  predicate IsHard(flag: string) {
    flag == Recompute.PRICING_BLOCKED_FLAG || PolicyFlags.IsManaged(flag)
  }

  predicate AnyHard(rows: seq<LineRow>) {
    exists i, f :: 0 <= i < |rows| && f in rows[i].flags && IsHard(f)
  }

  function Lower(a: real, b: real): real {
    if a <= b then a else b
  }

  function Confidence(c: Scoring, r: LineRow): real {
    if r.confidence.Some? then r.confidence.value else c.unmatchedFloor
  }

  function LowestConfidence(c: Scoring, rows: seq<LineRow>): real
    requires rows != []
  {
    var first := Confidence(c, rows[0]);
    if |rows| == 1 then first else Lower(first, LowestConfidence(c, rows[1..]))
  }

  function LineFactor(c: Scoring, rows: seq<LineRow>): real
    requires rows != []
  {
    var lowest := Lower(1.0, LowestConfidence(c, rows));
    if lowest < 0.0 then 0.0 else lowest
  }

  predicate AnyFlag(rows: seq<LineRow>) {
    exists i, f :: 0 <= i < |rows| && f in rows[i].flags && f != MatchNode.CLOSE_TIE_FLAG
  }

  function FlagFactor(c: Scoring, rows: seq<LineRow>): real {
    if AnyFlag(rows) then c.policyFlagPenalty else 1.0
  }

  predicate IsIncomplete(rows: seq<LineRow>) {
    exists i :: 0 <= i < |rows| && (rows[i].unitPriceMinor.None? || rows[i].quantity.None?)
  }

  function DealValue(rows: seq<LineRow>): real
    requires !IsIncomplete(rows)
  {
    if rows == [] then 0.0
    else
      assert !IsIncomplete(rows[1..]) by {
        assert forall i :: 0 <= i < |rows[1..]| ==> rows[1..][i] == rows[i + 1];
      }
      rows[0].unitPriceMinor.value as real * rows[0].quantity.value + DealValue(rows[1..])
  }

  function DealFactor(c: Scoring, rows: seq<LineRow>): real {
    if c.sendCapMinor.None? then 1.0
    else if IsIncomplete(rows) || DealValue(rows) > c.sendCapMinor.value as real then c.dealValuePenalty
    else 1.0
  }

  function Score(v: Services, s: Store): Effect<Store> {
    if !s.found then Effect(s, NodeFailed, None)
    else
      var (routing, confidence) := Routed(v.scoring, s);
      Effect(s.(routing := Some(routing), overallConfidence := Some(confidence)), Advance(DONE), Some(DONE))
  }

  /** The confidence routes, unless a hard flag of the price or policy node forces a review. */
  function Routed(c: Scoring, s: Store): (Routing, real) {
    if !HasValidExtraction(s) || s.rows == [] then (REVIEW, 0.0)
    else
      var confidence := Lower(LineFactor(c, s.rows), Lower(FlagFactor(c, s.rows), DealFactor(c, s.rows)));
      (if confidence >= c.autoThreshold && !AnyHard(s.rows) then AUTO_ELIGIBLE else REVIEW, confidence)
  }

  // ---------- The graph ----------

  ghost function NodeOf(v: Services, n: Node): NodeImpl<Store>
    requires n != DONE && n != FAILED
  {
    match n
    case PARSE => NodeImpl(s => Parse(v, s), (s, t) => ParseTorn(v, s, t))
    case EXTRACT => NodeImpl(s => Extract(v, s), (s, t) => t == s)
    case CLASSIFY => NodeImpl(s => Classify(v, s), (s, t) => t == s)
    case MATCH => NodeImpl(s => Match(v, s), (s, t) => MatchTorn(v, s, t))
    case PRICE => NodeImpl(s => Price(v, s), (s, t) => t == s)
    case POLICY => NodeImpl(s => Policy(v, s), (s, t) => t == s)
    case SCORE => NodeImpl(s => Score(v, s), (s, t) => t == s)
  }

  ghost function QuotingGraph(v: Services): Graph<Store> {
    Graph(map n: Node | n != DONE && n != FAILED :: NodeOf(v, n), (s: Store) => s.routing, s => HasValidExtraction(s))
  }

  // ---------- Each node can be run again ----------

  lemma ReadTwice(v: Services, a: Attachment)
    ensures Read(v, Read(v, a)) == Read(v, a)
    ensures Unreadable(v, Read(v, a)) == Unreadable(v, a)
  {
  }

  lemma {:induction false} ReachedAgain(v: Services, a: seq<Attachment>, n: nat)
    ensures Reached(v, ReadFirst(v, a, n)) == Reached(v, a)
    ensures AnyUnreadable(v, ReadFirst(v, a, n)) == AnyUnreadable(v, a)
    decreases |a|
  {
    var b := ReadFirst(v, a, n);
    forall i | 0 <= i < |a|
      ensures Unreadable(v, b[i]) == Unreadable(v, a[i])
    {
      ReadTwice(v, a[i]);
    }
    if AnyUnreadable(v, a) {
      var i :| 0 <= i < |a| && Unreadable(v, a[i]);
      assert b[i] in b;
    }
    if a != [] {
      var m := if n > 0 then n - 1 else 0;
      assert b[1..] == ReadFirst(v, a[1..], m);
      ReachedAgain(v, a[1..], m);
    }
  }

  lemma ReadRest(v: Services, a: seq<Attachment>, n: nat, all: nat)
    requires n <= all
    ensures ReadFirst(v, ReadFirst(v, a, n), all) == ReadFirst(v, a, all)
  {
    forall i | 0 <= i < |a|
      ensures ReadFirst(v, ReadFirst(v, a, n), all)[i] == ReadFirst(v, a, all)[i]
    {
      ReadTwice(v, a[i]);
    }
  }

  lemma ParseAgain(v: Services, s: Store, n: nat)
    requires s.found && n <= Reached(v, s.attachments)
    ensures Parse(v, s.(attachments := ReadFirst(v, s.attachments, n))) == Parse(v, s)
  {
    var torn := s.(attachments := ReadFirst(v, s.attachments, n));
    ReachedAgain(v, s.attachments, n);
    ReadRest(v, s.attachments, n, Reached(v, s.attachments));
    assert Parse(v, torn).store.attachments == Parse(v, s).store.attachments;
  }

  lemma ExtractAgain(v: Services, s: Store)
    ensures Extract(v, Extract(v, s).store) == Extract(v, s)
  {
    var first := Extract(v, s).store;
    assert SourceText(v, first) == SourceText(v, s);
    ExtractNode.ExtractedTwiceIsExtractedOnce(v.extractor, v.trim, ExtractView(v, s));
  }

  lemma MatchRowAgain(v: Services, r: LineRow)
    ensures MatchRow(v, MatchRow(v, r)) == MatchRow(v, r)
  {
    MatchNode.MatchedTwiceIsMatchedOnce(v.search, MatchView(r));
    assert MatchView(MatchRow(v, r)) == MatchNode.Matched(v.search, MatchView(r));
  }

  lemma MatchAgain(v: Services, s: Store, n: nat)
    ensures Match(v, s.(rows := MatchFirst(v, s.rows, n))) == Match(v, s)
  {
    var torn := MatchFirst(v, s.rows, n);
    forall i | 0 <= i < |s.rows|
      ensures MatchRow(v, torn[i]) == MatchRow(v, s.rows[i])
    {
      MatchRowAgain(v, s.rows[i]);
    }
    assert MatchFirst(v, torn, |torn|) == MatchFirst(v, s.rows, |s.rows|);
  }

  /** What the price node leaves on the rows is what it leaves on its own view of them. */
  lemma PriceViewAfter(v: Services, s: Store)
    ensures PriceLines(v, PriceFromLines(v, s).rows) ==
      Recompute.NodeAfter(Recompute.Stored(PriceLines(v, s.rows), s.quote), v.pricing).lines
  {
  }

  lemma SamePricesSameRows(rows: seq<LineRow>, lines: seq<Recompute.LineItem>)
    requires |rows| == |lines|
    ensures WithPrices(WithPrices(rows, lines), lines) == WithPrices(rows, lines)
  {
  }

  lemma PriceAgain(v: Services, s: Store)
    ensures Price(v, Price(v, s).store) == Price(v, s)
  {
    if VerticalQuote(v, s).None? {
      var view := Recompute.Stored(PriceLines(v, s.rows), s.quote);
      var after := Recompute.NodeAfter(view, v.pricing);
      RecomputeAgain.NodeTwiceIsOnce(view, v.pricing);
      PriceViewAfter(v, s);
      SamePricesSameRows(s.rows, after.lines);
    }
  }

  lemma {:induction false} FlagsLeaveInputs(v: Services, e: PolicyGate.Evaluation, rows: seq<LineRow>)
    ensures GateInputs(v, FlaggedAll(e, rows)) == GateInputs(v, rows)
  {
    hide Flagged, IsGated, GateInput;
    if rows != [] {
      FlagsLeaveInputs(v, e, rows[1..]);
      FlagsLeaveInput(v, e, rows[0]);
      assert FlaggedAll(e, rows)[0] == Flagged(e, rows[0]);
      assert FlaggedAll(e, rows)[1..] == FlaggedAll(e, rows[1..]);
    }
  }

  lemma FlagsLeaveInput(v: Services, e: PolicyGate.Evaluation, r: LineRow)
    ensures IsGated(v, Flagged(e, r)) <==> IsGated(v, r)
    ensures IsGated(v, r) ==> GateInput(v, Flagged(e, r)) == GateInput(v, r)
  {
  }

  lemma FlaggedTwice(e: PolicyGate.Evaluation, r: LineRow)
    ensures Flagged(e, Flagged(e, r)) == Flagged(e, r)
  {
    PolicyFlags.SecondPassIsSame(PolicyFlags.Line(r.id, r.flags), e);
  }

  lemma PolicyAgain(v: Services, s: Store)
    ensures Policy(v, Policy(v, s).store) == Policy(v, s)
  {
    var e := Findings(v, s.rows);
    FlagsLeaveInputs(v, e, s.rows);
    forall i | 0 <= i < |s.rows|
      ensures Flagged(e, Flagged(e, s.rows[i])) == Flagged(e, s.rows[i])
    {
      FlaggedTwice(e, s.rows[i]);
    }
    assert FlaggedAll(e, FlaggedAll(e, s.rows)) == FlaggedAll(e, s.rows);
  }

  lemma NodeIsRerunnable(v: Services, n: Node)
    requires n != DONE && n != FAILED
    ensures Rerunnable(NodeOf(v, n))
  {
    var node := NodeOf(v, n);
    forall s
      ensures node.run(node.run(s).store) == node.run(s)
    {
      RunAgain(v, n, s);
    }
    forall s, t | node.torn(s, t)
      ensures node.run(t) == node.run(s)
    {
      if n == PARSE {
        var k :| 0 <= k <= (if s.found then Reached(v, s.attachments) else 0) &&
          t == s.(attachments := ReadFirst(v, s.attachments, k));
        if s.found {
          ParseAgain(v, s, k);
        } else {
          assert t.attachments == s.attachments;
        }
      } else if n == MATCH {
        var k :| 0 <= k <= |s.rows| && t == s.(rows := MatchFirst(v, s.rows, k));
        MatchAgain(v, s, k);
      }
    }
  }

  lemma RunAgain(v: Services, n: Node, s: Store)
    requires n != DONE && n != FAILED
    ensures var node := NodeOf(v, n); node.run(node.run(s).store) == node.run(s)
  {
    match n
    case PARSE => if s.found { ParseAgain(v, s, Reached(v, s.attachments)); }
    case EXTRACT => ExtractAgain(v, s);
    case CLASSIFY =>
    case MATCH => MatchAgain(v, s, |s.rows|);
    case PRICE => PriceAgain(v, s);
    case POLICY => PolicyAgain(v, s);
    case SCORE =>
  }

  lemma ExtractionStays(v: Services, n: Node, s: Store)
    requires n != DONE && n != FAILED && HasValidExtraction(s)
    ensures HasValidExtraction(NodeOf(v, n).run(s).store)
    ensures n == EXTRACT ==> NodeOf(v, n).run(s) == Effect(s, Advance(CLASSIFY), None)
  {
  }

  lemma TornKeepsExtraction(v: Services, n: Node, s: Store, t: Store)
    requires n != DONE && n != FAILED && HasValidExtraction(s) && NodeOf(v, n).torn(s, t)
    ensures HasValidExtraction(t)
  {
  }

  lemma SkippingIsSound(v: Services)
    ensures SkipIsSound(QuotingGraph(v))
  {
    var g := QuotingGraph(v);
    assert forall n :: n in g.nodes ==> g.nodes[n] == NodeOf(v, n);
    forall n, s | n in g.nodes && g.extracted(s)
      ensures g.extracted(g.nodes[n].run(s).store)
      ensures n == EXTRACT ==> g.nodes[n].run(s) == Effect(s, Advance(CLASSIFY), None)
    {
      ExtractionStays(v, n, s);
    }
    forall s, t, n | g.extracted(s) && n in g.nodes && g.nodes[n].torn(s, t)
      ensures g.extracted(t)
    {
      TornKeepsExtraction(v, n, s, t);
    }
  }

  /** The pipeline the application registers meets every hypothesis of the recovery theorem. */
  lemma QuotingIsRecoverable(v: Services)
    ensures Recoverable(QuotingGraph(v))
  {
    var g := QuotingGraph(v);
    forall n | n in g.nodes
      ensures Rerunnable(g.nodes[n])
    {
      NodeIsRerunnable(v, n);
    }
    SkippingIsSound(v);
  }
}
