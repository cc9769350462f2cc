/**
 What the nodes of the quoting pipeline do to a request, told by the request: which attachments are read, what the model
 gets to see, how lines are matched and priced, and how much confidence the score leaves.
 */
module QuotingNodes {
  import opened Pipeline
  import opened QuotingPipeline
  import opened Recovery
  import opened StableSort
  import opened Sums
  import opened Wrappers
  import ExtractNode
  import MatchNode
  import QuotePricing
  import Recompute
  import RecomputeFigures

  // ---------- PARSE ----------

  /** The node stops here: the attachment was not pasted by hand and its file cannot be read. */
  ghost predicate Stops(v: Services, a: Attachment) {
    a.status != MANUAL_PASTE && v.read(a.file).Err?
  }

  /** What reading an attachment leaves: its text, or the reason there is none. */
  ghost predicate IsRead(v: Services, before: Attachment, after: Attachment) {
    && after.file == before.file && after.rawText == before.rawText
    && match v.read(before.file)
       case Ok(text) => after.status == PARSED && after.parsedText == Some(text) && after.reason.None?
       case Err(reason) =>
         after.status == UNPARSED && after.reason == Some(reason) && after.parsedText == before.parsedText
  }

  lemma {:induction false} ReachedUpTo(v: Services, attachments: seq<Attachment>, i: nat)
    requires i < |attachments|
    ensures i < Reached(v, attachments) <==> forall j :: 0 <= j < i ==> !Stops(v, attachments[j])
  {
    if !Unreadable(v, attachments[0]) && i > 0 {
      ReachedUpTo(v, attachments[1..], i - 1);
      assert forall j :: 0 < j < i ==> attachments[j] == attachments[1..][j - 1];
      if forall j :: 0 <= j < i - 1 ==> !Stops(v, attachments[1..][j]) {
        assert forall j :: 0 < j < i ==> !Stops(v, attachments[j]);
      }
      if forall j :: 0 <= j < i ==> !Stops(v, attachments[j]) {
        assert forall j :: 0 <= j < i - 1 ==> attachments[1..][j] == attachments[j + 1];
      }
    }
  }

  lemma OneAttachment(v: Services, attachments: seq<Attachment>, i: nat)
    requires i < |attachments|
    ensures var before, after := attachments[i], ReadFirst(v, attachments, Reached(v, attachments))[i];
      if before.status == MANUAL_PASTE || exists j :: 0 <= j < i && Stops(v, attachments[j])
      then after == before else IsRead(v, before, after)
  {
    hide Reached;
    ReachedUpTo(v, attachments, i);
  }

  /**
   The attachments are read one after the other up to the first that cannot be, which asks for clarification; pasted
   ones and those behind it are left alone, and so is everything else.
   */
  lemma ParseReadsTheAttachments(v: Services, s: Store)
    ensures var e := Parse(v, s);
      && e.store == s.(attachments := e.store.attachments) && |e.store.attachments| == |s.attachments|
      && e.wrote.None?
      && if !s.found then e.outcome == NodeFailed && e.store == s
         else
           && e.outcome == (if exists a :: a in s.attachments && Stops(v, a) then Clarify else Advance(EXTRACT))
           && forall i :: 0 <= i < |s.attachments| ==>
                var before, after := s.attachments[i], e.store.attachments[i];
                if before.status == MANUAL_PASTE || exists j :: 0 <= j < i && Stops(v, s.attachments[j])
                then after == before else IsRead(v, before, after)
  {
    hide IsRead, Reached;
    forall i | 0 <= i < |s.attachments|
      ensures var before, after := s.attachments[i], ReadFirst(v, s.attachments, Reached(v, s.attachments))[i];
        if before.status == MANUAL_PASTE || exists j :: 0 <= j < i && Stops(v, s.attachments[j])
        then after == before else IsRead(v, before, after)
    {
      OneAttachment(v, s.attachments, i);
    }
  }

  // ---------- EXTRACT ----------

  ghost predicate Within(text: string, before: string, part: string, after: string) {
    text == before + part + after
  }

  /** The text holds the part, whole. */
  ghost predicate Holds(text: string, part: string) {
    exists before, after :: Within(text, before, part, after)
  }

  lemma {:induction false} JoinedHolds(parts: seq<string>, i: nat)
    requires i < |parts|
    ensures Holds(Joined(parts), parts[i])
  {
    var text := Joined(parts);
    if |parts| == 1 {
      assert Within(text, "", parts[0], "");
    } else if i == 0 {
      assert Within(text, "", parts[0], "\n\n" + Joined(parts[1..]));
    } else {
      JoinedHolds(parts[1..], i - 1);
      var before, after :| Within(Joined(parts[1..]), before, parts[1..][i - 1], after);
      assert Within(text, parts[0] + "\n\n" + before, parts[i], after);
    }
  }

  lemma {:induction false} AttachmentPart(v: Services, attachments: seq<Attachment>, a: Attachment)
    requires a in attachments && TextOf(v, a) != ""
    ensures TextOf(v, a) in AttachmentParts(v, attachments)
  {
    if a != attachments[0] {
      assert attachments == [attachments[0]] + attachments[1..];
      AttachmentPart(v, attachments[1..], a);
    }
  }

  lemma {:induction false} NoPart(v: Services, attachments: seq<Attachment>)
    requires forall a :: a in attachments ==> TextOf(v, a) == ""
    ensures AttachmentParts(v, attachments) == []
  {
    if attachments != [] {
      NoPart(v, attachments[1..]);
    }
  }

  /** Of a pasted attachment what was pasted, of any other what was read. */
  ghost function Given(a: Attachment): Option<string> {
    match a.status
    case MANUAL_PASTE => a.rawText
    case _ => a.parsedText
  }

  ghost predicate NothingGiven(v: Services, s: Store) {
    && (s.subject.Some? ==> v.trim(s.subject.value) == "") && (s.body.Some? ==> v.trim(s.body.value) == "")
    && forall a :: a in s.attachments && Given(a).Some? ==> v.trim(Given(a).value) == ""
  }

  /** The model is shown subject, body and every attachment's text, each trimmed and whole; nothing if all are blank. */
  lemma TheModelSeesEverything(v: Services, s: Store)
    ensures s.subject.Some? ==> Holds(SourceText(v, s), v.trim(s.subject.value))
    ensures s.body.Some? ==> Holds(SourceText(v, s), v.trim(s.body.value))
    ensures forall a :: a in s.attachments && Given(a).Some? ==> Holds(SourceText(v, s), v.trim(Given(a).value))
    ensures NothingGiven(v, s) ==> SourceText(v, s) == ""
  {
    hide Joined;
    var subject, body, rest := Trimmed(v, s.subject), Trimmed(v, s.body), AttachmentParts(v, s.attachments);
    var parts := Part(subject) + Part(body) + rest;
    PartIsHeld(parts, subject);
    PartIsHeld(parts, body);
    forall a | a in s.attachments
      ensures Holds(SourceText(v, s), TextOf(v, a))
    {
      if TextOf(v, a) != "" {
        AttachmentPart(v, s.attachments, a);
      }
      PartIsHeld(parts, TextOf(v, a));
    }
    if subject == "" && body == "" && forall a :: a in s.attachments ==> TextOf(v, a) == "" {
      NoPart(v, s.attachments);
      NothingJoined();
    }
  }

  lemma NothingJoined()
    ensures Joined([]) == ""
  {
  }

  lemma PartIsHeld(parts: seq<string>, part: string)
    requires part == "" || part in parts
    ensures Holds(Joined(parts), part)
  {
    hide Joined;
    if part == "" {
      assert Within(Joined(parts), "", "", Joined(parts));
    } else {
      var i :| 0 <= i < |parts| && parts[i] == part;
      JoinedHolds(parts, i);
    }
  }

  /** A row for an extracted item: its text, quantity and unit, and nothing matched or priced yet. */
  ghost predicate IsRowFor(r: LineRow, item: ExtractNode.LineItem, id: string) {
    && r.id == id && r.position == item.position && r.rawText == item.rawText && r.quantity == Some(item.quantity)
    && r.unit == item.unit && r.matchedSku.None? && r.confidence.None? && r.matchMethod.None? && r.tie.None?
    && r.candidates == [] && r.unitPriceMinor.None? && r.leadTimeDays.None? && r.flags == []
  }

  /** The rows are those of the items, one each, by position. */
  ghost predicate AreRowsFor(v: Services, rows: seq<LineRow>, items: seq<ExtractNode.LineItem>) {
    && |rows| == |items|
    && (forall i :: 0 <= i < |items| ==> exists r :: r in rows && IsRowFor(r, items[i], v.newId(i)))
    && (forall r :: r in rows ==> exists i :: 0 <= i < |items| && IsRowFor(r, items[i], v.newId(i)))
    && forall i, j :: 0 <= i < j < |rows| ==> rows[i].position <= rows[j].position
  }

  lemma NewRowIsFor(id: string, item: ExtractNode.LineItem)
    ensures IsRowFor(NewRow(id, item), item, id)
  {
  }

  lemma RowsByPosition(rows: seq<LineRow>)
    requires Sorted(rows, RowPosition)
    ensures forall i, j :: 0 <= i < j < |rows| ==> rows[i].position <= rows[j].position
  {
    forall i, j | 0 <= i < j < |rows|
      ensures rows[i].position <= rows[j].position
    {
      assert RowPosition(rows[i]) <= RowPosition(rows[j]);
    }
  }

  lemma NewRowsAreThoseOfTheItems(v: Services, items: seq<ExtractNode.LineItem>)
    ensures AreRowsFor(v, NewRows(v, items), items)
  {
    hide SortBy, IsRowFor, NewRow, Sorted;
    var drafts := seq(|items|, i requires 0 <= i < |items| => NewRow(v.newId(i), items[i]));
    var rows := NewRows(v, items);
    SortByKeeps(drafts, RowPosition);
    SortByMembers(drafts, RowPosition);
    RowsByPosition(rows);
    forall i | 0 <= i < |items|
      ensures drafts[i] in rows && IsRowFor(drafts[i], items[i], v.newId(i))
    {
      NewRowIsFor(v.newId(i), items[i]);
      assert drafts[i] in drafts;
    }
    forall r | r in rows
      ensures exists i :: 0 <= i < |items| && IsRowFor(r, items[i], v.newId(i))
    {
      assert r in drafts;
      var i :| 0 <= i < |drafts| && drafts[i] == r;
    }
  }

  /** A new valid answer replaces the rows by its own, whatever vertical it has; any other leaves them. */
  lemma ExtractReplacesTheRows(v: Services, s: Store)
    ensures var after := Extract(v, s).store;
      && after == s.(extraction := after.extraction, facts := after.facts, rows := after.rows)
      && if HasValidExtraction(after) && !HasValidExtraction(s) then
           && after.facts.Some? && after.extraction.value.rawJson == ExtractNode.Validated(after.facts.value)
           && AreRowsFor(v, after.rows, if after.facts.value.vertical.Some? then [] else after.facts.value.lineItems)
         else after.rows == s.rows && after.facts == s.facts
  {
    hide AreRowsFor, NewRows, SourceText;
    var view := ExtractView(v, s);
    var e := ExtractNode.Extract(v.extractor, v.trim, view);
    NewRowsAreThoseOfTheItems(v, e.store.lineItems);
    if ExtractNode.IsValid(e.store) {
      if !ExtractNode.IsValid(view) {
        ExtractNode.ValidMeansReconciled(v.extractor, v.trim, view);
        ExtractNode.NewAnswerBringsItsLines(v.extractor, v.trim, view);
      }
    } else {
      ExtractNode.FailureKeepsTheLines(v.extractor, v.trim, view);
    }
  }

  // ---------- CLASSIFY ----------

  /** An existing request is classified by its facts, its lines and its body, or its subject without one. */
  lemma ClassifyTakesTheBody(v: Services, s: Store)
    ensures var e := Classify(v, s);
      && (!s.found ==> e == Effect(s, NodeFailed, None))
      && (s.found ==>
            && e.outcome == Advance(MATCH) && e.wrote == Some(MATCH)
            && e.store == s.(requestType := e.store.requestType)
            && (s.body.Some? ==> e.store.requestType == Some(v.classify(s.facts, s.body.value, s.rows)))
            && (s.body.None? && s.subject.Some? ==>
                  e.store.requestType == Some(v.classify(s.facts, s.subject.value, s.rows)))
            && (s.body.None? && s.subject.None? ==> e.store.requestType == Some(v.classify(s.facts, "", s.rows))))
  {
  }

  // ---------- MATCH ----------

  /** What the search answers for a row; nothing for a row that has a SKU or whose text gives no query. */
  ghost function AnswerFor(v: Services, r: LineRow): Option<MatchNode.SearchResult> {
    if r.matchedSku.Some? || v.search.query(r.rawText).None? then None
    else v.search.search(v.search.query(r.rawText).value)
  }

  /** The row took over the first candidate, in every field of the row that a match writes. */
  ghost predicate TakesOver(v: Services, found: seq<MatchNode.Found>, before: LineRow, after: LineRow)
    requires found != []
  {
    var first := found[0];
    var tied := |found| > 1 && found[1].row.score + v.search.closeTieMargin >= first.row.score;
    && after.matchedSku == Some(first.row.skuId) && after.confidence == Some(first.row.score)
    && (after.matchMethod == Some(MatchNode.Exact) <==>
          first.row.score >= v.search.autoThreshold && !first.matchMethod.Semantic?)
    && (after.matchMethod != Some(MatchNode.Exact) ==>
          after.matchMethod == Some(MatchNode.Searched(first.matchMethod)))
    && after.flags == before.flags + (if tied then ["close_tie"] else [])
    && after.tie == (if tied then Some((first.row.score, found[1].row.score)) else None)
    && |after.candidates| == |found| && (forall i :: 0 <= i < |found| ==> after.candidates[i] == found[i].row)
    && after == before.(matchedSku := after.matchedSku, confidence := after.confidence,
         matchMethod := after.matchMethod, flags := after.flags, tie := after.tie, candidates := after.candidates)
  }

  ghost predicate IsMatched(v: Services, before: LineRow, after: LineRow) {
    match AnswerFor(v, before)
    case None => after == before
    case Some(r) =>
      if r.candidates == [] then after == before.(candidates := []) else TakesOver(v, r.candidates, before, after)
  }

  lemma RowIsMatched(v: Services, r: LineRow)
    ensures IsMatched(v, r, MatchRow(v, r))
  {
    MatchNode.MatchedIsSettled(v.search, MatchView(r));
  }

  /** Every row that has no SKU is matched by what the search answers for its text. */
  lemma MatchSettlesEveryRow(v: Services, s: Store)
    ensures var e := Match(v, s);
      && e.outcome == Advance(PRICE) && e.wrote.None? && e.store == s.(rows := e.store.rows)
      && |e.store.rows| == |s.rows|
      && forall i :: 0 <= i < |s.rows| ==> IsMatched(v, s.rows[i], e.store.rows[i])
  {
    hide IsMatched, MatchRow;
    forall i | 0 <= i < |s.rows|
      ensures IsMatched(v, s.rows[i], MatchRow(v, s.rows[i]))
    {
      RowIsMatched(v, s.rows[i]);
    }
  }

  // ---------- PRICE ----------

  /** What the price node sells a row at: the catalog price of its SKU less the discount of its quantity. */
  ghost predicate IsSoldAt(v: Services, before: LineRow, after: LineRow) {
    && before.matchedSku.Some? && before.matchedSku.value in v.catalog && before.quantity.Some?
    && var sku := v.catalog[before.matchedSku.value].sku;
       && after.unitPriceMinor.Some? && after.leadTimeDays == sku.leadTimeDays
       && QuotePricing.IsPercentOff(after.unitPriceMinor.value, sku.basePriceMinor,
            QuotePricing.AppliedDiscount(Recompute.Breaks(v.pricing), before.quantity.value))
       && ("pricing_blocked" in after.flags <==> !v.pricing.hasAnyRules)
  }

  ghost predicate CanBeSold(v: Services, r: LineRow) {
    && r.matchedSku.Some? && r.matchedSku.value in v.catalog && r.quantity.Some? && r.quantity.value > 0.0
  }

  lemma ViewCanBeSold(v: Services, r: LineRow)
    ensures Recompute.IsPriceable(PriceView(v, r)) <==> CanBeSold(v, r)
  {
  }

  /**
   The rows of a request that is no vertical's and whose products are in euros: each one that can be sold is, at its own
   SKU's price for its own quantity, and the others are left as they are.
   */
  lemma PriceSellsTheRows(v: Services, s: Store, i: nat)
    requires i < |s.rows| && VerticalQuote(v, s).None?
    requires Recompute.AnyPriceable(PriceLines(v, s.rows)) && Recompute.AllEuro(PriceLines(v, s.rows))
    ensures var e := Price(v, s);
      && e.outcome == Advance(POLICY) && |e.store.rows| == |s.rows|
      && var before, after := s.rows[i], e.store.rows[i];
         && after == before.(unitPriceMinor := after.unitPriceMinor, leadTimeDays := after.leadTimeDays,
              flags := after.flags)
         && (forall f: string :: f != "pricing_blocked" ==> (f in after.flags <==> f in before.flags))
         && if CanBeSold(v, before) then IsSoldAt(v, before, after) else after == before
  {
    hide Recompute.NodeAfter, QuotePricing.IsPercentOff, QuotePricing.AppliedDiscount, Recompute.AllEuro,
      Recompute.AnyPriceable;
    RecomputeFigures.NodeLineReads(Recompute.Stored(PriceLines(v, s.rows), s.quote), v.pricing, i);
    ViewCanBeSold(v, s.rows[i]);
  }

  /** A quote line for a row: its SKU, quantity and position, at the discounted catalog price. */
  ghost predicate QuotesRow(v: Services, q: Recompute.QuoteLine, r: LineRow) {
    && CanBeSold(v, r)
    && var sku := v.catalog[r.matchedSku.value].sku;
       var pct := QuotePricing.AppliedDiscount(Recompute.Breaks(v.pricing), r.quantity.value);
       && q.skuId == sku.id && q.description == sku.name && q.quantity == r.quantity.value && q.position == r.position
       && QuotePricing.IsPercentOff(q.unitPriceMinor, sku.basePriceMinor, pct)
       && exists full :: QuotePricing.IsExtended(full, sku.basePriceMinor, r.quantity.value)
            && QuotePricing.IsPercentOff(q.amountMinor, full, pct)
  }

  lemma BilledRowIsQuoted(v: Services, q: Recompute.QuoteLine, r: LineRow)
    requires RecomputeFigures.BillsByRule(q, PriceView(v, r), v.pricing)
    ensures QuotesRow(v, q, r)
  {
  }

  /** The same request's quote lists exactly the rows that can be sold, and totals them. */
  lemma PriceQuotesTheRows(v: Services, s: Store)
    requires VerticalQuote(v, s).None?
    requires Recompute.AnyPriceable(PriceLines(v, s.rows)) && Recompute.AllEuro(PriceLines(v, s.rows))
    ensures var quote := Price(v, s).store.quote;
      && quote.Some? && quote.value.totalMinor + quote.value.discountMinor == quote.value.subtotalMinor
      && (forall q :: q in quote.value.lines ==> exists r :: r in s.rows && QuotesRow(v, q, r))
      && (forall r :: r in s.rows && CanBeSold(v, r) ==> exists q :: q in quote.value.lines && QuotesRow(v, q, r))
  {
    hide Recompute.NodeAfter, Recompute.AllEuro, Recompute.AnyPriceable, RecomputeFigures.BillsByRule, QuotesRow;
    var lines := PriceLines(v, s.rows);
    var quote := Price(v, s).store.quote;
    RecomputeFigures.NodeQuoteBillsTheLines(Recompute.Stored(lines, s.quote), v.pricing);
    forall q | q in quote.value.lines
      ensures exists r :: r in s.rows && QuotesRow(v, q, r)
    {
      var li :| li in lines && RecomputeFigures.BillsByRule(q, li, v.pricing);
      var i :| 0 <= i < |lines| && lines[i] == li;
      BilledRowIsQuoted(v, q, s.rows[i]);
    }
    forall r | r in s.rows && CanBeSold(v, r)
      ensures exists q :: q in quote.value.lines && QuotesRow(v, q, r)
    {
      var i :| 0 <= i < |s.rows| && s.rows[i] == r;
      assert lines[i] == PriceView(v, r) && lines[i] in lines;
      ViewCanBeSold(v, r);
      var q :| q in quote.value.lines && RecomputeFigures.BillsByRule(q, PriceView(v, r), v.pricing);
      BilledRowIsQuoted(v, q, r);
    }
  }

  /** A vertical's quote replaces whatever there was, and its rows are left alone. */
  lemma PriceStoresTheVerticalQuote(v: Services, s: Store)
    requires s.extraction.Some? && v.vertical(s.extraction.value.rawJson).Some?
    ensures Price(v, s) == Effect(s.(quote := v.vertical(s.extraction.value.rawJson).value), Advance(POLICY), None)
  {
  }

  // ---------- SCORE ----------

  /** What a row adds to the deal. */
  function ValueOf(r: LineRow): real {
    if r.unitPriceMinor.Some? && r.quantity.Some? then r.unitPriceMinor.value as real * r.quantity.value else 0.0
  }

  lemma {:induction false} DealIsTheSum(rows: seq<LineRow>)
    requires !IsIncomplete(rows)
    ensures DealValue(rows) == SumBy(rows, ValueOf)
  {
    if rows != [] {
      assert rows[0].unitPriceMinor.Some? && rows[0].quantity.Some?;
      assert forall i :: 0 <= i < |rows[1..]| ==> rows[1..][i] == rows[i + 1];
      DealIsTheSum(rows[1..]);
    }
  }

  /** How far the penalties let x through: a flag other than a close tie, a deal that is incomplete or above the cap. */
  ghost predicate PenaltiesAllow(c: Scoring, rows: seq<LineRow>, x: real) {
    && ((exists r, f :: r in rows && f in r.flags && f != "close_tie") ==> x <= c.policyFlagPenalty)
    && (c.sendCapMinor.Some? && (exists r :: r in rows && (r.unitPriceMinor.None? || r.quantity.None?)) ==>
          x <= c.dealValuePenalty)
    && (c.sendCapMinor.Some? && SumBy(rows, ValueOf) > c.sendCapMinor.value as real ==> x <= c.dealValuePenalty)
  }

  lemma {:induction false} LeastConfidence(c: Scoring, rows: seq<LineRow>, x: real)
    requires rows != []
    ensures x <= LowestConfidence(c, rows) <==> forall r :: r in rows ==> x <= Confidence(c, r)
  {
    assert rows == [rows[0]] + rows[1..];
    if |rows| > 1 {
      LeastConfidence(c, rows[1..], x);
    }
  }

  lemma FlaggedIff(rows: seq<LineRow>)
    ensures AnyFlag(rows) <==> exists r, f :: r in rows && f in r.flags && f != "close_tie"
  {
    if exists r, f :: r in rows && f in r.flags && f != "close_tie" {
      var r, f :| r in rows && f in r.flags && f != "close_tie";
      var i :| 0 <= i < |rows| && rows[i] == r;
    }
  }

  lemma IncompleteIff(rows: seq<LineRow>)
    ensures IsIncomplete(rows) <==> exists r :: r in rows && (r.unitPriceMinor.None? || r.quantity.None?)
  {
    if exists r :: r in rows && (r.unitPriceMinor.None? || r.quantity.None?) {
      var r :| r in rows && (r.unitPriceMinor.None? || r.quantity.None?);
      var i :| 0 <= i < |rows| && rows[i] == r;
    }
  }

  /**
   The confidence of a valid answer with lines is the largest number up to one that no line's match and no penalty
   falls short of, except that bad matches never take it below zero; without a valid answer or lines it is zero.
   */
  lemma ConfidenceIsTheLeast(c: Scoring, s: Store, x: real)
    ensures var confidence := Routed(c, s).1;
      if s.extraction.None? || !s.extraction.value.schemaValid || s.rows == [] then confidence == 0.0
      else
        x <= confidence <==>
        && x <= 1.0 && PenaltiesAllow(c, s.rows, x)
        && (x <= 0.0 || forall r :: r in s.rows ==>
              x <= if r.confidence.Some? then r.confidence.value else c.unmatchedFloor)
  {
    if s.rows != [] {
      LeastConfidence(c, s.rows, x);
      FlaggedIff(s.rows);
      IncompleteIff(s.rows);
      if !IsIncomplete(s.rows) {
        DealIsTheSum(s.rows);
      }
    }
  }

  lemma HardFlags(flag: string)
    ensures IsHard(flag) <==>
      flag in ["pricing_blocked", "policy_blocked", "margin_floor_breach", "max_discount_breach"]
  {
  }

  /** The confidence routes, unless a line carries one of the four flags of the price and policy nodes. */
  lemma RoutedIff(c: Scoring, s: Store)
    ensures Routed(c, s).0 == AUTO_ELIGIBLE <==>
      && s.extraction.Some? && s.extraction.value.schemaValid && s.rows != [] && Routed(c, s).1 >= c.autoThreshold
      && forall r, f :: r in s.rows && f in r.flags ==>
           f !in ["pricing_blocked", "policy_blocked", "margin_floor_breach", "max_discount_breach"]
  {
    forall f {
      HardFlags(f);
    }
    if AnyHard(s.rows) {
      var i, f :| 0 <= i < |s.rows| && f in s.rows[i].flags && IsHard(f);
      assert s.rows[i] in s.rows;
    }
    if r, f :| r in s.rows && f in r.flags && IsHard(f) {
      var i :| 0 <= i < |s.rows| && s.rows[i] == r;
    }
  }

  /** The score is stored with the last checkpoint in one write; a request that is gone fails. */
  lemma ScoreIsStored(v: Services, s: Store)
    ensures var e := Score(v, s);
      && (!s.found ==> e == Effect(s, NodeFailed, None))
      && (s.found ==>
            && e.outcome == Advance(DONE) && e.wrote == Some(DONE)
            && e.store == s.(routing := Some(Routed(v.scoring, s).0),
                 overallConfidence := Some(Routed(v.scoring, s).1)))
  {
  }

  // ---------- Where a run ends ----------

  ghost predicate AsksForText(v: Services, s: Store, n: Node) {
    n == PARSE && exists a :: a in s.attachments && Stops(v, a)
  }

  lemma OneNodeOn(v: Services, s: Store, n: Node)
    requires n != DONE && n != FAILED
    ensures var e := NodeOf(v, n).run(s);
      && e.store.found == s.found
      && (s.found && AsksForText(v, s, n) ==> e.outcome == Clarify && e.wrote.None?)
      && (s.found && !AsksForText(v, s, n) ==> e.outcome.Advance? && e.outcome.next !in {PARSE, FAILED})
      && (!s.found ==>
            e.outcome == NodeFailed || (e.outcome.Advance? && e.outcome.next !in {PARSE, DONE, FAILED}))
  {
    match n
    case PARSE => ParseReadsTheAttachments(v, s);
    case EXTRACT => hide SourceText, NewRows;
    case CLASSIFY =>
    case MATCH =>
    case PRICE =>
    case POLICY =>
    case SCORE =>
  }

  /**
   A run takes an existing request to DONE from wherever it stands, except that at PARSE an attachment that cannot be
   read leaves it there for clarification; it takes a request that is gone to FAILED.
   */
  lemma {:induction false} RunEndsWhere(v: Services, s: Store, n: Node, fuel: nat, f: Final<Store>)
    requires n != DONE && n != FAILED && Reaches(QuotingGraph(v), s, n, fuel, f)
    ensures f.node ==
      if !s.found then FAILED else if AsksForText(v, s, n) then PARSE else DONE
    ensures f.status == NEEDS_CLARIFICATION <==> s.found && AsksForText(v, s, n)
    decreases fuel
  {
    hide NodeOf, AsksForText;
    OneNodeOn(v, s, n);
    var e := NodeOf(v, n).run(s);
    OneNodeFurther(v, s, n, fuel, f);
    if n != PARSE {
      AskedAtParseOnly(v, s, n);
    }
    if e.outcome.Advance? && e.outcome.next != DONE {
      AskedAtParseOnly(v, e.store, e.outcome.next);
      RunEndsWhere(v, e.store, e.outcome.next, fuel - 1, f);
    }
  }

  lemma AskedAtParseOnly(v: Services, s: Store, n: Node)
    requires n != PARSE
    ensures !AsksForText(v, s, n)
  {
  }

  lemma OneNodeFurther(v: Services, s: Store, n: Node, fuel: nat, f: Final<Store>)
    requires n != DONE && n != FAILED && Reaches(QuotingGraph(v), s, n, fuel, f)
    ensures fuel > 0
    ensures var e := NodeOf(v, n).run(s);
      match e.outcome
      case Advance(next) => Reaches(QuotingGraph(v), e.store, next, fuel - 1, f)
      case Clarify => f.status == NEEDS_CLARIFICATION && f.node == if e.wrote.Some? then e.wrote.value else n
      case NodeFailed => f.status == FAILURE && f.node == FAILED
      case _ => true
    ensures var e := NodeOf(v, n).run(s);
      e.outcome == Advance(DONE) ==> f.node == DONE && f.status != NEEDS_CLARIFICATION
  {
    hide NodeOf;
    var g := QuotingGraph(v);
    assert n in g.nodes && g.nodes[n] == NodeOf(v, n);
  }
}
