/**
 The extract node: at most two model calls, the second told why the first was rejected; an answer counts only if
 it matches the schema and reconciles with the source text. A request with a valid extraction is left alone.
 */
module ExtractNode {
  import opened Pipeline
  import opened Recovery
  import opened Wrappers

  const MAX_ATTEMPTS := 2

  datatype LineItem = LineItem(position: int, rawText: string, quantity: real, unit: string)

  /** A validated extraction; the vertical ones have no line items. */
  datatype Extracted = Extracted(vertical: Option<string>, sender: string, lineItems: seq<LineItem>)

  /** What the model answered, before validation. */
  datatype Answer = Answer(json: string, isObject: bool)

  datatype Invocation = ToolFailed(error: Option<string>) | Answered(answer: Answer)

  datatype RawJson = NoJson | EmptySource | Raw(answer: Answer) | Validated(extracted: Extracted)

  /** The model call, the schema and the reconciliation: an answer to each is a value or a reason to refuse. */
  datatype Extractor = Extractor(
    invoke: (string, Option<string>, nat) -> Invocation,
    parse: Answer -> Result<Extracted, string>,
    reconcile: (Extracted, string) -> Option<string>)

  datatype ExtractionRow = ExtractionRow(schemaValid: bool, rawJson: RawJson, reextractCount: nat)

  /** What the node reads and writes of a request; `found` tells whether the request row exists. */
  datatype Stored = Stored(
    found: bool, sourceText: string, extraction: Option<ExtractionRow>, lineItems: seq<LineItem>,
    facts: Option<Extracted>)

  const TOOL_FAILED := "extraction tool failed"

  datatype Verdict = Accepted(extracted: Extracted) | Refused(reason: string, raw: Option<RawJson>)

  function Judge(x: Extractor, text: string, prior: Option<string>, attempt: nat): Verdict {
    match x.invoke(text, prior, attempt)
    case ToolFailed(error) => Refused(if error.Some? then error.value else TOOL_FAILED, None)
    case Answered(answer) =>
      match x.parse(answer)
      case Err(reason) => Refused(reason, if answer.isObject then Some(Raw(answer)) else None)
      case Ok(extracted) =>
        match x.reconcile(extracted, text)
        case Some(reason) => Refused(reason, Some(Validated(extracted)))
        case None => Accepted(extracted)
  }

  function Or(raw: Option<RawJson>, last: RawJson): RawJson {
    if raw.Some? then raw.value else last
  }

  /** The extraction row the two attempts end in. */
  function Attempts(x: Extractor, text: string): ExtractionRow {
    match Judge(x, text, None, 1)
    case Accepted(extracted) => ExtractionRow(true, Validated(extracted), 0)
    case Refused(reason, raw) =>
      match Judge(x, text, Some(reason), 2)
      case Accepted(extracted) => ExtractionRow(true, Validated(extracted), 1)
      case Refused(_, raw2) => ExtractionRow(false, Or(raw2, Or(raw, NoJson)), 1)
  }

  predicate IsValid(s: Stored) {
    s.extraction.Some? && s.extraction.value.schemaValid
  }

  function Extract(x: Extractor, trim: string -> string, s: Stored): Effect<Stored> {
    if IsValid(s) then Effect(s, Advance(CLASSIFY), None)
    else if !s.found then Effect(s, NodeFailed, None)
    else if trim(s.sourceText) == "" then
      Effect(s.(extraction := Some(ExtractionRow(false, EmptySource, 0))), Advance(CLASSIFY), None)
    else
      var row := Attempts(x, s.sourceText);
      if row.schemaValid && row.rawJson.Validated? then
        var e := row.rawJson.extracted;
        Effect(s.(extraction := Some(row), lineItems := if e.vertical.Some? then [] else e.lineItems, facts := Some(e)),
               Advance(CLASSIFY), None)
      else Effect(s.(extraction := Some(row)), Advance(CLASSIFY), None)
  }

  class ExtractNodeRunner {
    const x: Extractor
    const trim: string -> string
    var stored: Stored

    constructor (x: Extractor, trim: string -> string, stored: Stored)
      ensures this.x == x && this.trim == trim && this.stored == stored
    {
      this.x, this.trim, this.stored := x, trim, stored;
    }

    /** `asked` lists the reason each model call was given for the failure before it. */
    method Run() returns (outcome: Outcome, asked: seq<Option<string>>)
      modifies this
      ensures Effect(stored, outcome, None) == Extract(x, trim, old(stored))
      ensures |asked| <= MAX_ATTEMPTS
      ensures IsValid(old(stored)) ==> asked == [] && stored == old(stored)
      ensures asked == [] <==> IsValid(old(stored)) || !old(stored).found || trim(old(stored).sourceText) == ""
      ensures asked != [] ==> asked[0] == None && stored.extraction.Some?
      ensures asked != [] ==> stored.extraction.value.reextractCount == |asked| - 1
      ensures |asked| == 2 ==>
        var first := Judge(x, old(stored).sourceText, None, 1);
        first.Refused? && asked[1] == Some(first.reason)
    {
      asked := [];
      if IsValid(stored) {
        return Advance(CLASSIFY), [];
      }
      if !stored.found {
        return NodeFailed, [];
      }
      if trim(stored.sourceText) == "" {
        stored := stored.(extraction := Some(ExtractionRow(false, EmptySource, 0)));
        return Advance(CLASSIFY), [];
      }
      var text := stored.sourceText;
      var priorFailure: Option<string>, lastRaw := None, NoJson;
      for attempt := 1 to MAX_ATTEMPTS + 1
        invariant stored == old(stored) && |asked| == attempt - 1
        invariant attempt == 1 ==> priorFailure == None && lastRaw == NoJson
        invariant attempt > 1 ==> asked[0] == None
        invariant attempt >= 2 ==> var first := Judge(x, text, None, 1);
          first.Refused? && (attempt == 2 ==> priorFailure == Some(first.reason) && lastRaw == Or(first.raw, NoJson))
        invariant attempt == 3 ==> Attempts(x, text) == ExtractionRow(false, lastRaw, 1)
        invariant attempt == 3 ==> asked[1] == Some(Judge(x, text, None, 1).reason)
      {
        asked := asked + [priorFailure];
        var invocation := x.invoke(text, priorFailure, attempt);
        if invocation.ToolFailed? {
          priorFailure := Some(if invocation.error.Some? then invocation.error.value else TOOL_FAILED);
        } else {
          if invocation.answer.isObject {
            lastRaw := Raw(invocation.answer);
          }
          var parsed := x.parse(invocation.answer);
          if parsed.Err? {
            priorFailure := Some(parsed.error);
          } else {
            lastRaw := Validated(parsed.value);
            var refusal := x.reconcile(parsed.value, text);
            if refusal.Some? {
              priorFailure := refusal;
            } else {
              PersistSuccess(parsed.value, attempt - 1);
              return Advance(CLASSIFY), asked;
            }
          }
        }
      }
      stored := stored.(extraction := Some(ExtractionRow(false, lastRaw, MAX_ATTEMPTS - 1)));
      outcome := Advance(CLASSIFY);
    }

    /** One transaction: the extraction, the line items and the request's facts. */
    method PersistSuccess(e: Extracted, reextractCount: nat)
      modifies this
      ensures stored == old(stored).(
        extraction := Some(ExtractionRow(true, Validated(e), reextractCount)),
        lineItems := if e.vertical.Some? then [] else e.lineItems, facts := Some(e))
    {
      stored := stored.(
        extraction := Some(ExtractionRow(true, Validated(e), reextractCount)),
        lineItems := if e.vertical.Some? then [] else e.lineItems, facts := Some(e));
    }
  }

  // ---------- What a run guarantees ----------

  /**
   Nothing unverified is ever marked valid: a new valid extraction matches the schema and reconciles with the source.
   */
  lemma ValidMeansReconciled(x: Extractor, trim: string -> string, s: Stored)
    requires !IsValid(s) && IsValid(Extract(x, trim, s).store)
    ensures var after := Extract(x, trim, s).store;
      exists answer, e :: x.parse(answer) == Ok(e) && x.reconcile(e, s.sourceText) == None
        && after.extraction.value.rawJson == Validated(e) && after.facts == Some(e)
  {
    var first := Judge(x, s.sourceText, None, 1);
    if first.Accepted? {
      var answer := x.invoke(s.sourceText, None, 1).answer;
      assert x.parse(answer) == Ok(first.extracted) && x.reconcile(first.extracted, s.sourceText) == None;
    } else {
      var second := Judge(x, s.sourceText, Some(first.reason), 2);
      var answer := x.invoke(s.sourceText, Some(first.reason), 2).answer;
      assert x.parse(answer) == Ok(second.extracted) && x.reconcile(second.extracted, s.sourceText) == None;
    }
  }

  /** The model's answer is good: it matches the schema and reconciles with the text. */
  ghost predicate Passes(x: Extractor, text: string, i: Invocation, e: Extracted) {
    i.Answered? && x.parse(i.answer) == Ok(e) && x.reconcile(e, text).None?
  }

  /** Why a call came to nothing: the tool's error, the schema's or the reconciliation's. */
  ghost predicate FailsFor(x: Extractor, text: string, i: Invocation, reason: string) {
    match i
    case ToolFailed(None) => reason == TOOL_FAILED
    case ToolFailed(Some(error)) => reason == error
    case Answered(answer) =>
      || x.parse(answer) == Err(reason)
      || (x.parse(answer).Ok? && x.reconcile(x.parse(answer).value, text) == Some(reason))
  }

  /** What a call leaves on record. */
  ghost predicate LeavesOnRecord(x: Extractor, i: Invocation, json: RawJson) {
    i.Answered? &&
    if x.parse(i.answer).Ok? then json == Validated(x.parse(i.answer).value)
    else i.answer.isObject && json == Raw(i.answer)
  }

  /** The second call is told why the first failed; without a good answer the record is the last one left. */
  ghost predicate IsSecondChance(x: Extractor, text: string, first: Invocation, second: Invocation,
      row: ExtractionRow) {
    && row.reextractCount == 1
    && if row.schemaValid then row.rawJson.Validated? && Passes(x, text, second, row.rawJson.extracted)
       else
         && (forall e :: !Passes(x, text, second, e))
         && (LeavesOnRecord(x, second, row.rawJson)
             || ((forall j :: !LeavesOnRecord(x, second, j)) && LeavesOnRecord(x, first, row.rawJson))
             || ((forall j :: !LeavesOnRecord(x, second, j) && !LeavesOnRecord(x, first, j)) && row.rawJson == NoJson))
  }

  /** The stored extraction by the model's calls: the first good answer of two, with the number of repeated calls. */
  lemma AttemptsTell(x: Extractor, trim: string -> string, s: Stored)
    requires s.found && !IsValid(s) && trim(s.sourceText) != ""
    ensures var first := x.invoke(s.sourceText, None, 1);
      var row := Extract(x, trim, s).store.extraction.value;
      || (row.schemaValid && row.reextractCount == 0 && row.rawJson.Validated?
          && Passes(x, s.sourceText, first, row.rawJson.extracted))
      || ((forall e :: !Passes(x, s.sourceText, first, e))
          && exists reason :: FailsFor(x, s.sourceText, first, reason)
               && IsSecondChance(x, s.sourceText, first, x.invoke(s.sourceText, Some(reason), 2), row))
  {
    hide IsSecondChance;
    var first := Judge(x, s.sourceText, None, 1);
    if first.Refused? {
      assert FailsFor(x, s.sourceText, x.invoke(s.sourceText, None, 1), first.reason);
      SecondChance(x, s.sourceText, first.reason);
    }
  }

  lemma SecondChance(x: Extractor, text: string, reason: string)
    requires Judge(x, text, None, 1).Refused? && Judge(x, text, None, 1).reason == reason
    ensures IsSecondChance(x, text, x.invoke(text, None, 1), x.invoke(text, Some(reason), 2), Attempts(x, text))
  {
    RecordOf(x, text, None, 1);
    if Judge(x, text, Some(reason), 2).Refused? {
      RecordOf(x, text, Some(reason), 2);
    }
  }

  lemma RecordOf(x: Extractor, text: string, prior: Option<string>, attempt: nat)
    requires Judge(x, text, prior, attempt).Refused?
    ensures var raw, i := Judge(x, text, prior, attempt).raw, x.invoke(text, prior, attempt);
      && (forall e :: !Passes(x, text, i, e))
      && if raw.Some? then LeavesOnRecord(x, i, raw.value) else forall j :: !LeavesOnRecord(x, i, j)
  {
  }

  /** Otherwise no answer is asked for: a valid extraction stays, a missing request fails, a blank text is recorded. */
  lemma NothingToAsk(x: Extractor, trim: string -> string, s: Stored)
    ensures IsValid(s) ==> Extract(x, trim, s).store == s && Extract(x, trim, s).outcome == Advance(CLASSIFY)
    ensures !IsValid(s) && !s.found ==> Extract(x, trim, s).store == s && Extract(x, trim, s).outcome == NodeFailed
    ensures !IsValid(s) && s.found ==> Extract(x, trim, s).outcome == Advance(CLASSIFY)
    ensures !IsValid(s) && s.found && trim(s.sourceText) == "" ==>
      Extract(x, trim, s).store == s.(extraction := Some(ExtractionRow(false, EmptySource, 0)))
  {
  }

  /** A new valid extraction replaces the lines by its own, and one for a vertical has none. */
  lemma NewAnswerBringsItsLines(x: Extractor, trim: string -> string, s: Stored)
    requires !IsValid(s) && IsValid(Extract(x, trim, s).store)
    ensures var after := Extract(x, trim, s).store;
      && after.extraction.value.rawJson.Validated?
      && var e := after.extraction.value.rawJson.extracted;
         after.lineItems == if e.vertical.Some? then [] else e.lineItems
  {
  }

  /** A failed extraction leaves the line items and the request's facts as they were. */
  lemma FailureKeepsTheLines(x: Extractor, trim: string -> string, s: Stored)
    requires !IsValid(Extract(x, trim, s).store)
    ensures Extract(x, trim, s).store.lineItems == s.lineItems && Extract(x, trim, s).store.facts == s.facts
  {
  }

  ghost function AsNode(x: Extractor, trim: string -> string): NodeImpl<Stored> {
    NodeImpl(s => Extract(x, trim, s), (s, torn) => torn == Extract(x, trim, s).store)
  }

  /** Every write of the node is one transaction, so re-entry after a crash completes the same work. */
  lemma ExtractIsRerunnable(x: Extractor, trim: string -> string)
    ensures Rerunnable(AsNode(x, trim))
  {
    forall s
      ensures Extract(x, trim, Extract(x, trim, s).store) == Extract(x, trim, s)
    {
      ExtractedTwiceIsExtractedOnce(x, trim, s);
    }
  }

  lemma ExtractedTwiceIsExtractedOnce(x: Extractor, trim: string -> string, s: Stored)
    ensures Extract(x, trim, Extract(x, trim, s).store) == Extract(x, trim, s)
  {
  }
}
