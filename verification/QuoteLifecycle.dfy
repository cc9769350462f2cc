/**
 The stored quotes. Every status change is one conditional update, which the database applies to a row
 only while the row still has the expected status; replacing a request's quote is one transaction.
 Callers interleave in any order.
 */
module QuoteLifecycle {
  import opened Wrappers
  import opened Text

  datatype QuoteStatus = DRAFT | APPROVED | READY | SENT

  datatype QuoteLine = QuoteLine(skuId: Option<string>, description: string, quantity: real, unitPriceMinor: real,
      amountMinor: real, position: int)

  datatype ReplaceInput = ReplaceInput(
    requestId: string, orgId: string, subtotalMinor: real, discountMinor: real, totalMinor: real,
    leadTimeDays: Option<int>, currency: string, lines: seq<QuoteLine>)

  datatype Quote = Quote(
    requestId: string, orgId: string, status: QuoteStatus, subtotalMinor: real, discountMinor: real, totalMinor: real,
    leadTimeDays: Option<int>, approvedBy: Option<string>, pdfUrl: Option<string>,
    deliveryStartedAt: Option<int>, sentTo: Option<string>)

  datatype LineRow = LineRow(quoteId: nat, line: QuoteLine)

  /** The quote tables; ids are generated and never reused. */
  datatype Tables = Tables(quotes: map<nat, Quote>, lines: seq<LineRow>, nextId: nat)

  function LinesOutside(lines: seq<LineRow>, gone: set<nat>): seq<LineRow> {
    if lines == [] then []
    else if lines[0].quoteId in gone then LinesOutside(lines[1..], gone)
    else [lines[0]] + LinesOutside(lines[1..], gone)
  }

  function QuotesOf(t: Tables, requestId: string): set<nat> {
    set id | id in t.quotes && t.quotes[id].requestId == requestId
  }

  function Deleted(t: Tables, requestId: string): Tables {
    var gone := QuotesOf(t, requestId);
    t.(quotes := t.quotes - gone, lines := LinesOutside(t.lines, gone))
  }

  function NewQuote(input: ReplaceInput): Quote {
    Quote(input.requestId, input.orgId, DRAFT, input.subtotalMinor, input.discountMinor, input.totalMinor,
          input.leadTimeDays, None, None, None, None)
  }

  function NewLines(id: nat, lines: seq<QuoteLine>): seq<LineRow> {
    seq(|lines|, i requires 0 <= i < |lines| => LineRow(id, lines[i]))
  }

  function Replaced(t: Tables, input: ReplaceInput): Tables {
    var d := Deleted(t, input.requestId);
    Tables(d.quotes[t.nextId := NewQuote(input)], d.lines + NewLines(t.nextId, input.lines), t.nextId + 1)
  }

  datatype Op =
    | Replace(input: ReplaceInput)
    | Delete(requestId: string)
    | Claim(id: nat, approvedBy: Option<string>)
    | MarkReady(id: nat, pdfUrl: string)
    | StartDelivery(id: nat, orgId: string, at: int)
    | MarkSent(id: nat, orgId: string, recipient: string)
    | Revert(id: nat)

  /** The WHERE clause of an update: does it affect a row? */
  predicate Affects(t: Tables, op: Op) {
    match op
    case Replace(input) => IsEuroCurrency(input.currency)
    case Delete(requestId) => QuotesOf(t, requestId) != {}
    case Claim(id, _) => id in t.quotes && t.quotes[id].status == DRAFT
    case MarkReady(id, _) => id in t.quotes && t.quotes[id].status == APPROVED
    case StartDelivery(id, orgId, _) =>
      id in t.quotes && t.quotes[id].orgId == orgId && t.quotes[id].status == READY &&
        t.quotes[id].deliveryStartedAt.None?
    case MarkSent(id, orgId, _) => id in t.quotes && t.quotes[id].orgId == orgId && t.quotes[id].status == READY
    case Revert(id) => id in t.quotes && t.quotes[id].status == APPROVED
  }

  function Updated(q: Quote, op: Op): Quote {
    match op
    case Claim(_, approvedBy) => q.(status := APPROVED, approvedBy := approvedBy)
    case MarkReady(_, url) => q.(status := READY, pdfUrl := Some(url))
    case StartDelivery(_, _, at) => q.(deliveryStartedAt := Some(at))
    case MarkSent(_, _, recipient) => q.(status := SENT, sentTo := Some(recipient))
    case Revert(_) => q.(status := DRAFT, approvedBy := None)
    case _ => q
  }

  function Apply(t: Tables, op: Op): Tables {
    if !Affects(t, op) then t
    else
      match op
      case Replace(input) => Replaced(t, input)
      case Delete(requestId) => Deleted(t, requestId)
      case _ => t.(quotes := t.quotes[op.id := Updated(t.quotes[op.id], op)])
  }

  class QuoteModelAction {
    var quotes: map<nat, Quote>
    var lines: seq<LineRow>
    var nextId: nat

    constructor ()
      ensures State() == Tables(map[], [], 0)
    {
      quotes, lines, nextId := map[], [], 0;
    }

    function State(): Tables
      reads this
    {
      Tables(quotes, lines, nextId)
    }

    /** Refuses a currency other than the euro; otherwise the request has exactly the new quote. */
    method ReplaceForRequest(input: ReplaceInput) returns (r: Result<nat, string>)
      modifies this
      ensures State() == Apply(old(State()), Replace(input))
      ensures r == if IsEuroCurrency(input.currency) then Ok(old(nextId))
        else Err("A moeda do orçamento tem de ser EUR.")
    {
      if !IsEuroCurrency(input.currency) {
        return Err("A moeda do orçamento tem de ser EUR.");
      }
      var existing := set id | id in quotes && quotes[id].requestId == input.requestId;
      if existing != {} {
        lines := LinesOutside(lines, existing);
        quotes := quotes - existing;
      } else {
        NothingOutside(lines);
        assert quotes - existing == quotes;
      }
      var id := nextId;
      nextId := nextId + 1;
      quotes := quotes[id := NewQuote(input)];
      lines := lines + NewLines(id, input.lines);
      r := Ok(id);
    }

    method DeleteForRequest(requestId: string)
      modifies this
      ensures State() == Apply(old(State()), Delete(requestId))
    {
      var existing := set id | id in quotes && quotes[id].requestId == requestId;
      if existing == {} {
        return;
      }
      lines := LinesOutside(lines, existing);
      quotes := quotes - existing;
    }

    /** Claims a DRAFT quote; of any number of concurrent callers the row lets one through. */
    method TryClaimForApproval(id: nat, approvedBy: Option<string>) returns (claimed: bool)
      modifies this`quotes
      ensures claimed == Affects(old(State()), Claim(id, approvedBy))
      ensures State() == Apply(old(State()), Claim(id, approvedBy))
    {
      claimed := id in quotes && quotes[id].status == DRAFT;
      if claimed {
        quotes := quotes[id := quotes[id].(status := APPROVED, approvedBy := approvedBy)];
      }
    }

    method TryMarkReady(id: nat, pdfUrl: string) returns (ready: bool)
      modifies this`quotes
      ensures ready == Affects(old(State()), MarkReady(id, pdfUrl))
      ensures State() == Apply(old(State()), MarkReady(id, pdfUrl))
    {
      ready := id in quotes && quotes[id].status == APPROVED;
      if ready {
        quotes := quotes[id := quotes[id].(status := READY, pdfUrl := Some(pdfUrl))];
      }
    }

    method TryStartDelivery(id: nat, orgId: string, at: int) returns (started: bool)
      modifies this`quotes
      ensures started == Affects(old(State()), StartDelivery(id, orgId, at))
      ensures State() == Apply(old(State()), StartDelivery(id, orgId, at))
    {
      started := id in quotes && quotes[id].orgId == orgId && quotes[id].status == READY &&
        quotes[id].deliveryStartedAt.None?;
      if started {
        quotes := quotes[id := quotes[id].(deliveryStartedAt := Some(at))];
      }
    }

    method TryMarkSent(id: nat, orgId: string, recipient: string) returns (sent: bool)
      modifies this`quotes
      ensures sent == Affects(old(State()), MarkSent(id, orgId, recipient))
      ensures State() == Apply(old(State()), MarkSent(id, orgId, recipient))
    {
      sent := id in quotes && quotes[id].orgId == orgId && quotes[id].status == READY;
      if sent {
        quotes := quotes[id := quotes[id].(status := SENT, sentTo := Some(recipient))];
      }
    }

    method RevertToDraft(id: nat)
      modifies this`quotes
      ensures State() == Apply(old(State()), Revert(id))
    {
      if id in quotes && quotes[id].status == APPROVED {
        quotes := quotes[id := quotes[id].(status := DRAFT, approvedBy := None)];
      }
    }
  }

  lemma {:induction false} NothingOutside(lines: seq<LineRow>)
    ensures LinesOutside(lines, {}) == lines
  {
    if lines != [] {
      NothingOutside(lines[1..]);
    }
  }

  // ---------- Every interleaving ----------

  /** The tables before operation n of the run. */
  function At(run: seq<Op>, n: nat): Tables
    requires n <= |run|
  {
    if n == 0 then Tables(map[], [], 0) else Apply(At(run, n - 1), run[n - 1])
  }

  ghost predicate Succeeds(run: seq<Op>, n: nat)
    requires n < |run|
  {
    Affects(At(run, n), run[n])
  }

  ghost predicate RowConsistent(q: Quote) {
    && (q.pdfUrl.Some? <==> q.status == READY || q.status == SENT)
    && (q.deliveryStartedAt.Some? ==> q.status == READY || q.status == SENT)
    && (q.sentTo.Some? <==> q.status == SENT)
  }

  ghost predicate Consistent(t: Tables) {
    && (forall id :: id in t.quotes ==> id < t.nextId && RowConsistent(t.quotes[id]))
    && (forall a, b :: a in t.quotes && b in t.quotes && t.quotes[a].requestId == t.quotes[b].requestId ==> a == b)
    && (forall r :: r in t.lines ==> r.quoteId in t.quotes)
  }

  lemma {:induction false} LinesOutsideMembers(lines: seq<LineRow>, gone: set<nat>, r: LineRow)
    ensures r in LinesOutside(lines, gone) <==> r in lines && r.quoteId !in gone
  {
    if lines != [] {
      LinesOutsideMembers(lines[1..], gone, r);
      assert lines == [lines[0]] + lines[1..];
    }
  }

  lemma DeletedConsistent(t: Tables, requestId: string)
    requires Consistent(t)
    ensures Consistent(Deleted(t, requestId)) && QuotesOf(Deleted(t, requestId), requestId) == {}
  {
    forall r | r in Deleted(t, requestId).lines
      ensures r.quoteId in Deleted(t, requestId).quotes
    {
      LinesOutsideMembers(t.lines, QuotesOf(t, requestId), r);
    }
  }

  lemma ReplacedConsistent(t: Tables, input: ReplaceInput)
    requires Consistent(t)
    ensures Consistent(Replaced(t, input))
  {
    var d, after := Deleted(t, input.requestId), Replaced(t, input);
    DeletedConsistent(t, input.requestId);
    forall id | id in d.quotes
      ensures d.quotes[id].requestId != input.requestId
    {
      assert id !in QuotesOf(d, input.requestId);
    }
    forall r | r in after.lines
      ensures r.quoteId in after.quotes
    {
      if r !in d.lines {
        assert r in NewLines(t.nextId, input.lines);
      }
    }
  }

  lemma ApplyConsistent(t: Tables, op: Op)
    requires Consistent(t)
    ensures Consistent(Apply(t, op))
  {
    if op.Replace? {
      ReplacedConsistent(t, op.input);
    } else if op.Delete? {
      DeletedConsistent(t, op.requestId);
    }
  }

  /** A quote has a PDF exactly when it is READY or SENT, a request has at most one quote, and no line is orphaned. */
  lemma {:induction false} AlwaysConsistent(run: seq<Op>, n: nat)
    requires n <= |run|
    ensures Consistent(At(run, n))
  {
    if n > 0 {
      AlwaysConsistent(run, n - 1);
      ApplyConsistent(At(run, n - 1), run[n - 1]);
    }
  }

  /** A quote that is gone never comes back: ids are not reused. */
  lemma {:induction false} GoneForGood(run: seq<Op>, i: nat, j: nat, id: nat)
    requires i <= j <= |run| && id < At(run, i).nextId && id !in At(run, i).quotes
    ensures id < At(run, j).nextId && id !in At(run, j).quotes
    decreases j
  {
    if i < j {
      GoneForGood(run, i, j - 1, id);
    }
  }

  /** From step i to step j the quote was never reverted. */
  ghost predicate NotReverted(run: seq<Op>, i: nat, j: nat, id: nat)
    requires j <= |run|
  {
    forall m :: i < m < j ==> !(run[m] == Revert(id) && Succeeds(run, m))
  }

  /** Unless it is reverted, a quote that is no draft does not become one. */
  lemma StaysUndrafted(t: Tables, op: Op, id: nat)
    requires id < t.nextId && !(op == Revert(id) && Affects(t, op))
    requires id in t.quotes ==> t.quotes[id].status != DRAFT
    ensures id in Apply(t, op).quotes ==> Apply(t, op).quotes[id].status != DRAFT
  {
  }

  lemma {:induction false} ClaimHolds(run: seq<Op>, i: nat, j: nat, id: nat)
    requires i < j <= |run| && run[i].Claim? && run[i].id == id && Succeeds(run, i) && NotReverted(run, i, j, id)
    ensures id in At(run, j).quotes ==> At(run, j).quotes[id].status != DRAFT
    decreases j
  {
    if i + 1 < j {
      ClaimHolds(run, i, j - 1, id);
      AlwaysConsistent(run, i);
      NextIdGrows(run, i, j - 1);
      StaysUndrafted(At(run, j - 1), run[j - 1], id);
    }
  }

  lemma {:induction false} NextIdGrows(run: seq<Op>, i: nat, j: nat)
    requires i <= j <= |run|
    ensures At(run, i).nextId <= At(run, j).nextId
    decreases j
  {
    if i < j {
      NextIdGrows(run, i, j - 1);
    }
  }

  /** Two successful claims of one quote are separated by a revert that took effect. */
  lemma ClaimsAreSeparatedByARevert(run: seq<Op>, i: nat, j: nat)
    requires i < j < |run| && run[i].Claim? && run[j].Claim? && run[i].id == run[j].id
    requires Succeeds(run, i) && Succeeds(run, j)
    ensures exists m :: i < m < j && run[m] == Revert(run[i].id) && Succeeds(run, m)
  {
    if NotReverted(run, i, j, run[i].id) {
      ClaimHolds(run, i, j, run[i].id);
    }
  }

  lemma StaysSent(t: Tables, op: Op, id: nat)
    requires id < t.nextId && id in Apply(t, op).quotes
    ensures id in t.quotes
    ensures t.quotes[id].status == SENT ==> Apply(t, op).quotes[id] == t.quotes[id]
  {
  }

  lemma StaysStarted(t: Tables, op: Op, id: nat)
    requires Consistent(t) && id < t.nextId && id in Apply(t, op).quotes
    ensures id in t.quotes
    ensures t.quotes[id].deliveryStartedAt.Some? ==>
      Apply(t, op).quotes[id].deliveryStartedAt == t.quotes[id].deliveryStartedAt
  {
  }

  /** A SENT quote is frozen: as long as its row exists, nothing in it changes. */
  lemma {:induction false} SentIsFrozen(run: seq<Op>, i: nat, j: nat, id: nat)
    requires i <= j <= |run| && id in At(run, i).quotes && At(run, i).quotes[id].status == SENT
    requires id in At(run, j).quotes
    ensures At(run, j).quotes[id] == At(run, i).quotes[id]
    decreases j
  {
    if i < j {
      AlwaysConsistent(run, i);
      NextIdGrows(run, i, j - 1);
      StaysSent(At(run, j - 1), run[j - 1], id);
      SentIsFrozen(run, i, j - 1, id);
    }
  }

  lemma {:induction false} DeliveryStaysStarted(run: seq<Op>, i: nat, j: nat, id: nat)
    requires i <= j <= |run| && id in At(run, i).quotes && At(run, i).quotes[id].deliveryStartedAt.Some?
    requires id in At(run, j).quotes
    ensures At(run, j).quotes[id].deliveryStartedAt == At(run, i).quotes[id].deliveryStartedAt
    decreases j
  {
    if i < j {
      AlwaysConsistent(run, i);
      AlwaysConsistent(run, j - 1);
      NextIdGrows(run, i, j - 1);
      StaysStarted(At(run, j - 1), run[j - 1], id);
      DeliveryStaysStarted(run, i, j - 1, id);
    }
  }

  /** Starting the delivery of a quote succeeds at most once, and so does sending it. */
  lemma DeliveredAtMostOnce(run: seq<Op>, i: nat, j: nat)
    requires i < j < |run| && Succeeds(run, i)
    ensures run[i].StartDelivery? && run[j].StartDelivery? && run[i].id == run[j].id ==> !Succeeds(run, j)
    ensures run[i].MarkSent? && run[j].MarkSent? && run[i].id == run[j].id ==> !Succeeds(run, j)
  {
    if run[i].StartDelivery? && run[j].StartDelivery? && run[i].id == run[j].id && run[i].id in At(run, j).quotes {
      DeliveryStaysStarted(run, i + 1, j, run[i].id);
    }
    if run[i].MarkSent? && run[j].MarkSent? && run[i].id == run[j].id && run[i].id in At(run, j).quotes {
      SentIsFrozen(run, i + 1, j, run[i].id);
    }
  }
}
