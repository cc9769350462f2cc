/**
 The client's optimistic re-map: issuing a re-map shows an estimated total at once, the server's answer
 replaces it, a failure rolls back, and a per-request sequence number decides whose answer counts.
 Answers arrive in any order.
 */
module Remap {
  import opened Wrappers

  datatype LineItem = LineItem(id: string, position: int)

  datatype QuoteLine = QuoteLine(position: int, quantity: real, unitPriceMinor: real, amountMinor: real)

  datatype QuoteDetail = QuoteDetail(
    subtotalMinor: real, discountMinor: real, totalMinor: real, leadTimeDays: Option<int>, lines: seq<QuoteLine>)

  datatype RequestDetail = RequestDetail(lineItems: seq<LineItem>, quote: Option<QuoteDetail>)

  datatype Totals = Totals(subtotalMinor: real, discountMinor: real, totalMinor: real, leadTimeDays: Option<int>)

  function FindItem(items: seq<LineItem>, id: string): Option<LineItem> {
    if items == [] then None else if items[0].id == id then Some(items[0]) else FindItem(items[1..], id)
  }

  function FindLine(lines: seq<QuoteLine>, position: int): Option<QuoteLine> {
    if lines == [] then None else if lines[0].position == position then Some(lines[0])
      else FindLine(lines[1..], position)
  }

  function Repriced(lines: seq<QuoteLine>, position: int, unit: real, amount: real): seq<QuoteLine> {
    seq(|lines|, i requires 0 <= i < |lines| =>
      if lines[i].position == position then lines[i].(unitPriceMinor := unit, amountMinor := amount) else lines[i])
  }

  /** The quote line a line item stands for, found by position. */
  function LineOf(detail: RequestDetail, lineId: string): Option<QuoteLine> {
    if detail.quote.None? then None
    else
      match FindItem(detail.lineItems, lineId)
      case None => None
      case Some(item) => FindLine(detail.quote.value.lines, item.position)
  }

  function WithOptimisticTotal(detail: RequestDetail, lineId: string, unit: real): Option<RequestDetail> {
    match LineOf(detail, lineId)
    case None => None
    case Some(line) =>
      var quote := detail.quote.value;
      var amount := line.quantity * unit;
      var subtotal := quote.subtotalMinor - line.amountMinor + amount;
      Some(detail.(quote := Some(quote.(
        subtotalMinor := subtotal, totalMinor := subtotal - quote.discountMinor,
        lines := Repriced(quote.lines, line.position, unit, amount)))))
  }

  function ReconcileTotals(detail: RequestDetail, t: Totals): RequestDetail {
    if detail.quote.None? then detail
    else detail.(quote := Some(detail.quote.value.(
      subtotalMinor := t.subtotalMinor, discountMinor := t.discountMinor, totalMinor := t.totalMinor,
        leadTimeDays := t.leadTimeDays)))
  }

  datatype Context = Context(previous: Option<RequestDetail>, seqNo: nat)

  function Lookup<T>(m: map<string, T>, k: string): Option<T> {
    if k in m then Some(m[k]) else None
  }

  /** The query cache and the module-scoped sequence numbers, shared by every mounted component. */
  class RemapClient {
    var cache: map<string, RequestDetail>
    var remapSeqByRequest: map<string, nat>

    constructor (cache: map<string, RequestDetail>)
      ensures this.cache == cache && remapSeqByRequest == map[]
    {
      this.cache, remapSeqByRequest := cache, map[];
    }

    predicate IsCurrent(requestId: string, ctx: Context)
      reads this
    {
      Lookup(remapSeqByRequest, requestId) == Some(ctx.seqNo)
    }

    /** The client with the re-maps issued so far. */
    ghost function State(issued: seq<Issued>): Client
      reads this
    {
      Client(cache, remapSeqByRequest, issued)
    }

    method OnMutate(requestId: string, lineId: string, optimisticUnit: Option<real>, ghost issued: seq<Issued>)
      returns (ctx: Context)
      modifies this
      ensures State(issued + [Issued(requestId, ctx)]) ==
        Apply(old(State(issued)), Issue(requestId, lineId, optimisticUnit))
      ensures ctx == Context(Lookup(old(cache), requestId), NextSeq(old(remapSeqByRequest), requestId))
      ensures remapSeqByRequest == old(remapSeqByRequest)[requestId := ctx.seqNo]
      ensures cache == ShownAt(old(cache), requestId, lineId, optimisticUnit)
    {
      var previous := Lookup(cache, requestId);
      var seqNo := NextSeq(remapSeqByRequest, requestId);
      remapSeqByRequest := remapSeqByRequest[requestId := seqNo];
      if previous.Some? && optimisticUnit.Some? {
        var optimistic := WithOptimisticTotal(previous.value, lineId, optimisticUnit.value);
        if optimistic.Some? {
          cache := cache[requestId := optimistic.value];
        }
      }
      ctx := Context(previous, seqNo);
    }

    /** The error handler of the k-th re-map. */
    method OnError(requestId: string, ctx: Context, ghost issued: seq<Issued>, ghost k: nat)
      requires k < |issued| && issued[k] == Issued(requestId, ctx)
      modifies this`cache
      ensures State(issued) == Apply(old(State(issued)), Fail(k))
      ensures cache ==
        if IsCurrent(requestId, ctx) && ctx.previous.Some? then old(cache)[requestId := ctx.previous.value]
        else old(cache)
    {
      if !IsCurrent(requestId, ctx) {
        return;
      }
      if ctx.previous.Some? {
        cache := cache[requestId := ctx.previous.value];
      }
    }

    method OnSuccess(requestId: string, totals: Totals, ctx: Context, ghost issued: seq<Issued>, ghost k: nat)
      requires k < |issued| && issued[k] == Issued(requestId, ctx)
      modifies this`cache
      ensures State(issued) == Apply(old(State(issued)), Succeed(k, totals))
      ensures cache == if IsCurrent(requestId, ctx) && requestId in old(cache)
                       then old(cache)[requestId := ReconcileTotals(old(cache)[requestId], totals)] else old(cache)
    {
      if !IsCurrent(requestId, ctx) {
        return;
      }
      if requestId in cache {
        cache := cache[requestId := ReconcileTotals(cache[requestId], totals)];
      }
    }

    /** Whether a background refetch is triggered: only by the latest re-map. */
    method OnSettled(requestId: string, ctx: Context) returns (invalidate: bool)
      ensures forall issued: seq<Issued>, k: nat ::
        k < |issued| && issued[k] == Issued(requestId, ctx) ==> (invalidate <==> Current(State(issued), k))
    {
      invalidate := IsCurrent(requestId, ctx);
    }
  }

  function NextSeq(seqs: map<string, nat>, requestId: string): nat {
    (if requestId in seqs then seqs[requestId] else 0) + 1
  }

  function ShownAt(cache: map<string, RequestDetail>, requestId: string, lineId: string,
      unit: Option<real>): map<string, RequestDetail> {
    if requestId in cache && unit.Some? && WithOptimisticTotal(cache[requestId], lineId, unit.value).Some?
    then cache[requestId := WithOptimisticTotal(cache[requestId], lineId, unit.value).value] else cache
  }

  // ---------- The estimate ----------

  /**
   With total = subtotal - discount the estimate moves the total by exactly the change of the one line, and keeps
   that equation.
   */
  lemma EstimateMovesByTheLine(detail: RequestDetail, lineId: string, unit: real)
    requires WithOptimisticTotal(detail, lineId, unit).Some?
    requires detail.quote.value.totalMinor == detail.quote.value.subtotalMinor - detail.quote.value.discountMinor
    ensures var before, line := detail.quote.value, LineOf(detail, lineId).value;
      var after := WithOptimisticTotal(detail, lineId, unit).value.quote.value;
      && after.totalMinor - before.totalMinor == line.quantity * unit - line.amountMinor
      && after.totalMinor == after.subtotalMinor - after.discountMinor && after.discountMinor == before.discountMinor
      && LineOf(WithOptimisticTotal(detail, lineId, unit).value, lineId) ==
           Some(line.(unitPriceMinor := unit, amountMinor := line.quantity * unit))
  {
    var item := FindItem(detail.lineItems, lineId).value;
    FoundLineIsRepriced(detail.quote.value.lines, item.position, unit, LineOf(detail, lineId).value.quantity * unit);
  }

  /** Nothing else is estimated: not the items, the discount, the lead time, nor any quote line at another position. */
  lemma EstimateTouchesOneLine(detail: RequestDetail, lineId: string, unit: real, i: nat)
    requires WithOptimisticTotal(detail, lineId, unit).Some? && i < |detail.quote.value.lines|
    ensures var before, after := detail.quote.value, WithOptimisticTotal(detail, lineId, unit).value;
      && after.lineItems == detail.lineItems && after.quote.Some? && |after.quote.value.lines| == |before.lines|
      && after.quote.value.discountMinor == before.discountMinor
      && after.quote.value.leadTimeDays == before.leadTimeDays
      && (before.lines[i].position != LineOf(detail, lineId).value.position ==>
            after.quote.value.lines[i] == before.lines[i])
      && after.quote.value.lines[i].position == before.lines[i].position
      && after.quote.value.lines[i].quantity == before.lines[i].quantity
  {
    var item := FindItem(detail.lineItems, lineId).value;
    FoundLineIsRepriced(detail.quote.value.lines, item.position, unit, LineOf(detail, lineId).value.quantity * unit);
  }

  ghost predicate IsFirstItem(items: seq<LineItem>, id: string, item: LineItem) {
    exists i ::
      && 0 <= i < |items| && items[i] == item && item.id == id && forall j :: 0 <= j < i ==> items[j].id != id
  }

  ghost predicate IsFirstLine(lines: seq<QuoteLine>, position: int, line: QuoteLine) {
    exists i ::
      && 0 <= i < |lines| && lines[i] == line && line.position == position
      && forall j :: 0 <= j < i ==> lines[j].position != position
  }

  lemma {:induction false} FirstItemFound(items: seq<LineItem>, id: string, item: LineItem)
    ensures FindItem(items, id) == Some(item) <==> IsFirstItem(items, id, item)
  {
    if items != [] && items[0].id != id {
      var rest := items[1..];
      FirstItemFound(rest, id, item);
      if IsFirstItem(items, id, item) {
        var i :| 0 <= i < |items| && items[i] == item && forall j :: 0 <= j < i ==> items[j].id != id;
        assert rest[i - 1] == item && forall j :: 0 <= j < i - 1 ==> rest[j] == items[j + 1];
      }
      if IsFirstItem(rest, id, item) {
        var i :| 0 <= i < |rest| && rest[i] == item && item.id == id && forall j :: 0 <= j < i ==> rest[j].id != id;
        assert items[i + 1] == item && forall j :: 0 < j < i + 1 ==> items[j] == rest[j - 1];
      }
    }
  }

  lemma {:induction false} FirstLineFound(lines: seq<QuoteLine>, position: int, line: QuoteLine)
    ensures FindLine(lines, position) == Some(line) <==> IsFirstLine(lines, position, line)
  {
    if lines != [] && lines[0].position != position {
      var rest := lines[1..];
      FirstLineFound(rest, position, line);
      if IsFirstLine(lines, position, line) {
        var i :| 0 <= i < |lines| && lines[i] == line && line.position == position
          && forall j :: 0 <= j < i ==> lines[j].position != position;
        assert rest[i - 1] == line && forall j :: 0 <= j < i - 1 ==> rest[j] == lines[j + 1];
      }
      if IsFirstLine(rest, position, line) {
        var i :| 0 <= i < |rest| && rest[i] == line && line.position == position
          && forall j :: 0 <= j < i ==> rest[j].position != position;
        assert lines[i + 1] == line && forall j :: 0 < j < i + 1 ==> lines[j] == rest[j - 1];
      }
    }
  }

  /** The estimated line is the first quote line at the position of the first item of that id. */
  lemma EstimatedLine(detail: RequestDetail, lineId: string, unit: real, line: QuoteLine)
    ensures LineOf(detail, lineId) == Some(line) <==> detail.quote.Some? && exists item: LineItem ::
      && IsFirstItem(detail.lineItems, lineId, item) && IsFirstLine(detail.quote.value.lines, item.position, line)
    ensures WithOptimisticTotal(detail, lineId, unit).None? <==> LineOf(detail, lineId).None?
  {
    hide IsFirstItem, IsFirstLine, FindItem, FindLine;
    if detail.quote.Some? {
      forall item: LineItem
        ensures FindItem(detail.lineItems, lineId) == Some(item) <==> IsFirstItem(detail.lineItems, lineId, item)
      {
        FirstItemFound(detail.lineItems, lineId, item);
      }
      if LineOf(detail, lineId).Some? || FindItem(detail.lineItems, lineId).Some? {
        FirstLineFound(detail.quote.value.lines, FindItem(detail.lineItems, lineId).value.position, line);
      }
    }
  }

  /** An answer changes the four totals of a quote that is there, and nothing else. */
  lemma AnswerChangesTheTotals(detail: RequestDetail, t: Totals)
    ensures var after := ReconcileTotals(detail, t);
      && after.lineItems == detail.lineItems && (after.quote.Some? <==> detail.quote.Some?)
      && (detail.quote.Some? ==>
            var q := after.quote.value;
            && q.subtotalMinor == t.subtotalMinor && q.discountMinor == t.discountMinor
            && q.totalMinor == t.totalMinor && q.leadTimeDays == t.leadTimeDays && q.lines == detail.quote.value.lines)
  {
  }

  lemma {:induction false} FoundLineIsRepriced(lines: seq<QuoteLine>, position: int, unit: real, amount: real)
    requires FindLine(lines, position).Some?
    ensures FindLine(lines, position).value.position == position
    ensures FindLine(Repriced(lines, position, unit, amount), position) ==
              Some(FindLine(lines, position).value.(unitPriceMinor := unit, amountMinor := amount))
  {
    if lines[0].position != position {
      FoundLineIsRepriced(lines[1..], position, unit, amount);
      assert Repriced(lines, position, unit, amount)[1..] == Repriced(lines[1..], position, unit, amount);
    }
  }

  // ---------- Any order of issues, answers, failures and refetches ----------

  datatype Op =
    | Issue(requestId: string, lineId: string, unit: Option<real>)
    | Succeed(k: nat, totals: Totals)
    | Fail(k: nat)
    | Refetch(requestId: string, detail: RequestDetail)

  /** The k-th re-map issued, with the context onMutate gave it. */
  datatype Issued = Issued(requestId: string, ctx: Context)

  datatype Client = Client(cache: map<string, RequestDetail>, seqs: map<string, nat>, issued: seq<Issued>)

  predicate Current(c: Client, k: nat)
    requires k < |c.issued|
  {
    Lookup(c.seqs, c.issued[k].requestId) == Some(c.issued[k].ctx.seqNo)
  }

  function Apply(c: Client, op: Op): Client {
    match op
    case Issue(r, lineId, unit) =>
      Client(ShownAt(c.cache, r, lineId, unit), c.seqs[r := NextSeq(c.seqs, r)],
             c.issued + [Issued(r, Context(Lookup(c.cache, r), NextSeq(c.seqs, r)))])
    case Succeed(k, totals) =>
      if k < |c.issued| && Current(c, k) && c.issued[k].requestId in c.cache
      then c.(cache := c.cache[c.issued[k].requestId := ReconcileTotals(c.cache[c.issued[k].requestId], totals)]) else c
    case Fail(k) =>
      if k < |c.issued| && Current(c, k) && c.issued[k].ctx.previous.Some?
      then c.(cache := c.cache[c.issued[k].requestId := c.issued[k].ctx.previous.value]) else c
    case Refetch(r, detail) => c.(cache := c.cache[r := detail])
  }

  function At(cache: map<string, RequestDetail>, run: seq<Op>, n: nat): Client
    requires n <= |run|
  {
    if n == 0 then Client(cache, map[], []) else Apply(At(cache, run, n - 1), run[n - 1])
  }

  /** The request an operation is about. */
  function About(c: Client, op: Op): Option<string> {
    match op
    case Issue(r, _, _) => Some(r)
    case Succeed(k, _) => if k < |c.issued| then Some(c.issued[k].requestId) else None
    case Fail(k) => if k < |c.issued| then Some(c.issued[k].requestId) else None
    case Refetch(r, _) => Some(r)
  }

  ghost predicate LatestOf(c: Client, k: nat)
    requires k < |c.issued|
  {
    forall m :: k < m < |c.issued| ==> c.issued[m].requestId != c.issued[k].requestId
  }

  ghost predicate Numbered(c: Client) {
    && (forall k :: 0 <= k < |c.issued| ==>
          && c.issued[k].requestId in c.seqs
          && c.issued[k].ctx.seqNo <= c.seqs[c.issued[k].requestId]
          && (c.issued[k].ctx.seqNo == c.seqs[c.issued[k].requestId] <==> LatestOf(c, k)))
  }

  lemma IssueNumbers(c: Client, r: string, lineId: string, unit: Option<real>)
    requires Numbered(c)
    ensures Numbered(Apply(c, Issue(r, lineId, unit)))
  {
    var after := Apply(c, Issue(r, lineId, unit));
    forall k | 0 <= k < |c.issued|
      ensures LatestOf(after, k) <==> LatestOf(c, k) && c.issued[k].requestId != r
    {
      assert after.issued[|c.issued|].requestId == r;
      assert forall m :: k < m < |c.issued| ==> after.issued[m] == c.issued[m];
    }
    forall k | 0 <= k < |after.issued|
      ensures && after.issued[k].requestId in after.seqs
              && after.issued[k].ctx.seqNo <= after.seqs[after.issued[k].requestId]
              && (after.issued[k].ctx.seqNo == after.seqs[after.issued[k].requestId] <==> LatestOf(after, k))
    {
      assert k < |c.issued| ==> after.issued[k] == c.issued[k];
    }
  }

  lemma StepNumbers(c: Client, op: Op)
    requires Numbered(c)
    ensures Numbered(Apply(c, op))
  {
    if op.Issue? {
      IssueNumbers(c, op.requestId, op.lineId, op.unit);
    } else {
      var after := Apply(c, op);
      assert after.issued == c.issued && after.seqs == c.seqs;
      assert forall k :: 0 <= k < |c.issued| ==> (LatestOf(after, k) <==> LatestOf(c, k));
    }
  }

  lemma {:induction false} AlwaysNumbered(cache: map<string, RequestDetail>, run: seq<Op>, n: nat)
    requires n <= |run|
    ensures Numbered(At(cache, run, n))
  {
    if n > 0 {
      AlwaysNumbered(cache, run, n - 1);
      StepNumbers(At(cache, run, n - 1), run[n - 1]);
    }
  }

  /** Only the latest-issued re-map of a request can write: any other answer or failure leaves everything as it was. */
  lemma SupersededAnswersAreIgnored(cache: map<string, RequestDetail>, run: seq<Op>, n: nat)
    requires n < |run| && (run[n].Succeed? || run[n].Fail?)
    ensures var c := At(cache, run, n);
      run[n].k < |c.issued| && !LatestOf(c, run[n].k) ==> At(cache, run, n + 1) == c
    ensures var c := At(cache, run, n);
      run[n].k < |c.issued| ==> (Current(c, run[n].k) <==> LatestOf(c, run[n].k))
  {
    AlwaysNumbered(cache, run, n);
  }

  /** No operation touches another request's cache entry or sequence number. */
  lemma OtherRequestsUntouched(cache: map<string, RequestDetail>, run: seq<Op>, n: nat, other: string)
    requires n < |run| && About(At(cache, run, n), run[n]) != Some(other)
    ensures Lookup(At(cache, run, n + 1).cache, other) == Lookup(At(cache, run, n).cache, other)
    ensures Lookup(At(cache, run, n + 1).seqs, other) == Lookup(At(cache, run, n).seqs, other)
  {
  }

  /** Every mutation settles once: it succeeds or fails, not both, not twice. */
  ghost predicate SettlesOnce(run: seq<Op>) {
    forall i, j :: 0 <= i < j < |run| && (run[i].Succeed? || run[i].Fail?) && (run[j].Succeed? || run[j].Fail?) ==>
      run[i].k != run[j].k
  }

  ghost predicate Shows(c: Client, requestId: string, t: Totals) {
    requestId in c.cache && c.cache[requestId].quote.Some? ==>
      var q := c.cache[requestId].quote.value;
      Totals(q.subtotalMinor, q.discountMinor, q.totalMinor, q.leadTimeDays) == t
  }

  /** Between i and j the request was neither re-mapped again nor refetched. */
  ghost predicate Quiet(run: seq<Op>, i: nat, j: nat, requestId: string)
    requires j <= |run|
  {
    forall m :: i < m < j ==>
      && (run[m].Issue? ==> run[m].requestId != requestId)
      && (run[m].Refetch? ==> run[m].requestId != requestId)
  }

  /** Mutation k is the latest of request r, and r shows the answer t. */
  ghost predicate Settled(c: Client, k: nat, r: string, t: Totals) {
    k < |c.issued| && c.issued[k].requestId == r && LatestOf(c, k) && Shows(c, r, t)
  }

  lemma AnswerSettles(c: Client, k: nat, t: Totals)
    requires Numbered(c) && k < |c.issued| && LatestOf(c, k)
    ensures Settled(Apply(c, Succeed(k, t)), k, c.issued[k].requestId, t)
  {
  }

  lemma QuietStepKeeps(c: Client, op: Op, k: nat, r: string, t: Totals)
    requires Numbered(c) && Settled(c, k, r, t)
    requires op.Issue? || op.Refetch? ==> op.requestId != r
    requires op.Succeed? || op.Fail? ==> op.k != k
    ensures Settled(Apply(c, op), k, r, t)
  {
    if (op.Succeed? || op.Fail?) && op.k < |c.issued| && c.issued[op.k].requestId == r {
      assert !LatestOf(c, op.k) && !Current(c, op.k);
    }
  }

  /**
   Last write wins: once the latest re-map of a request has succeeded, the shown totals are its response
   until that request is re-mapped again or refetched, whatever late answers still arrive.
   */
  lemma {:induction false} LatestAnswerStays(cache: map<string, RequestDetail>, run: seq<Op>, i: nat, j: nat)
    requires SettlesOnce(run) && i < j <= |run| && run[i].Succeed?
    requires run[i].k < |At(cache, run, i).issued| && LatestOf(At(cache, run, i), run[i].k)
    requires Quiet(run, i, j, At(cache, run, i).issued[run[i].k].requestId)
    ensures Settled(At(cache, run, j), run[i].k, At(cache, run, i).issued[run[i].k].requestId, run[i].totals)
    decreases j
  {
    AlwaysNumbered(cache, run, j - 1);
    if i + 1 < j {
      LatestAnswerStays(cache, run, i, j - 1);
      QuietStepKeeps(At(cache, run, j - 1), run[j - 1], run[i].k, At(cache, run, i).issued[run[i].k].requestId,
        run[i].totals);
    } else {
      AnswerSettles(At(cache, run, i), run[i].k, run[i].totals);
    }
  }

  /** A lone re-map that fails leaves the cache as it was before it was issued. */
  lemma FailureRollsBack(c: Client, requestId: string, lineId: string, unit: Option<real>)
    ensures var issued := Apply(c, Issue(requestId, lineId, unit));
      Apply(issued, Fail(|c.issued|)).cache == c.cache
  {
    var issued := Apply(c, Issue(requestId, lineId, unit));
    assert Current(issued, |c.issued|);
    if requestId in c.cache {
      assert issued.cache[requestId := c.cache[requestId]] == c.cache;
    }
  }

  /**
   Two overlapping re-maps that both fail do not roll back together: the first failure is superseded and ignored, and
   the second restores a snapshot that shows the first one's estimate. The cache is back where it was if and only if
   that estimate showed nothing; otherwise only the refetch that settling triggers repairs it.
   */
  lemma OverlappingFailuresRollBackIff(
    c: Client, requestId: string, line1: string, unit1: Option<real>, line2: string, unit2: Option<real>)
    ensures var first := Apply(c, Issue(requestId, line1, unit1));
      var second := Apply(first, Issue(requestId, line2, unit2));
      var failed := Apply(Apply(second, Fail(|c.issued|)), Fail(|c.issued| + 1));
      && failed.cache == ShownAt(c.cache, requestId, line1, unit1)
      && (failed.cache == c.cache <==> ShownAt(c.cache, requestId, line1, unit1) == c.cache)
  {
    var first := Apply(c, Issue(requestId, line1, unit1));
    var second := Apply(first, Issue(requestId, line2, unit2));
    assert !Current(second, |c.issued|) && Current(second, |c.issued| + 1);
    if requestId in first.cache {
      assert second.cache[requestId := first.cache[requestId]] == first.cache;
    }
  }
}
