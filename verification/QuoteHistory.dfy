/**
 What the stored quotes tell of the operations that led to them, however callers interleave: a quote carries the figures
 and lines it was created from, its status and the fields beside it name the updates that took effect, and an update
 takes effect exactly when those before it allow it.
 */
module QuoteHistory {
  import opened QuoteLifecycle
  import opened Text
  import opened Wrappers

  // ---------- Figures and lines ----------

  /** The lines of a quote, in stored order. */
  function LinesOf(rows: seq<LineRow>, id: nat): seq<QuoteLine> {
    if rows == [] then []
    else (if rows[0].quoteId == id then [rows[0].line] else []) + LinesOf(rows[1..], id)
  }

  /** The quote is that of the input, whatever has become of it since. */
  ghost predicate Carries(q: Quote, input: ReplaceInput) {
    && q.requestId == input.requestId && q.orgId == input.orgId && q.subtotalMinor == input.subtotalMinor
    && q.discountMinor == input.discountMinor && q.totalMinor == input.totalMinor
    && q.leadTimeDays == input.leadTimeDays
  }

  /** The operation takes the quote of a request away: it deletes or replaces it. */
  ghost predicate Retires(op: Op, requestId: string) {
    op == Delete(requestId) || (op.Replace? && op.input.requestId == requestId)
  }

  /** Step m created the quote `id`, and nothing has retired it until step n. */
  ghost predicate Created(run: seq<Op>, m: nat, n: nat, id: nat)
    requires n <= |run|
  {
    && m < n && run[m].Replace? && Succeeds(run, m) && id == At(run, m).nextId
    && forall k :: m < k < n ==> !(Retires(run[k], run[m].input.requestId) && Succeeds(run, k))
  }

  lemma {:induction false} LinesOfConcat(a: seq<LineRow>, b: seq<LineRow>, id: nat)
    ensures LinesOf(a + b, id) == LinesOf(a, id) + LinesOf(b, id)
  {
    if a == [] {
      assert a + b == b;
    } else {
      assert (a + b)[1..] == a[1..] + b && (a + b)[0] == a[0];
      LinesOfConcat(a[1..], b, id);
      Grouped(if a[0].quoteId == id then [a[0].line] else [], LinesOf(a[1..], id), LinesOf(b, id));
    }
  }

  lemma Grouped<T>(a: seq<T>, b: seq<T>, c: seq<T>)
    ensures a + (b + c) == a + b + c
  {
  }

  lemma {:induction false} LinesOfOthers(rows: seq<LineRow>, id: nat)
    requires forall r :: r in rows ==> r.quoteId != id
    ensures LinesOf(rows, id) == []
  {
    if rows != [] {
      assert rows[0] in rows;
      LinesOfOthers(rows[1..], id);
    }
  }

  lemma {:induction false} LinesOfNew(id: nat, lines: seq<QuoteLine>)
    ensures LinesOf(NewLines(id, lines), id) == lines
  {
    if lines != [] {
      assert NewLines(id, lines)[1..] == NewLines(id, lines[1..]);
      LinesOfNew(id, lines[1..]);
    }
  }

  lemma {:induction false} LinesOfKept(rows: seq<LineRow>, gone: set<nat>, id: nat)
    requires id !in gone
    ensures LinesOf(LinesOutside(rows, gone), id) == LinesOf(rows, id)
  {
    if rows != [] {
      LinesOfKept(rows[1..], gone, id);
      if rows[0].quoteId !in gone {
        assert ([rows[0]] + LinesOutside(rows[1..], gone))[1..] == LinesOutside(rows[1..], gone);
      }
    }
  }

  /** A new quote has the input's figures and lines, and whatever the other requests have stays as it is. */
  lemma ReplacedContents(t: Tables, input: ReplaceInput)
    requires Consistent(t)
    ensures var u := Replaced(t, input);
      && t.nextId in u.quotes && Carries(u.quotes[t.nextId], input) && LinesOf(u.lines, t.nextId) == input.lines
      && u.quotes[t.nextId].status == DRAFT && u.nextId == t.nextId + 1
  {
    var d := Deleted(t, input.requestId);
    DeletedConsistent(t, input.requestId);
    LinesOfConcat(d.lines, NewLines(t.nextId, input.lines), t.nextId);
    LinesOfNew(t.nextId, input.lines);
    forall r | r in d.lines
      ensures r.quoteId != t.nextId
    {
      LinesOutsideMembers(t.lines, QuotesOf(t, input.requestId), r);
    }
    LinesOfOthers(d.lines, t.nextId);
  }

  /** A quote that an operation does not retire keeps its figures and lines. */
  lemma OthersKeepTheirContents(t: Tables, op: Op, id: nat)
    requires Consistent(t) && id in t.quotes && !(Retires(op, t.quotes[id].requestId) && Affects(t, op))
    ensures var u := Apply(t, op);
      && id in u.quotes && LinesOf(u.lines, id) == LinesOf(t.lines, id)
      && u.quotes[id].requestId == t.quotes[id].requestId && u.quotes[id].orgId == t.quotes[id].orgId
      && u.quotes[id].subtotalMinor == t.quotes[id].subtotalMinor
      && u.quotes[id].discountMinor == t.quotes[id].discountMinor
      && u.quotes[id].totalMinor == t.quotes[id].totalMinor && u.quotes[id].leadTimeDays == t.quotes[id].leadTimeDays
  {
    if op.Replace? && Affects(t, op) {
      var gone := QuotesOf(t, op.input.requestId);
      LinesOfKept(t.lines, gone, id);
      LinesOfConcat(LinesOutside(t.lines, gone), NewLines(t.nextId, op.input.lines), id);
      LinesOfOthers(NewLines(t.nextId, op.input.lines), id);
    } else if op.Delete? {
      LinesOfKept(t.lines, QuotesOf(t, op.requestId), id);
    }
  }

  /** A quote that nothing has retired is stored with the figures and lines it was created from. */
  lemma {:induction false} CreatedIsStored(run: seq<Op>, m: nat, n: nat, id: nat)
    requires n <= |run| && Created(run, m, n, id)
    ensures var t := At(run, n);
      id in t.quotes && Carries(t.quotes[id], run[m].input) && LinesOf(t.lines, id) == run[m].input.lines
    decreases n
  {
    hide Apply, Affects, LinesOf;
    AlwaysConsistent(run, n - 1);
    if m == n - 1 {
      ReplacedContents(At(run, m), run[m].input);
      ReplaceApplies(At(run, m), run[m]);
    } else {
      CreatedIsStored(run, m, n - 1, id);
      OthersKeepTheirContents(At(run, n - 1), run[n - 1], id);
    }
  }

  lemma ReplaceApplies(t: Tables, op: Op)
    requires op.Replace? && Affects(t, op)
    ensures Apply(t, op) == Replaced(t, op.input)
  {
  }

  lemma RetiredIsGone(t: Tables, op: Op, id: nat)
    requires Consistent(t) && id in t.quotes && Retires(op, t.quotes[id].requestId) && Affects(t, op)
    ensures id !in Apply(t, op).quotes
  {
    assert id in QuotesOf(t, t.quotes[id].requestId);
  }

  lemma NewIsReplaced(t: Tables, op: Op, id: nat)
    requires id in Apply(t, op).quotes && id !in t.quotes
    ensures op.Replace? && Affects(t, op) && id == t.nextId
  {
  }

  /**
   Every stored quote was created by one replacement that took effect, carries its figures, tenant and lines, and
   nothing has deleted or replaced it since.
   */
  lemma {:induction false} StoredWasCreated(run: seq<Op>, n: nat, id: nat) returns (m: nat)
    requires n <= |run| && id in At(run, n).quotes
    ensures Created(run, m, n, id)
    ensures var t := At(run, n);
      Carries(t.quotes[id], run[m].input) && LinesOf(t.lines, id) == run[m].input.lines
  {
    hide Apply, Affects;
    var before := At(run, n - 1);
    AlwaysConsistent(run, n - 1);
    if id in before.quotes {
      m := StoredWasCreated(run, n - 1, id);
      if Retires(run[n - 1], before.quotes[id].requestId) && Affects(before, run[n - 1]) {
        RetiredIsGone(before, run[n - 1], id);
      }
    } else {
      m := n - 1;
      NewIsReplaced(before, run[n - 1], id);
    }
    CreatedIsStored(run, m, n, id);
  }

  /** Retiring leaves a request without the quote it had; a replacement leaves it the new one alone. */
  lemma OneQuoteAfterReplacing(t: Tables, input: ReplaceInput)
    requires Consistent(t) && IsEuroCurrency(input.currency)
    ensures QuotesOf(Apply(t, Replace(input)), input.requestId) == {t.nextId}
    ensures QuotesOf(Apply(t, Delete(input.requestId)), input.requestId) == {}
  {
    ReplacedContents(t, input);
    ReplacedConsistent(t, input);
    DeletedConsistent(t, input.requestId);
  }

  // ---------- Status ----------

  /** The operation took effect before step n. */
  ghost predicate Done(run: seq<Op>, n: nat, op: Op)
    requires n <= |run|
  {
    exists k :: 0 <= k < n && run[k] == op && Succeeds(run, k)
  }

  /** The claim took effect before step n and was not reverted. */
  ghost predicate Standing(run: seq<Op>, n: nat, id: nat, who: Option<string>)
    requires n <= |run|
  {
    exists k :: 0 <= k < n && run[k] == Claim(id, who) && Succeeds(run, k) && NotReverted(run, k, n, id)
  }

  lemma DoneNext(run: seq<Op>, n: nat, op: Op)
    requires 0 < n <= |run|
    ensures Done(run, n, op) <==> Done(run, n - 1, op) || (run[n - 1] == op && Succeeds(run, n - 1))
  {
    hide Succeeds;
  }

  lemma StandingNext(run: seq<Op>, n: nat, id: nat, who: Option<string>)
    requires 0 < n <= |run|
    ensures Standing(run, n, id, who) <==>
      || (Standing(run, n - 1, id, who) && !(run[n - 1] == Revert(id) && Succeeds(run, n - 1)))
      || (run[n - 1] == Claim(id, who) && Succeeds(run, n - 1))
  {
    hide Succeeds;
    if Standing(run, n - 1, id, who) && !(run[n - 1] == Revert(id) && Succeeds(run, n - 1)) {
      var k :| 0 <= k < n - 1 && run[k] == Claim(id, who) && Succeeds(run, k) && NotReverted(run, k, n - 1, id);
      assert NotReverted(run, k, n, id);
    }
    if Standing(run, n, id, who) {
      var k :| 0 <= k < n && run[k] == Claim(id, who) && Succeeds(run, k) && NotReverted(run, k, n, id);
      if k < n - 1 {
        assert NotReverted(run, k, n - 1, id);
      }
    }
    if run[n - 1] == Claim(id, who) && Succeeds(run, n - 1) {
      assert NotReverted(run, n - 1, n, id);
    }
  }

  /** What status and fields say of the past is what happened. */
  ghost predicate Tells(run: seq<Op>, n: nat, id: nat, q: Quote)
    requires n <= |run|
  {
    && (q.status == DRAFT ==> q.approvedBy.None? && forall who :: !Standing(run, n, id, who))
    && (q.status != DRAFT ==> forall who :: Standing(run, n, id, who) <==> who == q.approvedBy)
    && (forall url :: Done(run, n, MarkReady(id, url)) <==> q.pdfUrl == Some(url))
    && (forall org, at :: Done(run, n, StartDelivery(id, org, at)) <==>
          org == q.orgId && q.deliveryStartedAt == Some(at))
    && forall org, to :: Done(run, n, MarkSent(id, org, to)) <==> org == q.orgId && q.sentTo == Some(to)
  }

  lemma NothingDoneYet(run: seq<Op>, n: nat, id: nat)
    requires n <= |run| && At(run, n).nextId <= id
    ensures forall who :: !Standing(run, n, id, who)
    ensures forall url :: !Done(run, n, MarkReady(id, url))
    ensures forall org, at :: !Done(run, n, StartDelivery(id, org, at))
    ensures forall org, to :: !Done(run, n, MarkSent(id, org, to))
  {
    hide Apply, NotReverted;
    forall k | 0 <= k < n
      ensures id !in At(run, k).quotes
    {
      AlwaysConsistent(run, k);
      NextIdGrows(run, k, n);
    }
  }

  lemma RowNext(t: Tables, op: Op, id: nat)
    requires Consistent(t) && id in t.quotes && id in Apply(t, op).quotes
    ensures Apply(t, op).quotes[id] ==
      if !op.Replace? && !op.Delete? && op.id == id && Affects(t, op) then Updated(t.quotes[id], op) else t.quotes[id]
  {
  }

  lemma AtNext(run: seq<Op>, n: nat)
    requires 0 < n <= |run|
    ensures At(run, n) == Apply(At(run, n - 1), run[n - 1])
  {
  }

  lemma TellsNext(run: seq<Op>, n: nat, id: nat)
    requires 0 < n <= |run|
    requires id in At(run, n - 1).quotes && id in At(run, n).quotes && Consistent(At(run, n - 1))
    requires Tells(run, n - 1, id, At(run, n - 1).quotes[id])
    ensures Tells(run, n, id, At(run, n).quotes[id])
  {
    hide Done, Standing, Apply, At;
    AtNext(run, n);
    RowNext(At(run, n - 1), run[n - 1], id);
    forall who { StandingNext(run, n, id, who); }
    forall url { DoneNext(run, n, MarkReady(id, url)); }
    forall org, at { DoneNext(run, n, StartDelivery(id, org, at)); }
    forall org, to { DoneNext(run, n, MarkSent(id, org, to)); }
  }

  lemma TellsAtFirst(run: seq<Op>, n: nat, id: nat)
    requires 0 < n <= |run| && id !in At(run, n - 1).quotes && id in At(run, n).quotes
    ensures Tells(run, n, id, At(run, n).quotes[id])
  {
    hide Done, Standing;
    NewIsReplaced(At(run, n - 1), run[n - 1], id);
    NothingDoneYet(run, n - 1, id);
    forall who { StandingNext(run, n, id, who); }
    forall url { DoneNext(run, n, MarkReady(id, url)); }
    forall org, at { DoneNext(run, n, StartDelivery(id, org, at)); }
    forall org, to { DoneNext(run, n, MarkSent(id, org, to)); }
  }

  /**
   A stored quote is a draft exactly when no claim stands; otherwise it names the one claimer whose claim stands. It has
   a PDF, a start of delivery or a recipient exactly when such an update took effect, for its tenant, and it names
   what that update brought.
   */
  lemma {:induction false} RowTellsItsHistory(run: seq<Op>, n: nat, id: nat)
    requires n <= |run| && id in At(run, n).quotes
    ensures Tells(run, n, id, At(run, n).quotes[id])
  {
    hide Tells, Apply;
    AlwaysConsistent(run, n - 1);
    if id in At(run, n - 1).quotes {
      RowTellsItsHistory(run, n - 1, id);
      TellsNext(run, n, id);
    } else {
      TellsAtFirst(run, n, id);
    }
  }

  ghost predicate IsClaimed(run: seq<Op>, n: nat, id: nat)
    requires n <= |run|
  {
    exists who :: Standing(run, n, id, who)
  }

  ghost predicate IsReady(run: seq<Op>, n: nat, id: nat)
    requires n <= |run|
  {
    exists url :: Done(run, n, MarkReady(id, url))
  }

  ghost predicate IsStarted(run: seq<Op>, n: nat, id: nat)
    requires n <= |run|
  {
    exists org, at :: Done(run, n, StartDelivery(id, org, at))
  }

  ghost predicate IsSent(run: seq<Op>, n: nat, id: nat)
    requires n <= |run|
  {
    exists org, to :: Done(run, n, MarkSent(id, org, to))
  }

  lemma StatusIsHistory(run: seq<Op>, n: nat, id: nat)
    requires n <= |run| && id in At(run, n).quotes
    ensures var q := At(run, n).quotes[id];
      && (IsClaimed(run, n, id) <==> q.status != DRAFT) && (IsReady(run, n, id) <==> q.status in {READY, SENT})
      && (IsSent(run, n, id) <==> q.status == SENT) && (IsStarted(run, n, id) <==> q.deliveryStartedAt.Some?)
  {
    hide Standing, Done, At;
    var q := At(run, n).quotes[id];
    AlwaysConsistent(run, n);
    RowTellsItsHistory(run, n, id);
    if q.status != DRAFT {
      assert Standing(run, n, id, q.approvedBy);
    }
    if q.pdfUrl.Some? {
      assert Done(run, n, MarkReady(id, q.pdfUrl.value));
    }
    if q.deliveryStartedAt.Some? {
      assert Done(run, n, StartDelivery(id, q.orgId, q.deliveryStartedAt.value));
    }
    if q.sentTo.Some? {
      assert Done(run, n, MarkSent(id, q.orgId, q.sentTo.value));
    }
  }

  /** What the updates before step n allow. */
  ghost predicate IsDue(run: seq<Op>, n: nat)
    requires n < |run|
  {
    match run[n]
    case Claim(id, _) => !IsClaimed(run, n, id)
    case MarkReady(id, _) => IsClaimed(run, n, id) && !IsReady(run, n, id)
    case StartDelivery(id, _, _) => IsReady(run, n, id) && !IsStarted(run, n, id) && !IsSent(run, n, id)
    case MarkSent(id, _, _) => IsReady(run, n, id) && !IsSent(run, n, id)
    case Revert(id) => IsClaimed(run, n, id) && !IsReady(run, n, id)
    case _ => false
  }

  /**
   When an update of a stored quote takes effect: a claim when none stands, readiness once on a standing claim, a start
   of delivery once by the tenant between readiness and sending, sending once by the tenant after readiness, and a
   revert on a standing claim before readiness.
   */
  lemma UpdateSucceedsIff(run: seq<Op>, n: nat)
    requires n < |run| && !run[n].Replace? && !run[n].Delete? && run[n].id in At(run, n).quotes
    ensures var op, q := run[n], At(run, n).quotes[run[n].id];
      Succeeds(run, n) <==> IsDue(run, n) && (op.StartDelivery? || op.MarkSent? ==> op.orgId == q.orgId)
  {
    hide IsClaimed, IsReady, IsStarted, IsSent;
    StatusIsHistory(run, n, run[n].id);
  }
}
