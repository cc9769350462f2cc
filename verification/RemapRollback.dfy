/**
 What a failed re-map rolls back to. Next to the cache a history is kept: the detail last confirmed by the server,
 and the estimates standing on top of it. A failure restores a snapshot, and the history says what that snapshot
 showed.
 */
module RemapRollback {
  import opened Remap
  import opened Wrappers

  datatype Estimate = Estimate(lineId: string, unit: real)

  /** A detail from the server and the estimates shown on top of it, oldest first. */
  datatype Shown = Shown(base: Option<RequestDetail>, standing: seq<Estimate>)

  function ShowOne(d: RequestDetail, e: Estimate): RequestDetail {
    match WithOptimisticTotal(d, e.lineId, e.unit)
    case Some(shown) => shown
    case None => d
  }

  function ShowAll(d: RequestDetail, estimates: seq<Estimate>): RequestDetail {
    if estimates == [] then d
    else ShowOne(ShowAll(d, estimates[..|estimates| - 1]), estimates[|estimates| - 1])
  }

  function Reading(s: Shown): Option<RequestDetail> {
    if s.base.None? then None else Some(ShowAll(s.base.value, s.standing))
  }

  // ---------- Where a re-map was issued ----------

  function Issues(run: seq<Op>, n: nat): nat
    requires n <= |run|
  {
    if n == 0 then 0 else Issues(run, n - 1) + if run[n - 1].Issue? then 1 else 0
  }

  /** The step that issued the k-th re-map. */
  function IssueStep(run: seq<Op>, n: nat, k: nat): (i: nat)
    requires n <= |run| && k < Issues(run, n)
    ensures i < n && run[i].Issue? && Issues(run, i) == k
  {
    if run[n - 1].Issue? && Issues(run, n - 1) == k then n - 1 else IssueStep(run, n - 1, k)
  }

  lemma {:induction false} IssuedInOrder(cache: map<string, RequestDetail>, run: seq<Op>, n: nat)
    requires n <= |run|
    ensures |At(cache, run, n).issued| == Issues(run, n)
  {
    if n > 0 {
      IssuedInOrder(cache, run, n - 1);
    }
  }

  /** The context of a re-map is the snapshot taken at its issue. */
  lemma {:induction false} SnapshotOfIssue(cache: map<string, RequestDetail>, run: seq<Op>, n: nat, k: nat)
    requires n <= |run| && k < Issues(run, n)
    ensures k < |At(cache, run, n).issued|
    ensures var i, issued := IssueStep(run, n, k), At(cache, run, n).issued[k];
      issued.requestId == run[i].requestId && issued.ctx.previous == Lookup(At(cache, run, i).cache, run[i].requestId)
  {
    IssuedInOrder(cache, run, n);
    IssuedInOrder(cache, run, n - 1);
    if !(run[n - 1].Issue? && Issues(run, n - 1) == k) {
      SnapshotOfIssue(cache, run, n - 1, k);
    }
  }

  // ---------- Confirmed details and standing estimates ----------

  /** Operation n - 1 made the cache hold an answer of the server for r. */
  predicate Confirms(cache: map<string, RequestDetail>, run: seq<Op>, n: nat, r: string)
    requires 0 < n <= |run|
  {
    var c, op := At(cache, run, n - 1), run[n - 1];
    || (op.Refetch? && op.requestId == r)
    || (op.Succeed? && op.k < |c.issued| && c.issued[op.k].requestId == r && Current(c, op.k) && r in c.cache)
  }

  /** Operation n - 1 rolled r back. */
  predicate RollsBack(cache: map<string, RequestDetail>, run: seq<Op>, n: nat, r: string)
    requires 0 < n <= |run|
  {
    var c, op := At(cache, run, n - 1), run[n - 1];
    op.Fail? && op.k < |c.issued| && c.issued[op.k].requestId == r && Current(c, op.k) &&
      c.issued[op.k].ctx.previous.Some?
  }

  /** The detail of r the server last confirmed. */
  function Confirmed(cache: map<string, RequestDetail>, run: seq<Op>, n: nat, r: string): Option<RequestDetail>
    requires n <= |run|
  {
    if n == 0 then Lookup(cache, r)
    else if Confirms(cache, run, n, r) then Lookup(At(cache, run, n).cache, r)
    else Confirmed(cache, run, n - 1, r)
  }

  /** A confirmation clears the standing estimates, an issue adds its own, a rollback brings back those of its issue. */
  function History(cache: map<string, RequestDetail>, run: seq<Op>, n: nat, r: string): Shown
    requires n <= |run|
  {
    if n == 0 then Shown(Lookup(cache, r), [])
    else
      var before, op := History(cache, run, n - 1, r), run[n - 1];
      if Confirms(cache, run, n, r) then Shown(Lookup(At(cache, run, n).cache, r), [])
      else if RollsBack(cache, run, n, r) && op.k < Issues(run, n - 1) then
        History(cache, run, IssueStep(run, n - 1, op.k), r)
      else if op.Issue? && op.requestId == r && op.unit.Some? then
        before.(standing := before.standing + [Estimate(op.lineId, op.unit.value)])
      else before
  }

  lemma ShowOneMore(d: RequestDetail, estimates: seq<Estimate>, e: Estimate)
    ensures ShowAll(d, estimates + [e]) == ShowOne(ShowAll(d, estimates), e)
  {
    assert (estimates + [e])[..|estimates|] == estimates;
  }

  lemma IssueReads(c: Client, r: string, lineId: string, unit: Option<real>, before: Shown)
    requires Reading(before) == Lookup(c.cache, r)
    ensures var shown := if unit.Some? then before.(standing := before.standing + [Estimate(lineId, unit.value)])
      else before;
      Reading(shown) == Lookup(Apply(c, Issue(r, lineId, unit)).cache, r)
  {
    if unit.Some? {
      IssueShows(c.cache, r, Estimate(lineId, unit.value));
      if before.base.Some? {
        ShowOneMore(before.base.value, before.standing, Estimate(lineId, unit.value));
      }
    }
  }

  lemma IssueShows(cache: map<string, RequestDetail>, r: string, e: Estimate)
    ensures Lookup(ShownAt(cache, r, e.lineId, Some(e.unit)), r) == if r in cache then Some(ShowOne(cache[r], e))
      else None
  {
  }

  /** The cache shows exactly what the history says, at every step of every run. */
  lemma {:induction false} HistoryReadsTheCache(cache: map<string, RequestDetail>, run: seq<Op>, n: nat, r: string)
    requires n <= |run|
    ensures Reading(History(cache, run, n, r)) == Lookup(At(cache, run, n).cache, r)
    decreases n
  {
    if n > 0 && !Confirms(cache, run, n, r) {
      var c, op := At(cache, run, n - 1), run[n - 1];
      HistoryReadsTheCache(cache, run, n - 1, r);
      IssuedInOrder(cache, run, n - 1);
      if RollsBack(cache, run, n, r) {
        SnapshotOfIssue(cache, run, n - 1, op.k);
        HistoryReadsTheCache(cache, run, IssueStep(run, n - 1, op.k), r);
      } else if op.Issue? && op.requestId == r {
        IssueReads(c, r, op.lineId, op.unit, History(cache, run, n - 1, r));
      }
    }
  }

  // ---------- What a failure restores ----------

  /** A failure of the latest re-map of a request restores exactly the snapshot taken at its issue, and nothing else. */
  lemma FailureRestoresTheSnapshot(cache: map<string, RequestDetail>, run: seq<Op>, n: nat)
    requires n < |run| && run[n].Fail? && run[n].k < Issues(run, n)
    requires run[n].k < |At(cache, run, n).issued| && LatestOf(At(cache, run, n), run[n].k)
    ensures var i := IssueStep(run, n, run[n].k);
      var r := run[i].requestId;
      var before, snapshot, after := At(cache, run, n), Lookup(At(cache, run, i).cache, r), At(cache, run, n + 1);
      after == if snapshot.Some? then before.(cache := before.cache[r := snapshot.value]) else before
  {
    AlwaysNumbered(cache, run, n);
    SnapshotOfIssue(cache, run, n, run[n].k);
  }

  lemma {:induction false} NeverDropped(cache: map<string, RequestDetail>, run: seq<Op>, i: nat, n: nat, r: string)
    requires i <= n <= |run| && r in At(cache, run, i).cache
    ensures r in At(cache, run, n).cache
    decreases n
  {
    if i < n {
      NeverDropped(cache, run, i, n - 1, r);
    }
  }

  // ---------- When a rollback is back at the confirmed detail ----------

  /**
   Before a request is in the cache nothing was confirmed; without a snapshot only confirmations can have come since.
   */
  lemma {:induction false} NothingBeforeTheCache(cache: map<string, RequestDetail>, run: seq<Op>, n: nat, r: string)
    requires n <= |run| && r !in At(cache, run, n).cache
    ensures Confirmed(cache, run, n, r) == None
  {
    if n > 0 {
      NothingBeforeTheCache(cache, run, n - 1, r);
    }
  }

  lemma {:induction false} IssuesGrow(run: seq<Op>, i: nat, n: nat)
    requires i < n <= |run| && run[i].Issue?
    ensures Issues(run, i) < Issues(run, n) && IssueStep(run, n, Issues(run, i)) == i
    decreases n
  {
    if i + 1 < n {
      IssuesGrow(run, i, n - 1);
    }
  }

  lemma LatestBefore(cache: map<string, RequestDetail>, run: seq<Op>, n: nat, k: nat)
    requires 0 < n <= |run| && k < |At(cache, run, n - 1).issued| && k < |At(cache, run, n).issued|
    requires LatestOf(At(cache, run, n), k)
    ensures LatestOf(At(cache, run, n - 1), k)
    ensures run[n - 1].Issue? ==> run[n - 1].requestId != At(cache, run, n - 1).issued[k].requestId
  {
    var c, after := At(cache, run, n - 1), At(cache, run, n);
    assert forall m :: 0 <= m < |c.issued| ==> after.issued[m] == c.issued[m];
    if run[n - 1].Issue? {
      assert after.issued[|c.issued|].requestId == run[n - 1].requestId;
    }
  }

  lemma NothingToRestore(cache: map<string, RequestDetail>, run: seq<Op>, n: nat, k: nat)
    requires 0 < n <= |run| && k < |At(cache, run, n - 1).issued| && LatestOf(At(cache, run, n - 1), k)
    requires At(cache, run, n - 1).issued[k].ctx.previous.None?
    requires run[n - 1].Issue? ==> run[n - 1].requestId != At(cache, run, n - 1).issued[k].requestId
    ensures var r := At(cache, run, n - 1).issued[k].requestId;
      Confirms(cache, run, n, r) || Lookup(At(cache, run, n).cache, r) == Lookup(At(cache, run, n - 1).cache, r)
  {
    var c, op := At(cache, run, n - 1), run[n - 1];
    AlwaysNumbered(cache, run, n - 1);
    if (op.Succeed? || op.Fail?) && op.k < |c.issued| && c.issued[op.k].requestId == c.issued[k].requestId &&
      op.k != k {
      assert !LatestOf(c, op.k) && !Current(c, op.k);
    }
  }

  /** Without a snapshot nothing was shown that the server has not confirmed. */
  lemma {:induction false} NoSnapshotNoEstimate(cache: map<string, RequestDetail>, run: seq<Op>, i: nat, n: nat)
    requires i < n <= |run| && run[i].Issue? && run[i].requestId !in At(cache, run, i).cache
    requires Issues(run, i) < |At(cache, run, n).issued| && LatestOf(At(cache, run, n), Issues(run, i))
    ensures Lookup(At(cache, run, n).cache, run[i].requestId) == Confirmed(cache, run, n, run[i].requestId)
    decreases n
  {
    var r, k := run[i].requestId, Issues(run, i);
    if i + 1 == n {
      NothingBeforeTheCache(cache, run, i, r);
    } else {
      IssuesGrow(run, i, n - 1);
      IssuedInOrder(cache, run, n - 1);
      SnapshotOfIssue(cache, run, n - 1, k);
      LatestBefore(cache, run, n, k);
      NoSnapshotNoEstimate(cache, run, i, n - 1);
      NothingToRestore(cache, run, n, k);
    }
  }

  /**
   A failure of the latest re-map, exactly: the request is back at the detail the server last confirmed if and only
   if that is what the estimates standing at its issue showed on top of the detail they stood on. Without a snapshot
   nothing is restored, and nothing unconfirmed was shown.
   */
  lemma RollbackIsToTheConfirmedDetailIff(cache: map<string, RequestDetail>, run: seq<Op>, n: nat)
    requires n < |run| && run[n].Fail? && run[n].k < Issues(run, n)
    requires run[n].k < |At(cache, run, n).issued| && LatestOf(At(cache, run, n), run[n].k)
    ensures var i := IssueStep(run, n, run[n].k);
      var r := run[i].requestId;
      var snapshot := History(cache, run, i, r);
      Lookup(At(cache, run, n + 1).cache, r) == Confirmed(cache, run, n, r) <==>
        snapshot.base.None? || Some(ShowAll(snapshot.base.value, snapshot.standing)) == Confirmed(cache, run, n, r)
  {
    var i := IssueStep(run, n, run[n].k);
    var r := run[i].requestId;
    FailureRestoresTheSnapshot(cache, run, n);
    HistoryReadsTheCache(cache, run, i, r);
    if History(cache, run, i, r).base.None? {
      NoSnapshotNoEstimate(cache, run, i, n);
    }
  }

  // ---------- When no refetch lands under a re-map that fails ----------

  /** No refetch of r arrives between the issue of a re-map and the failure that rolls r back to that issue. */
  ghost predicate NoRefetchUnderAFailure(cache: map<string, RequestDetail>, run: seq<Op>, r: string) {
    forall m, n :: 0 <= m < n < |run| && run[m].Refetch? && run[m].requestId == r && RollsBack(cache, run, n + 1, r) ==>
      run[n].k < Issues(run, n) ==> m < IssueStep(run, n, run[n].k)
  }

  lemma {:induction false} LatestSince(cache: map<string, RequestDetail>, run: seq<Op>, m: nat, n: nat, k: nat)
    requires m <= n <= |run| && k < |At(cache, run, m).issued|
    requires k < |At(cache, run, n).issued| && LatestOf(At(cache, run, n), k)
    ensures LatestOf(At(cache, run, m), k)
    decreases n
  {
    if m < n {
      IssuedInOrder(cache, run, m);
      IssuedInOrder(cache, run, n - 1);
      IssuesNeverShrink(run, m, n - 1);
      LatestBefore(cache, run, n, k);
      LatestSince(cache, run, m, n - 1, k);
    }
  }

  lemma {:induction false} IssuesNeverShrink(run: seq<Op>, m: nat, n: nat)
    requires m <= n <= |run|
    ensures Issues(run, m) <= Issues(run, n)
    decreases n
  {
    if m < n {
      IssuesNeverShrink(run, m, n - 1);
    }
  }

  /** A re-map that will fail as the latest one is not confirmed by an answer before. */
  lemma NoAnswerBefore(cache: map<string, RequestDetail>, run: seq<Op>, m: nat, n: nat, r: string)
    requires SettlesOnce(run) && m < n < |run| && RollsBack(cache, run, n + 1, r) && run[n].k < Issues(run, m)
    ensures run[m].Succeed? ==> !Confirms(cache, run, m + 1, r)
  {
    var k := run[n].k;
    IssuedInOrder(cache, run, m);
    IssuedInOrder(cache, run, n);
    IssuesNeverShrink(run, m, n);
    AlwaysNumbered(cache, run, m);
    AlwaysNumbered(cache, run, n);
    LatestSince(cache, run, m, n, k);
    SnapshotOfIssue(cache, run, m, k);
    SnapshotOfIssue(cache, run, n, k);
    SameIssueStep(run, m, n, k);
  }

  lemma {:induction false} SameIssueStep(run: seq<Op>, m: nat, n: nat, k: nat)
    requires m <= n <= |run| && k < Issues(run, m) && k < Issues(run, n)
    ensures IssueStep(run, n, k) == IssueStep(run, m, k)
    decreases n
  {
    if m < n {
      IssuesNeverShrink(run, m, n - 1);
      SameIssueStep(run, m, n - 1, k);
    }
  }

  lemma NoRefetchBefore(cache: map<string, RequestDetail>, run: seq<Op>, n: nat, r: string, m: nat)
    requires NoRefetchUnderAFailure(cache, run, r)
    requires n < |run| && RollsBack(cache, run, n + 1, r) && run[n].k < Issues(run, n)
    requires IssueStep(run, n, run[n].k) <= m < n
    ensures run[m].Refetch? ==> run[m].requestId != r
  {
  }

  lemma NothingConfirmedAt(cache: map<string, RequestDetail>, run: seq<Op>, n: nat, r: string, m: nat)
    requires SettlesOnce(run)
    requires n < |run| && RollsBack(cache, run, n + 1, r) && run[n].k < Issues(run, n)
    requires IssueStep(run, n, run[n].k) <= m < n && (run[m].Refetch? ==> run[m].requestId != r)
    ensures !Confirms(cache, run, m + 1, r)
  {
    if run[m].Succeed? {
      IssuesGrow(run, IssueStep(run, n, run[n].k), m);
      NoAnswerBefore(cache, run, m, n, r);
    }
  }

  lemma {:induction false} SameConfirmedUntil(cache: map<string, RequestDetail>, run: seq<Op>, n: nat, r: string,
      m: nat)
    requires SettlesOnce(run) && NoRefetchUnderAFailure(cache, run, r)
    requires n < |run| && RollsBack(cache, run, n + 1, r) && run[n].k < Issues(run, n)
    requires IssueStep(run, n, run[n].k) <= m <= n
    ensures Confirmed(cache, run, m, r) == Confirmed(cache, run, IssueStep(run, n, run[n].k), r)
    decreases m
  {
    if IssueStep(run, n, run[n].k) < m {
      SameConfirmedUntil(cache, run, n, r, m - 1);
      NoRefetchBefore(cache, run, n, r, m - 1);
      NothingConfirmedAt(cache, run, n, r, m - 1);
    }
  }

  /** Then the detail the estimates stand on is always the one last confirmed. */
  lemma {:induction false} BaseIsConfirmed(cache: map<string, RequestDetail>, run: seq<Op>, n: nat, r: string)
    requires SettlesOnce(run) && NoRefetchUnderAFailure(cache, run, r) && n <= |run|
    ensures History(cache, run, n, r).base == Confirmed(cache, run, n, r)
    decreases n
  {
    if n > 0 && !Confirms(cache, run, n, r) {
      BaseIsConfirmed(cache, run, n - 1, r);
      IssuedInOrder(cache, run, n - 1);
      if RollsBack(cache, run, n, r) {
        var i := IssueStep(run, n - 1, run[n - 1].k);
        BaseIsConfirmed(cache, run, i, r);
        SameConfirmedUntil(cache, run, n - 1, r, n - 1);
      }
    }
  }

  /**
   So a failure rolls the request back to the confirmed detail if and only if the estimates that stood when the
   failing re-map was issued, its own not among them, change nothing: in particular whenever none stood.
   */
  lemma RollsBackIffNothingStood(cache: map<string, RequestDetail>, run: seq<Op>, n: nat)
    requires n < |run| && run[n].Fail? && run[n].k < Issues(run, n) && SettlesOnce(run)
    requires run[n].k < |At(cache, run, n).issued| && LatestOf(At(cache, run, n), run[n].k)
    requires NoRefetchUnderAFailure(cache, run, run[IssueStep(run, n, run[n].k)].requestId)
    ensures var i := IssueStep(run, n, run[n].k);
      var r := run[i].requestId;
      var snapshot := History(cache, run, i, r);
      && (Lookup(At(cache, run, n + 1).cache, r) == Confirmed(cache, run, n, r) <==>
            snapshot.base.None? || ShowAll(snapshot.base.value, snapshot.standing) == snapshot.base.value)
      && (snapshot.standing == [] ==> Lookup(At(cache, run, n + 1).cache, r) == Confirmed(cache, run, n, r))
  {
    var i := IssueStep(run, n, run[n].k);
    var r := run[i].requestId;
    RollbackIsToTheConfirmedDetailIff(cache, run, n);
    if History(cache, run, i, r).base.Some? {
      HistoryReadsTheCache(cache, run, i, r);
      AlwaysNumbered(cache, run, n);
      SnapshotOfIssue(cache, run, n, run[n].k);
      assert RollsBack(cache, run, n + 1, r);
      BaseIsConfirmed(cache, run, i, r);
      SameConfirmedUntil(cache, run, n, r, n);
    }
  }
}
