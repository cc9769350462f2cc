/**
 The match node: for every line that has no SKU yet it searches the catalog, stores the ranked
 candidates and adopts the best one, one transaction per line. Lines already matched are skipped.
 */
module MatchNode {
  import opened Wrappers
  import opened Pipeline
  import opened Recovery
  import opened Rrf

  datatype Method = Exact | Searched(how: MatchMethod)

  datatype CandidateRow = CandidateRow(skuId: string, score: real, rank: nat)

  datatype Found = Found(row: CandidateRow, matchMethod: MatchMethod)

  datatype SearchResult = SearchResult(candidates: seq<Found>, degraded: bool)

  datatype Line = Line(
    id: string, rawText: string, matchedSku: Option<string>, confidence: Option<real>, matchMethod: Option<Method>,
    flags: seq<string>, tie: Option<(real, real)>, candidates: seq<CandidateRow>)

  /** The search tool answers None when it fails; `query` answers None for empty and UNKNOWN texts. */
  datatype Search = Search(
    query: string -> Option<string>, search: string -> Option<SearchResult>, autoThreshold: real, closeTieMargin: real)

  const CLOSE_TIE_FLAG := "close_tie"

  function Rows(found: seq<Found>): seq<CandidateRow> {
    seq(|found|, i requires 0 <= i < |found| => found[i].row)
  }

  function Adopted(t: Search, line: Line, found: seq<Found>): Line
    requires found != []
  {
    var best := found[0];
    var closeTie := |found| > 1 && found[1].row.score >= best.row.score - t.closeTieMargin;
    line.(
      matchedSku := Some(best.row.skuId),
      confidence := Some(best.row.score),
      matchMethod := Some(
        if best.row.score >= t.autoThreshold && !best.matchMethod.Semantic? then Exact else Searched(best.matchMethod)),
      flags := if closeTie then line.flags + [CLOSE_TIE_FLAG] else line.flags,
      tie := if closeTie then Some((best.row.score, found[1].row.score)) else None,
      candidates := Rows(found))
  }

  /** What the node searches for on behalf of a line, if anything. */
  function Answer(t: Search, line: Line): Option<SearchResult> {
    if line.matchedSku.Some? then None
    else
      match t.query(line.rawText)
      case None => None
      case Some(q) => t.search(q)
  }

  function Matched(t: Search, line: Line): Line {
    match Answer(t, line)
    case None => line
    case Some(r) => if r.candidates == [] then line.(candidates := []) else Adopted(t, line, r.candidates)
  }

  predicate IsDegraded(t: Search, line: Line) {
    Answer(t, line).Some? && Answer(t, line).value.degraded
  }

  predicate AnyDegraded(t: Search, lines: seq<Line>, n: nat)
    requires n <= |lines|
  {
    exists i :: 0 <= i < n && IsDegraded(t, lines[i])
  }

  function MatchedAll(t: Search, lines: seq<Line>): seq<Line> {
    seq(|lines|, i requires 0 <= i < |lines| => Matched(t, lines[i]))
  }

  function CountMatched(lines: seq<Line>): nat {
    if lines == [] then 0
    else CountMatched(lines[..|lines| - 1]) + if lines[|lines| - 1].matchedSku.Some? then 1 else 0
  }

  lemma OneMoreMatched(done: seq<Line>, item: Line)
    ensures CountMatched(done + [item]) == CountMatched(done) + if item.matchedSku.Some? then 1 else 0
  {
    assert (done + [item])[..|done|] == done;
  }

  lemma OneMoreSearched(t: Search, lines: seq<Line>, n: nat)
    requires n < |lines|
    ensures AnyDegraded(t, lines, n + 1) <==> AnyDegraded(t, lines, n) || IsDegraded(t, lines[n])
  {
    if AnyDegraded(t, lines, n + 1) {
      var i :| 0 <= i < n + 1 && IsDegraded(t, lines[i]);
      assert i == n || AnyDegraded(t, lines, n);
    }
  }

  /** The loop has been through the first n lines. */
  ghost predicate MatchedUpTo(t: Search, lines: seq<Line>, now: seq<Line>, n: nat) {
    && |now| == |lines|
    && (forall j :: 0 <= j < n && j < |lines| ==> now[j] == Matched(t, lines[j]))
    && (forall j :: n <= j < |lines| ==> now[j] == lines[j])
  }

  // ---------- What a line gets ----------

  /** The line took over the first of the candidates, by its figures. */
  ghost predicate TakesTheFirst(t: Search, before: Line, found: seq<Found>, after: Line)
    requires found != []
  {
    var first := found[0];
    var tied := |found| > 1 && found[1].row.score + t.closeTieMargin >= first.row.score;
    && after.matchedSku == Some(first.row.skuId) && after.confidence == Some(first.row.score)
    && (after.matchMethod == Some(Exact) <==> first.row.score >= t.autoThreshold && !first.matchMethod.Semantic?)
    && (after.matchMethod != Some(Exact) ==> after.matchMethod == Some(Searched(first.matchMethod)))
    && after.flags == before.flags + (if tied then ["close_tie"] else [])
    && after.tie == (if tied then Some((first.row.score, found[1].row.score)) else None)
    && |after.candidates| == |found| && (forall i :: 0 <= i < |found| ==> after.candidates[i] == found[i].row)
    && after.id == before.id && after.rawText == before.rawText
  }

  /**
   Matched lines, texts without a query and failed searches leave the line alone; an empty answer clears its
   candidates.
   */
  ghost predicate IsSettled(t: Search, before: Line, after: Line) {
    if before.matchedSku.Some? || t.query(before.rawText).None? then after == before
    else
      match t.search(t.query(before.rawText).value)
      case None => after == before
      case Some(r) =>
        if r.candidates == [] then after == before.(candidates := []) else TakesTheFirst(t, before, r.candidates, after)
  }

  lemma MatchedIsSettled(t: Search, line: Line)
    ensures IsSettled(t, line, Matched(t, line))
  {
  }

  ghost predicate InDescendingOrder(found: seq<Found>) {
    forall i, j :: 0 <= i < j < |found| ==> found[i].row.score >= found[j].row.score
  }

  /** So from an answer in descending order a line gets a SKU no candidate outscores, tied iff another comes near. */
  lemma NoCandidateScoresHigher(t: Search, before: Line, found: seq<Found>, after: Line, c: CandidateRow)
    requires found != [] && InDescendingOrder(found) && TakesTheFirst(t, before, found, after) && c in after.candidates
    ensures after.confidence.Some? && c.score <= after.confidence.value
    ensures |after.flags| == |before.flags| + 1 <==>
      exists i :: 0 < i < |found| && found[i].row.score + t.closeTieMargin >= after.confidence.value
  {
    var i :| 0 <= i < |after.candidates| && after.candidates[i] == c;
    assert found[i].row.score <= found[0].row.score;
    if j :| 0 < j < |found| && found[j].row.score + t.closeTieMargin >= found[0].row.score {
      assert found[1].row.score >= found[j].row.score;
    }
  }

  lemma AllSettled(t: Search, lines: seq<Line>)
    ensures forall i :: 0 <= i < |lines| ==> IsSettled(t, lines[i], MatchedAll(t, lines)[i])
  {
    forall i | 0 <= i < |lines| {
      MatchedIsSettled(t, lines[i]);
    }
  }

  class MatchNodeRunner {
    const tool: Search
    var lines: seq<Line>

    constructor (tool: Search, lines: seq<Line>)
      ensures this.tool == tool && this.lines == lines
    {
      this.tool := tool;
      this.lines := lines;
    }

    method Run() returns (matchedCount: nat, anyDegraded: bool)
      modifies this
      ensures lines == MatchedAll(tool, old(lines))
      ensures forall i :: 0 <= i < |lines| ==> IsSettled(tool, old(lines)[i], lines[i])
      ensures matchedCount == CountMatched(lines)
      ensures anyDegraded <==> AnyDegraded(tool, old(lines), |old(lines)|)
    {
      hide IsSettled, Matched;
      matchedCount, anyDegraded := 0, false;
      for i := 0 to |lines|
        invariant MatchedUpTo(tool, old(lines), lines, i)
        invariant matchedCount == CountMatched(lines[..i])
        invariant anyDegraded <==> AnyDegraded(tool, old(lines), i)
      {
        ghost var done := lines[..i];
        var item, degraded := MatchLine(lines[i]);
        lines := lines[i := item];
        anyDegraded := anyDegraded || degraded;
        if item.matchedSku.Some? {
          matchedCount := matchedCount + 1;
        }
        OneMoreMatched(done, item);
        OneMoreSearched(tool, old(lines), i);
        assert lines[..i + 1] == done + [item];
      }
      assert lines[..|lines|] == lines;
      AllSettled(tool, old(lines));
    }

    /** One line's turn in the loop. */
    method MatchLine(item: Line) returns (line: Line, degraded: bool)
      ensures line == Matched(tool, item)
      ensures IsSettled(tool, item, line)
      ensures degraded <==> IsDegraded(tool, item)
    {
      line, degraded := item, false;
      if item.matchedSku.Some? {
        return;
      }
      var query := tool.query(item.rawText);
      if query.None? {
        return;
      }
      var invocation := tool.search(query.value);
      if invocation.None? {
        return;
      }
      degraded := invocation.value.degraded;
      if invocation.value.candidates == [] {
        line := item.(candidates := []);
      } else {
        line := Adopted(tool, item, invocation.value.candidates);
      }
    }
  }

  // ---------- Running it again ----------

  /** A second look at a line changes nothing: no duplicate flag, no second adoption, the same candidates. */
  lemma MatchedTwiceIsMatchedOnce(t: Search, line: Line)
    ensures Matched(t, Matched(t, line)) == Matched(t, line)
  {
  }

  /** Each line is matched in its own transaction, so a crash leaves a prefix of the lines done. */
  ghost predicate TornAfter(t: Search, lines: seq<Line>, torn: seq<Line>) {
    exists k :: 0 <= k <= |lines| && torn == MatchedAll(t, lines[..k]) + lines[k..]
  }

  ghost function AsNode(t: Search): NodeImpl<seq<Line>> {
    NodeImpl(lines => Effect(MatchedAll(t, lines), Advance(PRICE), None), (lines, torn) => TornAfter(t, lines, torn))
  }

  /** The match node satisfies what crash recovery asks of a node: re-entry after any crash completes the same work. */
  lemma MatchIsRerunnable(t: Search)
    ensures Rerunnable(AsNode(t))
  {
    forall lines
      ensures MatchedAll(t, MatchedAll(t, lines)) == MatchedAll(t, lines)
    {
      forall i | 0 <= i < |lines| {
        MatchedTwiceIsMatchedOnce(t, lines[i]);
      }
    }
    forall lines, torn | TornAfter(t, lines, torn)
      ensures MatchedAll(t, torn) == MatchedAll(t, lines)
    {
      var k :| 0 <= k <= |lines| && torn == MatchedAll(t, lines[..k]) + lines[k..];
      forall i | 0 <= i < |lines|
        ensures Matched(t, torn[i]) == Matched(t, lines[i])
      {
        MatchedTwiceIsMatchedOnce(t, lines[i]);
      }
    }
  }
}
