/**
 Reciprocal Rank Fusion of a lexical and a semantic hit list: every hit at rank i (from 0) adds
 1 / (k + i + 1) to its SKU's score, and SKUs are returned by descending score.
 */
module Rrf {
  import opened Wrappers
  import opened InsertionOrder
  import opened StableSort

  const DEFAULT_K := 60.0

  datatype Hit = Hit(skuId: string, skuCode: string, name: string, description: Option<string>, simScore: real)

  datatype MatchMethod = Fused | Fuzzy | Semantic

  datatype Candidate = Candidate(
    skuId: string, skuCode: string, name: string, description: Option<string>,
    score: real, matchMethod: MatchMethod)

  datatype Entry = Entry(
    skuId: string, skuCode: string, name: string, description: Option<string>,
    rrfScore: real, lexicalSim: Option<real>, semanticSim: Option<real>)

  // ---------- What the fusion means, list by list ----------

  function Weight(k: real, rank: nat): real
    requires 0.0 <= k
  {
    1.0 / (k + rank as real + 1.0)
  }

  function Ids(hits: seq<Hit>): seq<string> {
    seq(|hits|, i requires 0 <= i < |hits| => hits[i].skuId)
  }

  /** The score one list gives a SKU: the weights of all its ranks. */
  function ListScore(hits: seq<Hit>, sku: string, k: real): real
    requires 0.0 <= k
  {
    if hits == [] then 0.0
    else
      var n := |hits| - 1;
      ListScore(hits[..n], sku, k) + if hits[n].skuId == sku then Weight(k, n) else 0.0
  }

  function LastSim(hits: seq<Hit>, sku: string): Option<real> {
    if hits == [] then None
    else if hits[|hits| - 1].skuId == sku then Some(hits[|hits| - 1].simScore)
    else LastSim(hits[..|hits| - 1], sku)
  }

  function FirstHit(hits: seq<Hit>, sku: string): (h: Option<Hit>)
    ensures h.Some? <==> sku in Ids(hits)
  {
    if hits == [] then None
    else
      var n := |hits| - 1;
      assert Ids(hits) == Ids(hits[..n]) + [hits[n].skuId];
      var earlier := FirstHit(hits[..n], sku);
      if earlier.Some? then earlier else if hits[n].skuId == sku then Some(hits[n]) else None
  }

  function Score(lexical: seq<Hit>, semantic: seq<Hit>, k: real, sku: string): real
    requires 0.0 <= k
  {
    ListScore(lexical, sku, k) + ListScore(semantic, sku, k)
  }

  function EntryFor(lexical: seq<Hit>, semantic: seq<Hit>, k: real, sku: string): Entry
    requires 0.0 <= k && sku in Ids(lexical + semantic)
  {
    var first := FirstHit(lexical + semantic, sku).value;
    Entry(sku, first.skuCode, first.name, first.description, Score(lexical, semantic, k, sku),
          LastSim(lexical, sku), LastSim(semantic, sku))
  }

  function Label(e: Entry): Candidate {
    var (matchMethod, score) :=
      match (e.lexicalSim, e.semanticSim)
      case (Some(l), Some(s)) => (Fused, if l >= s then l else s)
      case (Some(l), None) => (Fuzzy, l)
      case (None, Some(s)) => (Semantic, s)
      case (None, None) => (Semantic, 0.0);
    Candidate(e.skuId, e.skuCode, e.name, e.description, score, matchMethod)
  }

  function Entries(lexical: seq<Hit>, semantic: seq<Hit>, k: real): seq<Entry>
    requires 0.0 <= k
  {
    var order := Distinct(Ids(lexical + semantic));
    DistinctKeeps(Ids(lexical + semantic));
    seq(|order|, i requires 0 <= i < |order| => EntryFor(lexical, semantic, k, order[i]))
  }

  function ByScore(e: Entry): real {
    -e.rrfScore
  }

  function Labelled(entries: seq<Entry>): seq<Candidate> {
    seq(|entries|, i requires 0 <= i < |entries| => Label(entries[i]))
  }

  function Fusion(lexical: seq<Hit>, semantic: seq<Hit>, k: real): seq<Candidate>
    requires 0.0 <= k
  {
    Labelled(SortBy(Entries(lexical, semantic, k), ByScore))
  }

  // ---------- The algorithm: one map, filled in place by two loops ----------

  /** The map and its key order hold exactly the fusion of the hits read so far. */
  ghost predicate Accumulated(scores: map<string, Entry>, order: seq<string>, lexical: seq<Hit>, semantic: seq<Hit>,
      k: real)
    requires 0.0 <= k
  {
    && order == Distinct(Ids(lexical + semantic))
    && (forall sku :: sku in Ids(lexical + semantic) <==> sku in scores)
    && (forall sku :: sku in scores ==> scores[sku] == EntryFor(lexical, semantic, k, sku))
  }

  lemma IdsAppend(hits: seq<Hit>, hit: Hit)
    ensures Ids(hits + [hit]) == Ids(hits) + [hit.skuId]
  {
  }

  lemma IdsOfConcat(a: seq<Hit>, b: seq<Hit>)
    ensures Ids(a + b) == Ids(a) + Ids(b)
  {
  }

  lemma AppendHit(hits: seq<Hit>, hit: Hit, k: real, sku: string)
    requires 0.0 <= k
    ensures ListScore(hits + [hit], sku, k) ==
            ListScore(hits, sku, k) + if hit.skuId == sku then Weight(k, |hits|) else 0.0
    ensures LastSim(hits + [hit], sku) == if hit.skuId == sku then Some(hit.simScore) else LastSim(hits, sku)
    ensures FirstHit(hits + [hit], sku) ==
            if FirstHit(hits, sku).Some? then FirstHit(hits, sku)
            else if hit.skuId == sku then Some(hit) else None
  {
    assert (hits + [hit])[..|hits|] == hits;
  }

  lemma {:induction false} AbsentHasNoScore(hits: seq<Hit>, sku: string, k: real)
    requires 0.0 <= k && sku !in Ids(hits)
    ensures ListScore(hits, sku, k) == 0.0 && LastSim(hits, sku).None?
  {
    if hits != [] {
      var n := |hits| - 1;
      assert Ids(hits) == Ids(hits[..n]) + [hits[n].skuId];
      AbsentHasNoScore(hits[..n], sku, k);
    }
  }

  /** How one more lexical hit changes what is known of a SKU. */
  lemma LexicalEntry(was: seq<Hit>, hit: Hit, k: real, sku: string)
    requires 0.0 <= k && sku in Ids(was + [hit] + [])
    ensures EntryFor(was + [hit], [], k, sku) ==
      if sku !in Ids(was + []) then
        Entry(hit.skuId, hit.skuCode, hit.name, hit.description, Weight(k, |was|), Some(hit.simScore), None)
      else if sku == hit.skuId then
        var prior := EntryFor(was, [], k, sku);
        prior.(rrfScore := prior.rrfScore + Weight(k, |was|), lexicalSim := Some(hit.simScore))
      else EntryFor(was, [], k, sku)
  {
    assert was + [] == was && was + [hit] + [] == was + [hit];
    IdsAppend(was, hit);
    AppendHit(was, hit, k, sku);
    if sku !in Ids(was) {
      AbsentHasNoScore(was, sku, k);
    }
  }

  lemma SemanticEntry(lexical: seq<Hit>, was: seq<Hit>, hit: Hit, k: real, sku: string)
    requires 0.0 <= k && sku in Ids(lexical + (was + [hit]))
    ensures EntryFor(lexical, was + [hit], k, sku) ==
      if sku !in Ids(lexical + was) then
        Entry(hit.skuId, hit.skuCode, hit.name, hit.description, Weight(k, |was|), None, Some(hit.simScore))
      else if sku == hit.skuId then
        var prior := EntryFor(lexical, was, k, sku);
        prior.(rrfScore := prior.rrfScore + Weight(k, |was|), semanticSim := Some(hit.simScore))
      else EntryFor(lexical, was, k, sku)
  {
    assert lexical + (was + [hit]) == lexical + was + [hit];
    IdsAppend(lexical + was, hit);
    IdsOfConcat(lexical, was);
    AppendHit(was, hit, k, sku);
    AppendHit(lexical + was, hit, k, sku);
    if sku !in Ids(lexical + was) {
      AbsentHasNoScore(lexical, sku, k);
      AbsentHasNoScore(was, sku, k);
    }
  }

  lemma OrderGrows(hits: seq<Hit>, hit: Hit)
    ensures Distinct(Ids(hits + [hit])) == Include(Distinct(Ids(hits)), hit.skuId)
    ensures forall sku :: sku in Ids(hits + [hit]) <==> sku in Ids(hits) || sku == hit.skuId
    ensures hit.skuId in Distinct(Ids(hits)) <==> hit.skuId in Ids(hits)
  {
    IdsAppend(hits, hit);
    DistinctAppend(Ids(hits), hit.skuId);
    DistinctKeeps(Ids(hits));
  }

  lemma LexicalStep(scores: map<string, Entry>, order: seq<string>, was: seq<Hit>, hit: Hit, k: real)
    requires 0.0 <= k && Accumulated(scores, order, was, [], k)
    ensures hit.skuId in Ids(was + [hit] + [])
    ensures Accumulated(scores[hit.skuId := EntryFor(was + [hit], [], k, hit.skuId)],
      Include(order, hit.skuId), was + [hit], [], k)
  {
    OrderGrows(was, hit);
    assert was + [] == was && was + [hit] + [] == was + [hit];
    forall sku | sku in Ids(was + [hit])
      ensures sku != hit.skuId ==> EntryFor(was + [hit], [], k, sku) == EntryFor(was, [], k, sku)
    {
      LexicalEntry(was, hit, k, sku);
    }
  }

  lemma SemanticStep(scores: map<string, Entry>, order: seq<string>, lexical: seq<Hit>, was: seq<Hit>, hit: Hit,
      k: real)
    requires 0.0 <= k && Accumulated(scores, order, lexical, was, k)
    ensures hit.skuId in Ids(lexical + (was + [hit]))
    ensures Accumulated(scores[hit.skuId := EntryFor(lexical, was + [hit], k, hit.skuId)],
      Include(order, hit.skuId), lexical, was + [hit], k)
  {
    OrderGrows(lexical + was, hit);
    assert lexical + was + [hit] == lexical + (was + [hit]);
    forall sku | sku in Ids(lexical + (was + [hit]))
      ensures sku != hit.skuId ==> EntryFor(lexical, was + [hit], k, sku) == EntryFor(lexical, was, k, sku)
    {
      SemanticEntry(lexical, was, hit, k, sku);
    }
  }

  method AddLexicalHits(lexical: seq<Hit>, k: real) returns (scores: map<string, Entry>, order: seq<string>)
    requires 0.0 <= k
    ensures Accumulated(scores, order, lexical, [], k)
  {
    hide Weight, EntryFor;
    scores, order := map[], [];
    for i := 0 to |lexical|
      invariant Accumulated(scores, order, lexical[..i], [], k)
    {
      var hit, contribution := lexical[i], Weight(k, i);
      ghost var was := lexical[..i];
      LexicalStep(scores, order, was, hit, k);
      LexicalEntry(was, hit, k, hit.skuId);
      DistinctKeeps(Ids(was + []));
      assert lexical[..i + 1] == was + [hit];
      if hit.skuId in scores {
        var entry := scores[hit.skuId];
        scores := scores[hit.skuId :=
          entry.(rrfScore := entry.rrfScore + contribution, lexicalSim := Some(hit.simScore))];
      } else {
        scores := scores[hit.skuId :=
          Entry(hit.skuId, hit.skuCode, hit.name, hit.description, contribution, Some(hit.simScore), None)];
        order := order + [hit.skuId];
      }
    }
    assert lexical[..|lexical|] == lexical;
  }

  method AddSemanticHits(scores0: map<string, Entry>, order0: seq<string>, ghost lexical: seq<Hit>, semantic: seq<Hit>,
      k: real)
    returns (scores: map<string, Entry>, order: seq<string>)
    requires 0.0 <= k && Accumulated(scores0, order0, lexical, [], k)
    ensures Accumulated(scores, order, lexical, semantic, k)
  {
    hide Weight, EntryFor, Distinct;
    scores, order := scores0, order0;
    for i := 0 to |semantic|
      invariant Accumulated(scores, order, lexical, semantic[..i], k)
    {
      var hit, contribution := semantic[i], Weight(k, i);
      ghost var was := semantic[..i];
      SemanticStep(scores, order, lexical, was, hit, k);
      SemanticEntry(lexical, was, hit, k, hit.skuId);
      DistinctKeeps(Ids(lexical + was));
      assert semantic[..i + 1] == was + [hit];
      if hit.skuId in scores {
        var entry := scores[hit.skuId];
        scores := scores[hit.skuId :=
          entry.(rrfScore := entry.rrfScore + contribution, semanticSim := Some(hit.simScore))];
      } else {
        scores := scores[hit.skuId :=
          Entry(hit.skuId, hit.skuCode, hit.name, hit.description, contribution, None, Some(hit.simScore))];
        order := order + [hit.skuId];
      }
    }
    assert semantic[..|semantic|] == semantic;
  }

  /** Map.prototype.values: the entries in insertion order. */
  function Values(scores: map<string, Entry>, order: seq<string>): seq<Entry>
    requires forall sku :: sku in order ==> sku in scores
  {
    seq(|order|, i requires 0 <= i < |order| => scores[order[i]])
  }

  method FuseRrf(lexical: seq<Hit>, semantic: seq<Hit>, k: real := DEFAULT_K)
    returns (r: Result<seq<Candidate>, string>)
    ensures r.Err? <==> k < 0.0
    ensures k >= 0.0 ==> r == Ok(Fusion(lexical, semantic, k))
  {
    if k < 0.0 {
      return Err("RRF parameter k must be a finite number >= 0");
    }
    var scores, order := AddLexicalHits(lexical, k);
    scores, order := AddSemanticHits(scores, order, lexical, semantic, k);
    DistinctKeeps(Ids(lexical + semantic));
    var entries := Values(scores, order);
    assert entries == Entries(lexical, semantic, k);
    r := Ok(Labelled(SortBy(entries, ByScore)));
  }

  // ---------- What the ranking guarantees ----------

  /** a is returned ahead of b. */
  ghost predicate Precedes(out: seq<Candidate>, a: string, b: string) {
    exists i, j :: 0 <= i < j < |out| && out[i].skuId == a && out[j].skuId == b
  }

  ghost predicate DistinctSkus(hits: seq<Hit>) {
    NoDuplicates(Ids(hits))
  }

  lemma EntriesHaveNoDuplicates(lexical: seq<Hit>, semantic: seq<Hit>, k: real)
    requires 0.0 <= k
    ensures NoDuplicates(SortBy(Entries(lexical, semantic, k), ByScore))
    ensures forall e :: e in SortBy(Entries(lexical, semantic, k), ByScore) <==>
              e.skuId in Ids(lexical + semantic) && e == EntryFor(lexical, semantic, k, e.skuId)
  {
    var entries := Entries(lexical, semantic, k);
    var order := Distinct(Ids(lexical + semantic));
    DistinctKeeps(Ids(lexical + semantic));
    assert forall i :: 0 <= i < |entries| ==> entries[i].skuId == order[i];
    SortByKeeps(entries, ByScore);
    NoDuplicatesOfPermutation(entries, SortBy(entries, ByScore));
    SortByMembers(entries, ByScore);
    forall e: Entry | e.skuId in Ids(lexical + semantic) && e == EntryFor(lexical, semantic, k, e.skuId)
      ensures e in entries
    {
      var p :| 0 <= p < |order| && order[p] == e.skuId;
      assert entries[p] == e;
    }
  }

  /** Every SKU of either list is returned, and exactly once. */
  lemma EachSkuOnce(lexical: seq<Hit>, semantic: seq<Hit>, k: real, sku: string)
    requires 0.0 <= k
    ensures var out := Fusion(lexical, semantic, k);
      && ((exists i :: 0 <= i < |out| && out[i].skuId == sku) <==> sku in Ids(lexical) || sku in Ids(semantic))
      && (forall i, j :: 0 <= i < j < |out| ==> out[i].skuId != out[j].skuId)
  {
    var sorted, out := SortBy(Entries(lexical, semantic, k), ByScore), Fusion(lexical, semantic, k);
    EntriesHaveNoDuplicates(lexical, semantic, k);
    IdsOfConcat(lexical, semantic);
    assert forall i :: 0 <= i < |out| ==> sorted[i] in sorted && out[i].skuId == sorted[i].skuId;
    if sku in Ids(lexical + semantic) {
      var i := PlaceOf(lexical, semantic, k, sku);
      assert out[i].skuId == sku;
    }
    forall i, j | 0 <= i < j < |out|
      ensures out[i].skuId != out[j].skuId
    {
      assert sorted[i] != sorted[j];
    }
  }

  /**
   The ranking, exactly: a is returned ahead of b if and only if a has the higher fused score or,
   on equal scores, was met first when the lexical list is read before the semantic one.
   */
  lemma RankingIsExact(lexical: seq<Hit>, semantic: seq<Hit>, k: real, a: string, b: string)
    requires 0.0 <= k && a != b
    requires a in Ids(lexical + semantic) && b in Ids(lexical + semantic)
    ensures Precedes(Fusion(lexical, semantic, k), a, b) <==>
              || Score(lexical, semantic, k, a) > Score(lexical, semantic, k, b)
              || (Score(lexical, semantic, k, a) == Score(lexical, semantic, k, b) &&
                SeenBefore(Ids(lexical + semantic), a, b))
  {
    if Outranks(lexical, semantic, k, a, b) {
      OutrankingPrecedes(lexical, semantic, k, a, b);
    } else {
      SeenBeforeIsTotal(Ids(lexical + semantic), a, b);
      OutrankingPrecedes(lexical, semantic, k, b, a);
      EachSkuOnce(lexical, semantic, k, a);
    }
  }

  ghost predicate Outranks(lexical: seq<Hit>, semantic: seq<Hit>, k: real, a: string, b: string)
    requires 0.0 <= k
  {
    || Score(lexical, semantic, k, a) > Score(lexical, semantic, k, b)
    || (Score(lexical, semantic, k, a) == Score(lexical, semantic, k, b) && SeenBefore(Ids(lexical + semantic), a, b))
  }

  lemma OutrankingPrecedes(lexical: seq<Hit>, semantic: seq<Hit>, k: real, a: string, b: string)
    requires 0.0 <= k && a != b
    requires a in Ids(lexical + semantic) && b in Ids(lexical + semantic)
    requires Outranks(lexical, semantic, k, a, b)
    ensures Precedes(Fusion(lexical, semantic, k), a, b)
  {
    var entries, out := Entries(lexical, semantic, k), Fusion(lexical, semantic, k);
    var sorted := SortBy(entries, ByScore);
    var ea, eb := EntryFor(lexical, semantic, k, a), EntryFor(lexical, semantic, k, b);
    EntriesHaveNoDuplicates(lexical, semantic, k);
    SortByMembers(entries, ByScore);
    if Score(lexical, semantic, k, a) > Score(lexical, semantic, k, b) {
      SmallerGoesFirst(entries, ByScore, ea, eb);
    } else {
      var i, j := DistinctInOrder(Ids(lexical + semantic), a, b);
      assert entries[i] == ea && entries[j] == eb;
      SortIsStable(entries, ByScore, i, j);
    }
    var i, j :| 0 <= i < j < |sorted| && sorted[i] == ea && sorted[j] == eb;
    assert out[i].skuId == a && out[j].skuId == b;
  }

  lemma PlaceOf(lexical: seq<Hit>, semantic: seq<Hit>, k: real, sku: string) returns (i: int)
    requires 0.0 <= k && sku in Ids(lexical + semantic)
    ensures 0 <= i < |SortBy(Entries(lexical, semantic, k), ByScore)|
    ensures SortBy(Entries(lexical, semantic, k), ByScore)[i] == EntryFor(lexical, semantic, k, sku)
  {
    EntriesHaveNoDuplicates(lexical, semantic, k);
    var sorted := SortBy(Entries(lexical, semantic, k), ByScore);
    assert EntryFor(lexical, semantic, k, sku) in sorted;
    i :| 0 <= i < |sorted| && sorted[i] == EntryFor(lexical, semantic, k, sku);
  }

  /** In a list without repeats, a SKU's score is the weight of its one rank. */
  lemma {:induction false} ScoreOfRank(hits: seq<Hit>, k: real, i: nat)
    requires 0.0 <= k && DistinctSkus(hits) && i < |hits|
    ensures ListScore(hits, hits[i].skuId, k) == Weight(k, i)
  {
    var n := |hits| - 1;
    var init := hits[..n];
    assert Ids(hits) == Ids(init) + [hits[n].skuId];
    assert forall p, q :: 0 <= p < q < n ==> Ids(init)[p] == Ids(hits)[p] && Ids(init)[q] == Ids(hits)[q];
    if i < n {
      assert Ids(hits)[i] != Ids(hits)[n];
      ScoreOfRank(init, k, i);
    } else {
      assert forall p :: 0 <= p < n ==> Ids(init)[p] == Ids(hits)[p] != Ids(hits)[n];
      AbsentHasNoScore(init, hits[n].skuId, k);
    }
  }

  lemma WeightDecreases(k: real, i: nat, j: nat)
    requires 0.0 <= k && i < j
    ensures 0.0 < Weight(k, j) < Weight(k, i)
  {
    var x, y := k + i as real + 1.0, k + j as real + 1.0;
    assert 1.0 / x - 1.0 / y == (y - x) / (x * y);
  }

  lemma WeightPositive(k: real, i: nat)
    requires 0.0 <= k
    ensures 0.0 < Weight(k, i) <= Weight(k, 0)
  {
    if i > 0 {
      WeightDecreases(k, 0, i);
    }
  }

  /** A rank no deeper than k weighs more than half of a first place. */
  lemma WeightOverHalf(k: real, i: nat)
    requires 0.0 <= k && i as real <= k
    ensures 2.0 * Weight(k, i) > Weight(k, 0)
  {
    var x, y := k + i as real + 1.0, k + 1.0;
    assert x < 2.0 * y;
    assert 2.0 / x - 1.0 / y == (2.0 * y - x) / (x * y);
  }

  lemma RankOf(hits: seq<Hit>, sku: string) returns (i: nat)
    requires sku in Ids(hits)
    ensures i < |hits| && hits[i].skuId == sku
  {
    i :| 0 <= i < |hits| && Ids(hits)[i] == sku;
  }

  /**
   Agreement wins: with lists of at most k + 1 distinct SKUs, a SKU both searches found is returned
   ahead of every SKU only one of them found, whatever their ranks.
   */
  lemma FoundByBothPrecedes(lexical: seq<Hit>, semantic: seq<Hit>, k: real, both: string, single: string)
    requires 0.0 <= k && DistinctSkus(lexical) && DistinctSkus(semantic)
    requires |lexical| as real <= k + 1.0 && |semantic| as real <= k + 1.0
    requires both in Ids(lexical) && both in Ids(semantic)
    requires single in Ids(lexical) <==> single !in Ids(semantic)
    ensures Precedes(Fusion(lexical, semantic, k), both, single)
  {
    IdsOfConcat(lexical, semantic);
    var i := RankOf(lexical, both);
    var j := RankOf(semantic, both);
    ScoreOfRank(lexical, k, i);
    ScoreOfRank(semantic, k, j);
    WeightOverHalf(k, i);
    WeightOverHalf(k, j);
    if single in Ids(lexical) {
      var m := RankOf(lexical, single);
      ScoreOfRank(lexical, k, m);
      AbsentHasNoScore(semantic, single, k);
      WeightPositive(k, m);
    } else {
      var m := RankOf(semantic, single);
      ScoreOfRank(semantic, k, m);
      AbsentHasNoScore(lexical, single, k);
      WeightPositive(k, m);
    }
    OutrankingPrecedes(lexical, semantic, k, both, single);
  }

  /**
   The bound k + 1 on the list lengths is tight: one more hit per list and a SKU found by both can be
   returned behind one found by only one search.
   */
  lemma AgreementCanLoseBeyondBound(k: nat, lexical: seq<Hit>, semantic: seq<Hit>, both: string, single: string)
    requires DistinctSkus(lexical) && DistinctSkus(semantic)
    requires |lexical| == k + 2 == |semantic|
    requires lexical[k + 1].skuId == both == semantic[k + 1].skuId
    requires lexical[0].skuId == single && single !in Ids(semantic)
    ensures Precedes(Fusion(lexical, semantic, k as real), single, both)
  {
    var w := k as real;
    IdsOfConcat(lexical, semantic);
    ScoreOfRank(lexical, w, k + 1);
    ScoreOfRank(semantic, w, k + 1);
    ScoreOfRank(lexical, w, 0);
    AbsentHasNoScore(semantic, single, w);
    assert Ids(lexical)[k + 1] == both && Ids(semantic)[k + 1] == both && Ids(lexical)[0] == single;
    assert Weight(w, k + 1) == 1.0 / (2.0 * (w + 1.0));
    assert Weight(w, k + 1) + Weight(w, k + 1) == Weight(w, 0);
    var ids := Ids(lexical + semantic);
    assert ids[0] == single && ids[..1] == [single];
    assert SeenBefore(ids, single, both);
    OutrankingPrecedes(lexical, semantic, w, single, both);
  }

  /** In this list a stands ahead of b, or b is not in it at all. */
  ghost predicate StandsAhead(hits: seq<Hit>, a: string, b: string) {
    b in Ids(hits) ==> exists i, j :: 0 <= i < j < |hits| && hits[i].skuId == a && hits[j].skuId == b
  }

  lemma AheadScoresMore(hits: seq<Hit>, k: real, a: string, b: string)
    requires 0.0 <= k && DistinctSkus(hits) && StandsAhead(hits, a, b)
    ensures ListScore(hits, a, k) >= ListScore(hits, b, k)
    ensures a in Ids(hits) ==> ListScore(hits, a, k) > ListScore(hits, b, k)
  {
    if b in Ids(hits) {
      var i, j :| 0 <= i < j < |hits| && hits[i].skuId == a && hits[j].skuId == b;
      ScoreOfRank(hits, k, i);
      ScoreOfRank(hits, k, j);
      WeightDecreases(k, i, j);
    } else {
      AbsentHasNoScore(hits, b, k);
      if a in Ids(hits) {
        var i := RankOf(hits, a);
        ScoreOfRank(hits, k, i);
        WeightPositive(k, i);
      } else {
        AbsentHasNoScore(hits, a, k);
      }
    }
  }

  /** Dominance: a SKU ahead of another in every list that has the other is returned ahead of it. */
  lemma AheadInBothPrecedes(lexical: seq<Hit>, semantic: seq<Hit>, k: real, a: string, b: string)
    requires 0.0 <= k && DistinctSkus(lexical) && DistinctSkus(semantic)
    requires StandsAhead(lexical, a, b) && StandsAhead(semantic, a, b)
    requires a in Ids(lexical) || a in Ids(semantic)
    requires b in Ids(lexical) || b in Ids(semantic)
    ensures Precedes(Fusion(lexical, semantic, k), a, b)
  {
    IdsOfConcat(lexical, semantic);
    AheadScoresMore(lexical, k, a, b);
    AheadScoresMore(semantic, k, a, b);
    OutrankingPrecedes(lexical, semantic, k, a, b);
  }

  /** The reported method says which searches found the SKU, and the score is the better similarity. */
  lemma LabelTellsProvenance(lexical: seq<Hit>, semantic: seq<Hit>, k: real, c: Candidate)
    requires 0.0 <= k && c in Fusion(lexical, semantic, k)
    ensures c.matchMethod == Fused <==> c.skuId in Ids(lexical) && c.skuId in Ids(semantic)
    ensures c.matchMethod == Fuzzy <==> c.skuId in Ids(lexical) && c.skuId !in Ids(semantic)
    ensures c.matchMethod == Semantic <==> c.skuId !in Ids(lexical) && c.skuId in Ids(semantic)
    ensures exists h :: h in lexical + semantic && h.skuId == c.skuId && h.simScore == c.score
    ensures DistinctSkus(lexical) && DistinctSkus(semantic) ==>
              forall h :: h in lexical + semantic && h.skuId == c.skuId ==> h.simScore <= c.score
  {
    var entries := Entries(lexical, semantic, k);
    var sorted := SortBy(entries, ByScore);
    var i :| 0 <= i < |sorted| && Label(sorted[i]) == c;
    SortByMembers(entries, ByScore);
    assert sorted[i] in entries;
    var order := Distinct(Ids(lexical + semantic));
    DistinctKeeps(Ids(lexical + semantic));
    var p :| 0 <= p < |entries| && entries[p] == sorted[i];
    assert entries[p] == EntryFor(lexical, semantic, k, order[p]);
    IdsOfConcat(lexical, semantic);
    LastSimOfHits(lexical, c.skuId);
    LastSimOfHits(semantic, c.skuId);
  }

  lemma {:induction false} LastSimOfHits(hits: seq<Hit>, sku: string)
    ensures LastSim(hits, sku).Some? <==> sku in Ids(hits)
    ensures LastSim(hits, sku).Some? ==>
      exists h :: h in hits && h.skuId == sku && h.simScore == LastSim(hits, sku).value
    ensures DistinctSkus(hits) ==> forall h :: h in hits && h.skuId == sku ==> LastSim(hits, sku) == Some(h.simScore)
  {
    if hits != [] {
      var n := |hits| - 1;
      assert hits == hits[..n] + [hits[n]];
      IdsAppend(hits[..n], hits[n]);
      LastSimOfHits(hits[..n], sku);
      if hits[n].skuId == sku {
        assert hits[n] in hits;
      }
      if DistinctSkus(hits) {
        assert forall p, q :: 0 <= p < q < n ==> Ids(hits[..n])[p] == Ids(hits)[p] && Ids(hits[..n])[q] == Ids(hits)[q];
        forall h | h in hits && h.skuId == sku
          ensures LastSim(hits, sku) == Some(h.simScore)
        {
          if hits[n].skuId == sku {
            var p :| 0 <= p < |hits| && hits[p] == h;
            assert Ids(hits)[p] == Ids(hits)[n];
          }
        }
      }
    }
  }
}
