/**
 A run of the graph engine told by its visits: which nodes it visits with which store, that every exit reports whether
 its node advanced, and how the last visit decides the checkpoint, the status and the success that are announced.
 */
module PipelineEvents {
  import opened Pipeline
  import opened Wrappers

  /** What a visit comes to; an EXTRACT that is left out counts as an advance to CLASSIFY. */
  function OutcomeOf<S>(g: Graph<S>, skipExtract: bool, v: Visit<S>): Outcome
    requires v.node in g.nodes
  {
    if skipExtract && v.node == EXTRACT then Advance(CLASSIFY) else g.nodes[v.node].run(v.store).outcome
  }

  function StoreAfter<S>(g: Graph<S>, skipExtract: bool, v: Visit<S>): S
    requires v.node in g.nodes
  {
    if skipExtract && v.node == EXTRACT then v.store else g.nodes[v.node].run(v.store).store
  }

  /** The visits start at the checkpoint, each but the last advances to the next and hands it its store. */
  ghost predicate IsTrail<S(!new)>(g: Graph<S>, skipExtract: bool, store: S, node: Node, visits: seq<Visit<S>>) {
    && (forall v :: v in visits ==> v.node in g.nodes && v.node != DONE && v.node != FAILED)
    && (visits != [] ==> visits[0] == Visit(store, node))
    && forall i :: 0 < i < |visits| ==>
         && OutcomeOf(g, skipExtract, visits[i - 1]) == Advance(visits[i].node)
         && StoreAfter(g, skipExtract, visits[i - 1]) == visits[i].store
  }

  /** How a run ends that got to `node` and visits nothing more: there, or cut off. */
  ghost predicate EndsAt<S>(g: Graph<S>, store: S, node: Node, cut: bool, e: End<S>) {
    && e.store == store
    && if node == DONE || node == FAILED then
         && e.success && e.node == node
         && (node == FAILED ==> e.status == FAILURE)
         && (node == DONE ==> e.status == if g.routing(store) == Some(AUTO_ELIGIBLE) then PRICED else NEEDS_REVIEW)
       else (cut || node !in g.nodes) && !e.success && e.node == FAILED && e.status == FAILURE
  }

  /** The request stays where the visit found it, unless the node wrote a checkpoint of its own. */
  ghost predicate StaysAt<S>(g: Graph<S>, v: Visit<S>, node: Node)
    requires v.node in g.nodes
  {
    match g.nodes[v.node].run(v.store).wrote
    case Some(wrote) => node == wrote
    case None => node == v.node
  }

  /** How a run ends whose last visit is v. */
  ghost predicate EndsAfter<S>(g: Graph<S>, skipExtract: bool, v: Visit<S>, cut: bool, e: End<S>)
    requires v.node in g.nodes
  {
    var store := StoreAfter(g, skipExtract, v);
    match OutcomeOf(g, skipExtract, v)
    case Advance(next) => EndsAt(g, store, next, cut, e)
    case Clarify => e.status == NEEDS_CLARIFICATION && !e.success && e.store == store && StaysAt(g, v, e.node)
    case CircuitBreakerOpen => e.status == NEEDS_REVIEW && !e.success && e.store == store && StaysAt(g, v, e.node)
    case LogicalError => e.status == NEEDS_REVIEW && !e.success && e.store == store && StaysAt(g, v, e.node)
    case NodeFailed => e.status == FAILURE && !e.success && e.store == store && e.node == FAILED
    case InfraError => e.status == FAILURE && !e.success && e.store == store && e.node == FAILED
  }

  ghost predicate EndsBy<S>(g: Graph<S>, skipExtract: bool, store: S, node: Node, visits: seq<Visit<S>>, room: nat,
      e: End<S>)
    requires visits != [] ==> visits[|visits| - 1].node in g.nodes
  {
    if visits == [] then EndsAt(g, store, node, room == 0, e)
    else EndsAfter(g, skipExtract, visits[|visits| - 1], |visits| == room, e)
  }

  predicate IsExit(e: Event) { e.Exited? }
  predicate IsStageError(e: Event) { e.StageError? }

  function Kept(events: seq<Event>, p: Event -> bool): seq<Event> {
    if events == [] then [] else (if p(events[0]) then [events[0]] else []) + Kept(events[1..], p)
  }

  function Exits(events: seq<Event>): seq<Event> {
    Kept(events, IsExit)
  }

  function StageErrors(events: seq<Event>): seq<Event> {
    Kept(events, IsStageError)
  }

  lemma {:induction false} KeptOfConcat(a: seq<Event>, b: seq<Event>, p: Event -> bool)
    ensures Kept(a + b, p) == Kept(a, p) + Kept(b, p)
  {
    if a == [] {
      assert a + b == b;
    } else {
      assert (a + b)[1..] == a[1..] + b && (a + b)[0] == a[0];
      KeptOfConcat(a[1..], b, p);
      Grouped(if p(a[0]) then [a[0]] else [], Kept(a[1..], p), Kept(b, p));
    }
  }

  lemma Grouped<T>(a: seq<T>, b: seq<T>, c: seq<T>)
    ensures a + (b + c) == a + b + c
  {
  }

  lemma ExitsOfConcat(a: seq<Event>, b: seq<Event>)
    ensures Exits(a + b) == Exits(a) + Exits(b) && StageErrors(a + b) == StageErrors(a) + StageErrors(b)
  {
    hide Kept;
    KeptOfConcat(a, b, IsExit);
    KeptOfConcat(a, b, IsStageError);
  }

  lemma ExitsOfOne(e: Event)
    ensures Exits([e]) == if e.Exited? then [e] else []
    ensures StageErrors([e]) == if e.StageError? then [e] else []
  {
    KeptOfOne(e, IsExit);
    KeptOfOne(e, IsStageError);
  }

  lemma KeptOfOne(e: Event, p: Event -> bool)
    ensures Kept([e], p) == if p(e) then [e] else []
  {
    assert [e][1..] == [];
    assert Kept([e][1..], p) == [];
  }

  lemma ExitsOfTwo(a: Event, b: Event)
    ensures Exits([a, b]) == Exits([a]) + Exits([b]) && StageErrors([a, b]) == StageErrors([a]) + StageErrors([b])
  {
    ExitsOfConcat([a], [b]);
  }

  lemma ExitsOfThree(a: Event, b: Event, c: Event)
    ensures Exits([a, b, c]) == Exits([a]) + Exits([b]) + Exits([c])
    ensures StageErrors([a, b, c]) == StageErrors([a]) + StageErrors([b]) + StageErrors([c])
  {
    hide Exits, StageErrors;
    ExitsOfTwo(a, b);
    ExitsOfConcat([a, b], [c]);
    assert [a, b] + [c] == [a, b, c];
  }

  /** Every exit tells whether its visit advanced; a stage error tells a logical error of the last visit. */
  ghost predicate Reports<S>(g: Graph<S>, skipExtract: bool, visits: seq<Visit<S>>, events: seq<Event>)
    requires forall v :: v in visits ==> v.node in g.nodes
  {
    && |Exits(events)| == |visits|
    && (forall i :: 0 <= i < |visits| ==>
          Exits(events)[i] == Exited(visits[i].node, OutcomeOf(g, skipExtract, visits[i]).Advance?))
    && StageErrors(events) ==
       if visits != [] && OutcomeOf(g, skipExtract, visits[|visits| - 1]) == LogicalError
       then [StageError(visits[|visits| - 1].node)] else []
  }

  lemma VisitReports<S>(g: Graph<S>, skipExtract: bool, v: Visit<S>)
    requires v.node in g.nodes
    ensures var trace := Visited(g, skipExtract, v.store, v.node).trace;
      && Exits(trace) == [Exited(v.node, OutcomeOf(g, skipExtract, v).Advance?)]
      && StageErrors(trace) == if OutcomeOf(g, skipExtract, v) == LogicalError then [StageError(v.node)] else []
  {
    hide Exits, StageErrors;
    var exit := Exited(v.node, OutcomeOf(g, skipExtract, v).Advance?);
    ExitsOfOne(Entered(v.node));
    ExitsOfOne(StageError(v.node));
    ExitsOfOne(exit);
    ExitsOfTwo(Entered(v.node), exit);
    ExitsOfThree(Entered(v.node), StageError(v.node), exit);
    VisitTrace(g, skipExtract, v);
  }

  lemma VisitTrace<S>(g: Graph<S>, skipExtract: bool, v: Visit<S>)
    requires v.node in g.nodes
    ensures var exit := Exited(v.node, OutcomeOf(g, skipExtract, v).Advance?);
      Visited(g, skipExtract, v.store, v.node).trace ==
      if OutcomeOf(g, skipExtract, v) == LogicalError then [Entered(v.node), StageError(v.node), exit]
      else [Entered(v.node), exit]
  {
  }

  lemma ReportsOneMore<S(!new)>(g: Graph<S>, skipExtract: bool, v: Visit<S>, later: seq<Visit<S>>, rest: seq<Event>)
    requires v.node in g.nodes && OutcomeOf(g, skipExtract, v).Advance?
    requires (forall w :: w in later ==> w.node in g.nodes) && Reports(g, skipExtract, later, rest)
    ensures Reports(g, skipExtract, [v] + later, Visited(g, skipExtract, v.store, v.node).trace + rest)
  {
    hide Exits, StageErrors, OutcomeOf, Visited;
    VisitReports(g, skipExtract, v);
    ExitsOfConcat(Visited(g, skipExtract, v.store, v.node).trace, rest);
  }

  lemma TrailOneMore<S(!new)>(g: Graph<S>, skipExtract: bool, v: Visit<S>, next: Node, later: seq<Visit<S>>)
    requires v.node in g.nodes && v.node != DONE && v.node != FAILED && OutcomeOf(g, skipExtract, v) == Advance(next)
    requires IsTrail(g, skipExtract, StoreAfter(g, skipExtract, v), next, later)
    ensures IsTrail(g, skipExtract, v.store, v.node, [v] + later)
  {
    hide OutcomeOf, StoreAfter;
    var visits := [v] + later;
    forall i | 0 < i < |visits|
      ensures OutcomeOf(g, skipExtract, visits[i - 1]) == Advance(visits[i].node)
      ensures StoreAfter(g, skipExtract, visits[i - 1]) == visits[i].store
    {
      assert visits[i] == later[i - 1] && (i > 1 ==> visits[i - 1] == later[i - 2]);
    }
  }

  lemma {:induction false} WalkTellsItsVisits<S(!new)>(g: Graph<S>, skipExtract: bool, store: S, node: Node, steps: nat)
    returns (visits: seq<Visit<S>>)
    requires steps <= MAX_NODE_TRANSITIONS
    ensures IsTrail(g, skipExtract, store, node, visits) && |visits| <= MAX_NODE_TRANSITIONS - steps
    ensures var e := Walk(g, skipExtract, store, node, steps);
      && EndsBy(g, skipExtract, store, node, visits, MAX_NODE_TRANSITIONS - steps, e)
      && Reports(g, skipExtract, visits, e.trace)
    decreases MAX_NODE_TRANSITIONS - steps
  {
    visits := [];
    if node != DONE && node != FAILED && steps < MAX_NODE_TRANSITIONS && node in g.nodes {
      hide Reports, IsTrail, Walk, EndsAt, EndsAfter;
      var move, v := Visited(g, skipExtract, store, node), Visit(store, node);
      WalkFromHere(g, skipExtract, store, node, steps);
      if move.GoOn? {
        var later := WalkTellsItsVisits(g, skipExtract, move.store, move.next, steps + 1);
        var e := Walk(g, skipExtract, move.store, move.next, steps + 1);
        TrailNodes(g, skipExtract, move.store, move.next, later);
        TrailOneMore(g, skipExtract, v, move.next, later);
        ReportsOneMore(g, skipExtract, v, later, e.trace);
        EndsOneMore(g, skipExtract, v, move.next, later, MAX_NODE_TRANSITIONS - steps, e, After(move.trace, e));
        visits := [v] + later;
      } else {
        visits := [v];
        StopsHere(g, skipExtract, store, node, steps);
      }
    } else {
      StandsHere(g, skipExtract, store, node, steps);
    }
  }

  lemma WalkFromHere<S>(g: Graph<S>, skipExtract: bool, store: S, node: Node, steps: nat)
    requires node != DONE && node != FAILED && steps < MAX_NODE_TRANSITIONS && node in g.nodes
    ensures var e := Walk(g, skipExtract, store, node, steps);
      match Visited(g, skipExtract, store, node)
      case GoOn(after, next, trace) =>
        && e == After(trace, Walk(g, skipExtract, after, next, steps + 1))
        && OutcomeOf(g, skipExtract, Visit(store, node)) == Advance(next)
        && StoreAfter(g, skipExtract, Visit(store, node)) == after
      case Stop(_, _, _, _) => true
  {
  }

  lemma StopsHere<S(!new)>(g: Graph<S>, skipExtract: bool, store: S, node: Node, steps: nat)
    requires node != DONE && node != FAILED && steps < MAX_NODE_TRANSITIONS && node in g.nodes
    requires Visited(g, skipExtract, store, node).Stop?
    ensures var e, visits := Walk(g, skipExtract, store, node, steps), [Visit(store, node)];
      && IsTrail(g, skipExtract, store, node, visits) && Reports(g, skipExtract, visits, e.trace)
      && EndsBy(g, skipExtract, store, node, visits, MAX_NODE_TRANSITIONS - steps, e)
  {
    hide Exits, StageErrors;
    VisitReports(g, skipExtract, Visit(store, node));
  }

  lemma StandsHere<S(!new)>(g: Graph<S>, skipExtract: bool, store: S, node: Node, steps: nat)
    requires steps <= MAX_NODE_TRANSITIONS
    requires node == DONE || node == FAILED || steps == MAX_NODE_TRANSITIONS || node !in g.nodes
    ensures var e := Walk(g, skipExtract, store, node, steps);
      && IsTrail(g, skipExtract, store, node, []) && Reports(g, skipExtract, [], e.trace)
      && EndsBy(g, skipExtract, store, node, [], MAX_NODE_TRANSITIONS - steps, e)
  {
  }

  lemma EndsOneMore<S(!new)>(g: Graph<S>, skipExtract: bool, v: Visit<S>, next: Node, later: seq<Visit<S>>, room: nat,
      e: End<S>, end: End<S>)
    requires v.node in g.nodes && (forall w :: w in later ==> w.node in g.nodes) && 0 < room
    requires OutcomeOf(g, skipExtract, v) == Advance(next)
    requires EndsBy(g, skipExtract, StoreAfter(g, skipExtract, v), next, later, room - 1, e)
    requires end == e.(trace := end.trace)
    ensures EndsBy(g, skipExtract, v.store, v.node, [v] + later, room, end)
  {
    hide OutcomeOf, StoreAfter;
  }

  lemma TrailNodes<S(!new)>(g: Graph<S>, skipExtract: bool, store: S, node: Node, visits: seq<Visit<S>>)
    requires IsTrail(g, skipExtract, store, node, visits)
    ensures forall v :: v in visits ==> v.node in g.nodes
  {
  }

  /**
   Every run is one trail of visits: each exit reports whether its node advanced, only a logical error is reported as a
   stage error, a resumption is announced if and only if the run does not start at PARSE, first of all and from where it
   stands, and checkpoint, status and success are those the last visit leads to.
   */
  lemma RunTellsItsVisits<S(!new)>(g: Graph<S>, skipExtract: bool, row: Row<S>)
    returns (visits: seq<Visit<S>>, e: End<S>)
    ensures IsTrail(g, skipExtract, row.store, row.currentNode, visits) && |visits| <= MAX_NODE_TRANSITIONS
    ensures EndsBy(g, skipExtract, row.store, row.currentNode, visits, MAX_NODE_TRANSITIONS, e)
    ensures var after := RunResult(g, skipExtract, row);
      && after.store == e.store && after.currentNode == e.node
      && after.status == if row.status == SENT || row.status == DECLINED then row.status else e.status
    ensures var events := RunEvents(g, skipExtract, row);
      && Reports(g, skipExtract, visits, events)
      && EndsWith(g, skipExtract, row, e.success, e.status)
      && forall i :: 0 <= i < |events| ==>
           (events[i].Resumed? <==> i == 0 && row.currentNode != PARSE)
           && (events[i].Resumed? ==> events[i].from == row.currentNode)
  {
    visits := WalkTellsItsVisits(g, skipExtract, row.store, row.currentNode, 0);
    e := Walk(g, skipExtract, row.store, row.currentNode, 0);
    WalkIsBoundedAndPaired(g, skipExtract, row.store, row.currentNode, 0);
    TrailNodes(g, skipExtract, row.store, row.currentNode, visits);
    FramedReports(g, skipExtract, row.currentNode, visits, e);
    PairedHasNoFinalisation(e.trace);
    ResumedFirst(row.currentNode, e);
  }

  lemma FramedReports<S(!new)>(g: Graph<S>, skipExtract: bool, from: Node, visits: seq<Visit<S>>, e: End<S>)
    requires (forall v :: v in visits ==> v.node in g.nodes) && Reports(g, skipExtract, visits, e.trace)
    ensures Reports(g, skipExtract, visits, Framed(from, e.trace, e.success, e.status))
  {
    hide OutcomeOf, Exits, StageErrors;
    var closing := [ProcessingComplete(e.success), Finalized(e.status)];
    OpeningHasNone(from);
    ExitsOfOne(closing[0]);
    ExitsOfOne(closing[1]);
    ExitsOfTwo(closing[0], closing[1]);
    ExitsOfConcat(e.trace, closing);
    ExitsOfConcat(Opening(from), e.trace + closing);
  }

  lemma OpeningHasNone(from: Node)
    ensures Exits(Opening(from)) == [] && StageErrors(Opening(from)) == []
  {
    ExitsOfOne(Resumed(from));
  }

  lemma ResumedFirst<S>(from: Node, e: End<S>)
    requires forall x: Event :: x in e.trace ==> x.Entered? || x.Exited? || x.StageError?
    ensures var events := Framed(from, e.trace, e.success, e.status);
      forall i :: 0 <= i < |events| ==>
        (events[i].Resumed? <==> i == 0 && from != PARSE) && (events[i].Resumed? ==> events[i].from == from)
  {
    PositionsOfConcat(Opening(from), e.trace, [ProcessingComplete(e.success), Finalized(e.status)]);
  }
}
