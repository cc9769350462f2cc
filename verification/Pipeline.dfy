/**
 The pipeline graph engine: it walks one request through its nodes, persisting a checkpoint between
 nodes, and ends every run by setting a status and emitting exactly one finalisation.
 Nodes are arbitrary deterministic transformers of the stored data S.
 */
module Pipeline {
  import opened Wrappers

  const MAX_NODE_TRANSITIONS := 50

  datatype Node = PARSE | EXTRACT | CLASSIFY | MATCH | PRICE | POLICY | SCORE | DONE | FAILED

  datatype Status =
    | RECEIVED | PARSING | NEEDS_REVIEW | PRICED | READY | SENT | DECLINED | NEEDS_CLARIFICATION | FAILURE

  datatype Routing = AUTO_ELIGIBLE | REVIEW

  /** How a node's run ends: its result, or the class of what it threw. */
  datatype Outcome = Advance(next: Node) | Clarify | NodeFailed | CircuitBreakerOpen | InfraError | LogicalError

  /** What a node leaves behind; `wrote` is a checkpoint the node itself persisted. */
  datatype Effect<S> = Effect(store: S, outcome: Outcome, wrote: Option<Node>)

  /** `torn(s, t)`: a crash in the middle of the node's run on s can leave t. */
  datatype NodeImpl<!S> = NodeImpl(run: S -> Effect<S>, torn: (S, S) -> bool)

  datatype Graph<!S> = Graph(nodes: map<Node, NodeImpl<S>>, routing: S -> Option<Routing>, extracted: S -> bool)

  /** The persisted request: its checkpoint, its status and everything its nodes own. */
  datatype Row<S> = Row(currentNode: Node, status: Status, store: S)

  datatype Event =
    | Resumed(from: Node)
    | Entered(node: Node)
    | StageError(node: Node)
    | Exited(node: Node, success: bool)
    | ProcessingComplete(success: bool)
    | Finalized(status: Status)

  /** Terminal for every writer: setStatus and markProcessing skip such a request. */
  predicate IsTerminal(s: Status) {
    s == SENT || s == DECLINED
  }

  function SetStatus(current: Status, s: Status): Status {
    if IsTerminal(current) then current else s
  }

  function TerminalStatus<S>(g: Graph<S>, store: S, node: Node): Status {
    if node == FAILED then FAILURE
    else if g.routing(store) == Some(AUTO_ELIGIBLE) then PRICED
    else NEEDS_REVIEW
  }

  function Persisted<S>(node: Node, e: Effect<S>): Node {
    if e.wrote.Some? then e.wrote.value else node
  }

  // ---------- One uninterrupted run ----------

  /** One visit to a node: the run goes on at `next`, or stops with `status`. */
  datatype Move<S> =
    | GoOn(store: S, next: Node, trace: seq<Event>)
    | Stop(store: S, node: Node, status: Status, trace: seq<Event>)

  function Visited<S>(g: Graph<S>, skipExtract: bool, store: S, node: Node): Move<S>
    requires node in g.nodes
  {
    if skipExtract && node == EXTRACT then GoOn(store, CLASSIFY, [Entered(node), Exited(node, true)])
    else
      var e := g.nodes[node].run(store);
      match e.outcome
      case Advance(next) => GoOn(e.store, next, [Entered(node), Exited(node, true)])
      case Clarify => Stop(e.store, Persisted(node, e), NEEDS_CLARIFICATION, [Entered(node), Exited(node, false)])
      case CircuitBreakerOpen => Stop(e.store, Persisted(node, e), NEEDS_REVIEW, [Entered(node), Exited(node, false)])
      case LogicalError => Stop(e.store, Persisted(node, e), NEEDS_REVIEW,
        [Entered(node), StageError(node), Exited(node, false)])
      case NodeFailed => Stop(e.store, FAILED, FAILURE, [Entered(node), Exited(node, false)])
      case InfraError => Stop(e.store, FAILED, FAILURE, [Entered(node), Exited(node, false)])
  }

  datatype End<S> = End(store: S, node: Node, status: Status, success: bool, trace: seq<Event>)

  function After<S>(trace: seq<Event>, e: End<S>): End<S> {
    e.(trace := trace + e.trace)
  }

  /** How the run ends when it stands at `node` after `steps` transitions. */
  function Walk<S>(g: Graph<S>, skipExtract: bool, store: S, node: Node, steps: nat): End<S>
    requires steps <= MAX_NODE_TRANSITIONS
    decreases MAX_NODE_TRANSITIONS - steps, node
  {
    if node == DONE || node == FAILED then End(store, node, TerminalStatus(g, store, node), true, [])
    else if steps == MAX_NODE_TRANSITIONS || node !in g.nodes then End(store, FAILED, FAILURE, false, [])
    else
      match Visited(g, skipExtract, store, node)
      case GoOn(after, next, trace) => After(trace, Walk(g, skipExtract, after, next, steps + 1))
      case Stop(after, last, status, trace) => End(after, last, status, false, trace)
  }

  function Opening(from: Node): seq<Event> {
    if from != PARSE then [Resumed(from)] else []
  }

  function Framed(from: Node, trace: seq<Event>, success: bool, status: Status): seq<Event> {
    Opening(from) + (trace + [ProcessingComplete(success), Finalized(status)])
  }

  function RunEvents<S>(g: Graph<S>, skipExtract: bool, row: Row<S>): seq<Event> {
    var e := Walk(g, skipExtract, row.store, row.currentNode, 0);
    Framed(row.currentNode, e.trace, e.success, e.status)
  }

  function RunResult<S>(g: Graph<S>, skipExtract: bool, row: Row<S>): Row<S> {
    var e := Walk(g, skipExtract, row.store, row.currentNode, 0);
    Row(e.node, SetStatus(row.status, e.status), e.store)
  }

  lemma Regroup<T>(a: seq<T>, b: seq<T>, c: seq<T>)
    ensures a + b + c == a + (b + c)
  {
  }

  class PipelineGraphEngine<S> {
    const graph: Graph<S>
    const found: bool
    var row: Row<S>
    var events: seq<Event>

    constructor (graph: Graph<S>, found: bool, row: Row<S>)
      ensures this.graph == graph && this.found == found && this.row == row && events == []
    {
      this.graph, this.found, this.row := graph, found, row;
      events := [];
    }

    method Checkpoint(next: Node)
      modifies this
      ensures row == old(row).(currentNode := next) && events == old(events)
    {
      row := row.(currentNode := next);
    }

    method Emit(event: Event)
      modifies this
      ensures row == old(row) && events == old(events) + [event]
    {
      events := events + [event];
    }

    method Finalize(status: Status, success: bool)
      modifies this
      ensures row == old(row).(status := SetStatus(old(row).status, status))
      ensures events == old(events) + [ProcessingComplete(success), Finalized(status)]
    {
      row := row.(status := SetStatus(row.status, status));
      Emit(ProcessingComplete(success));
      Emit(Finalized(status));
    }

    /** Runs the node and commits what it wrote. */
    method RunNode(node: Node) returns (outcome: Outcome)
      requires node in graph.nodes
      modifies this
      ensures var e := graph.nodes[node].run(old(row).store);
        && outcome == e.outcome && events == old(events)
        && row == old(row).(store := e.store, currentNode := Persisted(old(row).currentNode, e))
    {
      var e := graph.nodes[node].run(row.store);
      outcome := e.outcome;
      row := row.(store := e.store);
      if e.wrote.Some? {
        row := row.(currentNode := e.wrote.value);
      }
    }

    /** One pass through the engine's loop at a registered node; Some is the status to finalise with. */
    method Visit(node: Node, skipExtract: bool) returns (stopped: Option<Status>, next: Node)
      requires node in graph.nodes && row.currentNode == node
      modifies this
      ensures
        match Visited(graph, skipExtract, old(row).store, node)
        case GoOn(store, n, trace) =>
          && stopped.None? && next == n
          && row == Row(n, old(row).status, store) && events == old(events) + trace
        case Stop(store, n, status, trace) =>
          && stopped == Some(status)
          && row == Row(n, old(row).status, store) && events == old(events) + trace
    {
      stopped, next := None, node;
      Emit(Entered(node));
      if skipExtract && node == EXTRACT {
        Emit(Exited(node, true));
        Checkpoint(CLASSIFY);
        return None, CLASSIFY;
      }
      var outcome := RunNode(node);
      match outcome {
        case CircuitBreakerOpen =>
          Emit(Exited(node, false));
          stopped := Some(NEEDS_REVIEW);
        case InfraError =>
          Emit(Exited(node, false));
          Checkpoint(FAILED);
          stopped := Some(FAILURE);
        case LogicalError =>
          Emit(StageError(node));
          Emit(Exited(node, false));
          stopped := Some(NEEDS_REVIEW);
        case Clarify =>
          Emit(Exited(node, false));
          stopped := Some(NEEDS_CLARIFICATION);
        case NodeFailed =>
          Emit(Exited(node, false));
          Checkpoint(FAILED);
          stopped := Some(FAILURE);
        case Advance(n) =>
          Emit(Exited(node, true));
          Checkpoint(n);
          next := n;
      }
    }

    /**
     A pass through the loop, seen from the whole run: `end` is where the run ends, `trace` what it emitted so far.
     */
    method VisitFrom(node: Node, skipExtract: bool, ghost steps: nat, ghost trace: seq<Event>, ghost end: End<S>,
        ghost events0: seq<Event>)
      returns (stopped: Option<Status>, next: Node, ghost after: seq<Event>)
      requires node != DONE && node != FAILED && node in graph.nodes && row.currentNode == node
      requires steps < MAX_NODE_TRANSITIONS && events == events0 + trace
      requires end == After(trace, Walk(graph, skipExtract, row.store, node, steps))
      modifies this
      ensures row.status == old(row).status && events == events0 + after
      ensures stopped.None? ==>
        row.currentNode == next && end == After(after, Walk(graph, skipExtract, row.store, next, steps + 1))
      ensures stopped.Some? ==> end == End(row.store, row.currentNode, stopped.value, false, after)
    {
      WalkFromVisit(graph, skipExtract, row.store, node, steps, trace, end);
      ghost var visited := Visited(graph, skipExtract, row.store, node).trace;
      Regroup(events0, trace, visited);
      after := trace + visited;
      stopped, next := Visit(node, skipExtract);
    }

    /** The engine's loop; it answers what the run is to be finalised with. */
    method WalkGraph(skipExtract: bool) returns (status: Status, success: bool)
      modifies this
      ensures var e := Walk(graph, skipExtract, old(row).store, old(row).currentNode, 0);
        && row == Row(e.node, old(row).status, e.store) && events == old(events) + e.trace
        && status == e.status && success == e.success
    {
      hide Walk;
      ghost var status0, events0 := row.status, events;
      ghost var end := Walk(graph, skipExtract, row.store, row.currentNode, 0);
      var node, steps := row.currentNode, 0;
      ghost var trace: seq<Event> := [];
      AfterNothing(end);
      while node != DONE && node != FAILED
        invariant 0 <= steps <= MAX_NODE_TRANSITIONS
        invariant row.currentNode == node && row.status == status0
        invariant events == events0 + trace
        invariant end == After(trace, Walk(graph, skipExtract, row.store, node, steps))
        decreases MAX_NODE_TRANSITIONS - steps
      {
        steps := steps + 1;
        if steps > MAX_NODE_TRANSITIONS || node !in graph.nodes {
          WalkCut(graph, skipExtract, row.store, node, steps - 1, trace, end);
          Checkpoint(FAILED);
          return FAILURE, false;
        }
        var stopped, next;
        stopped, next, trace := VisitFrom(node, skipExtract, steps - 1, trace, end, events0);
        if stopped.Some? {
          return stopped.value, false;
        }
        node := next;
      }
      WalkArrived(graph, skipExtract, row.store, node, steps, trace, end);
      return TerminalStatus(graph, row.store, node), true;
    }

    /** An unknown request is left alone; any other ends as Walk says and is finalised. */
    method Run(skipExtract: bool)
      modifies this
      ensures !found ==> row == old(row) && events == old(events)
      ensures found ==>
        && row == RunResult(graph, skipExtract, old(row))
        && events == old(events) + RunEvents(graph, skipExtract, old(row))
    {
      if !found {
        return;
      }
      ghost var e := Walk(graph, skipExtract, row.store, row.currentNode, 0);
      Start();
      var status, success := WalkGraph(skipExtract);
      Finalize(status, success);
      Regroup(old(events) + Opening(old(row).currentNode), e.trace, [ProcessingComplete(success), Finalized(status)]);
      Regroup(old(events), Opening(old(row).currentNode), e.trace + [ProcessingComplete(success), Finalized(status)]);
    }

    /** Announces a resumption and marks the request as being processed, unless its status is terminal. */
    method Start()
      modifies this
      ensures row == old(row).(status := SetStatus(old(row).status, PARSING))
      ensures events == old(events) + Opening(row.currentNode)
    {
      if row.currentNode != PARSE {
        Emit(Resumed(row.currentNode));
      }
      row := row.(status := SetStatus(row.status, PARSING));
    }
  }

  lemma AfterNothing<S>(e: End<S>)
    ensures After([], e) == e
  {
  }

  lemma WalkArrived<S>(g: Graph<S>, skipExtract: bool, store: S, node: Node, steps: nat, trace: seq<Event>, end: End<S>)
    requires (node == DONE || node == FAILED) && steps <= MAX_NODE_TRANSITIONS
    requires end == After(trace, Walk(g, skipExtract, store, node, steps))
    ensures end == End(store, node, TerminalStatus(g, store, node), true, trace)
  {
  }

  lemma WalkCut<S>(g: Graph<S>, skipExtract: bool, store: S, node: Node, steps: nat, trace: seq<Event>, end: End<S>)
    requires node != DONE && node != FAILED && steps <= MAX_NODE_TRANSITIONS
    requires steps == MAX_NODE_TRANSITIONS || node !in g.nodes
    requires end == After(trace, Walk(g, skipExtract, store, node, steps))
    ensures end == End(store, FAILED, FAILURE, false, trace)
  {
  }

  lemma WalkFromVisit<S>(g: Graph<S>, skipExtract: bool, store: S, node: Node, steps: nat, trace: seq<Event>,
      end: End<S>)
    requires node != DONE && node != FAILED && steps < MAX_NODE_TRANSITIONS && node in g.nodes
    requires end == After(trace, Walk(g, skipExtract, store, node, steps))
    ensures match Visited(g, skipExtract, store, node)
      case GoOn(after, next, t) => end == After(trace + t, Walk(g, skipExtract, after, next, steps + 1))
      case Stop(after, last, status, t) => end == End(after, last, status, false, trace + t)
  {
  }

  // ---------- Every run, whatever the nodes return ----------

  function Entries(trace: seq<Event>): nat {
    if trace == [] then 0 else (if trace[0].Entered? then 1 else 0) + Entries(trace[1..])
  }

  /** Each entry is closed by exactly one exit of the same node before the next entry; nothing else is emitted. */
  predicate Paired(trace: seq<Event>) {
    if trace == [] then true
    else
      trace[0].Entered? && |trace| >= 2 &&
      if trace[1].Exited? then trace[1].node == trace[0].node && Paired(trace[2..])
      else
        trace[1] == StageError(trace[0].node) && |trace| >= 3 &&
        trace[2] == Exited(trace[0].node, false) && Paired(trace[3..])
  }

  /** A node writes the checkpoint only to move to its own next node. */
  ghost predicate WritesOwnNext<S(!new)>(g: Graph<S>) {
    forall n, s :: n in g.nodes ==>
      var e := g.nodes[n].run(s);
      e.wrote.Some? ==> e.outcome == Advance(e.wrote.value)
  }

  lemma EntriesOfPair(a: Event, b: Event)
    ensures Entries([a, b]) == (if a.Entered? then 1 else 0) + if b.Entered? then 1 else 0
  {
    assert [a, b][1..] == [b] && [b][1..] == [];
    assert Entries([b]) == (if b.Entered? then 1 else 0) + Entries([]);
  }

  lemma {:induction false} EntriesOfConcat(a: seq<Event>, b: seq<Event>)
    ensures Entries(a + b) == Entries(a) + Entries(b)
  {
    if a == [] {
      assert a + b == b;
    } else {
      EntriesOfConcat(a[1..], b);
      assert (a + b)[1..] == a[1..] + b;
    }
  }

  lemma VisitEntersOnce<S>(g: Graph<S>, skipExtract: bool, store: S, node: Node)
    requires node in g.nodes
    ensures Entries(Visited(g, skipExtract, store, node).trace) == 1
  {
    var visit := Visited(g, skipExtract, store, node).trace;
    var exit := visit[|visit| - 1];
    if |visit| == 2 {
      EntriesOfPair(Entered(node), exit);
    } else {
      EntriesOfConcat([Entered(node)], [StageError(node), exit]);
      EntriesOfPair(StageError(node), exit);
      assert visit == [Entered(node)] + [StageError(node), exit];
      assert [Entered(node)][1..] == [];
    }
  }

  lemma VisitIsPaired<S>(g: Graph<S>, skipExtract: bool, store: S, node: Node, rest: seq<Event>)
    requires node in g.nodes && Paired(rest)
    ensures var trace := Visited(g, skipExtract, store, node).trace + rest;
      Paired(trace) && Entries(trace) == 1 + Entries(rest)
  {
    hide Entries;
    var visit := Visited(g, skipExtract, store, node).trace;
    EntriesOfConcat(visit, rest);
    VisitEntersOnce(g, skipExtract, store, node);
    if |visit| == 2 {
      assert (visit + rest)[2..] == rest;
    } else {
      assert (visit + rest)[3..] == rest;
    }
  }

  lemma {:induction false} WalkIsBoundedAndPaired<S>(g: Graph<S>, skipExtract: bool, store: S, node: Node, steps: nat)
    requires steps <= MAX_NODE_TRANSITIONS
    ensures Entries(Walk(g, skipExtract, store, node, steps).trace) <= MAX_NODE_TRANSITIONS - steps
    ensures Paired(Walk(g, skipExtract, store, node, steps).trace)
    decreases MAX_NODE_TRANSITIONS - steps
  {
    if node != DONE && node != FAILED && steps < MAX_NODE_TRANSITIONS && node in g.nodes {
      var move := Visited(g, skipExtract, store, node);
      if move.GoOn? {
        WalkIsBoundedAndPaired(g, skipExtract, move.store, move.next, steps + 1);
        VisitIsPaired(g, skipExtract, store, node, Walk(g, skipExtract, move.store, move.next, steps + 1).trace);
      } else {
        VisitIsPaired(g, skipExtract, store, node, []);
        assert move.trace + [] == move.trace;
      }
    }
  }

  lemma {:induction false} WalkStatus<S(!new)>(g: Graph<S>, skipExtract: bool, store: S, node: Node, steps: nat)
    requires steps <= MAX_NODE_TRANSITIONS && WritesOwnNext(g)
    ensures var e := Walk(g, skipExtract, store, node, steps);
      && (e.status == FAILURE <==> e.node == FAILED)
      && (e.status == PRICED <==> e.node == DONE && g.routing(e.store) == Some(AUTO_ELIGIBLE))
      && e.status in {FAILURE, PRICED, NEEDS_REVIEW, NEEDS_CLARIFICATION}
    decreases MAX_NODE_TRANSITIONS - steps
  {
    if node != DONE && node != FAILED && steps < MAX_NODE_TRANSITIONS && node in g.nodes {
      var move := Visited(g, skipExtract, store, node);
      if move.GoOn? {
        WalkStatus(g, skipExtract, move.store, move.next, steps + 1);
      }
    }
  }

  /** A run enters at most 50 nodes, closes each before the next, and finalises once, as its last act. */
  lemma RunIsBoundedAndFinalisedOnce<S>(g: Graph<S>, skipExtract: bool, row: Row<S>)
    ensures var events := RunEvents(g, skipExtract, row);
      && Entries(events) <= MAX_NODE_TRANSITIONS
      && Paired(events[|Opening(row.currentNode)|..|events| - 2])
      && (forall i :: 0 <= i < |events| ==> (events[i].Finalized? <==> i == |events| - 1))
      && (forall i :: 0 <= i < |events| ==> (events[i].ProcessingComplete? <==> i == |events| - 2))
  {
    var e := Walk(g, skipExtract, row.store, row.currentNode, 0);
    WalkIsBoundedAndPaired(g, skipExtract, row.store, row.currentNode, 0);
    FramedOnce(row.currentNode, e.trace, e.success, e.status);
  }

  lemma FramedOnce(from: Node, trace: seq<Event>, success: bool, status: Status)
    requires Paired(trace)
    ensures var events, n := Framed(from, trace, success, status), |Opening(from)|;
      && Entries(events) == Entries(trace)
      && events[n..|events| - 2] == trace
      && (forall i :: 0 <= i < |events| ==> (events[i].Finalized? <==> i == |events| - 1))
      && (forall i :: 0 <= i < |events| ==> (events[i].ProcessingComplete? <==> i == |events| - 2))
  {
    hide Entries, Paired, Opening;
    EntriesOfFramed(from, trace, success, status);
    OpeningIsShort(from);
    PositionsOfConcat(Opening(from), trace, [ProcessingComplete(success), Finalized(status)]);
    PairedHasNoFinalisation(trace);
    ClosedOnce(trace, Framed(from, trace, success, status), |Opening(from)|);
  }

  lemma OpeningIsShort(from: Node)
    ensures Opening(from) == [] || (|Opening(from)| == 1 && Opening(from)[0].Resumed?)
  {
  }

  lemma ClosedOnce(trace: seq<Event>, events: seq<Event>, n: nat)
    requires |events| == n + |trace| + 2 && events[n..|events| - 2] == trace &&
      (n == 0 || (n == 1 && events[0].Resumed?))
    requires forall i :: 0 <= i < |trace| ==> !trace[i].Finalized? && !trace[i].ProcessingComplete?
    requires events[|events| - 2].ProcessingComplete? && events[|events| - 1].Finalized?
    ensures forall i :: 0 <= i < |events| ==> (events[i].Finalized? <==> i == |events| - 1)
    ensures forall i :: 0 <= i < |events| ==> (events[i].ProcessingComplete? <==> i == |events| - 2)
  {
    assert forall i :: n <= i < |events| - 2 ==> events[i] == trace[i - n];
  }

  lemma EntriesOfFramed(from: Node, trace: seq<Event>, success: bool, status: Status)
    ensures Entries(Framed(from, trace, success, status)) == Entries(trace)
  {
    var after := [ProcessingComplete(success), Finalized(status)];
    EntriesOfConcat(Opening(from), trace + after);
    EntriesOfConcat(trace, after);
    EntriesOfPair(after[0], after[1]);
    assert [Resumed(from)][1..] == [];
  }

  lemma PositionsOfConcat(a: seq<Event>, b: seq<Event>, c: seq<Event>)
    ensures (a + (b + c))[|a|..|a| + |b|] == b
    ensures forall i :: 0 <= i < |a| ==> (a + (b + c))[i] == a[i]
    ensures forall i :: |a| <= i < |a| + |b| ==> (a + (b + c))[i] == b[i - |a|] && b[i - |a|] in b
    ensures forall i :: |a| + |b| <= i < |a| + |b| + |c| ==> (a + (b + c))[i] == c[i - |a| - |b|]
  {
  }

  lemma {:induction false} PairedHasNoFinalisation(trace: seq<Event>)
    requires Paired(trace)
    ensures forall e: Event :: e in trace ==> e.Entered? || e.Exited? || e.StageError?
  {
    if trace != [] {
      var rest := if trace[1].Exited? then 2 else 3;
      PairedHasNoFinalisation(trace[rest..]);
      assert trace == trace[..rest] + trace[rest..];
    }
  }

  /**
   The stored status agrees with the checkpoint, FAILED with FAILED and PRICED with DONE and
   auto-eligible routing, unless the request was already SENT or DECLINED: that status is kept, so it
   disagrees exactly when the run ends at FAILED or finds auto-eligible routing.
   */
  lemma StatusAgreesWithCheckpoint<S(!new)>(g: Graph<S>, skipExtract: bool, row: Row<S>)
    requires WritesOwnNext(g)
    ensures var after := RunResult(g, skipExtract, row);
      && (IsTerminal(row.status) ==> after.status == row.status)
      && ((after.status == FAILURE <==> after.currentNode == FAILED) <==>
            !IsTerminal(row.status) || after.currentNode != FAILED)
      && (after.status == PRICED <==>
            !IsTerminal(row.status) && after.currentNode == DONE && g.routing(after.store) == Some(AUTO_ELIGIBLE))
      && (!IsTerminal(row.status) ==> after.status in {FAILURE, PRICED, NEEDS_REVIEW, NEEDS_CLARIFICATION})
  {
    WalkStatus(g, skipExtract, row.store, row.currentNode, 0);
  }

  // ---------- Success reported for a failed run ----------

  datatype Visit<S> = Visit(store: S, node: Node)

  /** The last node a run visits, with the store it found. */
  function LastVisit<S>(g: Graph<S>, skipExtract: bool, store: S, node: Node, steps: nat): Option<Visit<S>>
    requires steps <= MAX_NODE_TRANSITIONS
    ensures LastVisit(g, skipExtract, store, node, steps).Some? ==>
      LastVisit(g, skipExtract, store, node, steps).value.node in g.nodes
    decreases MAX_NODE_TRANSITIONS - steps, node
  {
    if node == DONE || node == FAILED || steps == MAX_NODE_TRANSITIONS || node !in g.nodes then None
    else
      match Visited(g, skipExtract, store, node)
      case Stop(_, _, _, _) => Some(Visit(store, node))
      case GoOn(after, next, _) =>
        var later := LastVisit(g, skipExtract, after, next, steps + 1);
        if later.Some? then later else Some(Visit(store, node))
  }

  predicate AdvancesToFailed<S>(g: Graph<S>, skipExtract: bool, v: Visit<S>)
    requires v.node in g.nodes
  {
    !(skipExtract && v.node == EXTRACT) && g.nodes[v.node].run(v.store).outcome == Advance(FAILED)
  }

  lemma {:induction false} WalkSucceedsAtFailedIff<S>(g: Graph<S>, skipExtract: bool, store: S, node: Node, steps: nat)
    requires steps <= MAX_NODE_TRANSITIONS
    ensures var e, last := Walk(g, skipExtract, store, node, steps), LastVisit(g, skipExtract, store, node, steps);
      e.success && e.status == FAILURE <==>
        node == FAILED || (last.Some? && AdvancesToFailed(g, skipExtract, last.value))
    decreases MAX_NODE_TRANSITIONS - steps
  {
    if node != DONE && node != FAILED && steps < MAX_NODE_TRANSITIONS && node in g.nodes {
      var move := Visited(g, skipExtract, store, node);
      if move.GoOn? {
        WalkSucceedsAtFailedIff(g, skipExtract, move.store, move.next, steps + 1);
      }
    }
  }

  /** The last two events of a run: processing.complete and request.finalized. */
  ghost predicate EndsWith<S>(g: Graph<S>, skipExtract: bool, row: Row<S>, success: bool, status: Status) {
    var events := RunEvents(g, skipExtract, row);
    && |events| >= 2
    && events[|events| - 2] == ProcessingComplete(success) && events[|events| - 1] == Finalized(status)
  }

  /**
   A run reports success and is finalised as failed if and only if it stood at FAILED on entry or the last node it
   visited advanced to FAILED; every other failing run reports failure.
   */
  lemma SuccessReportedForAFailedRunIff<S>(g: Graph<S>, skipExtract: bool, row: Row<S>)
    ensures var last := LastVisit(g, skipExtract, row.store, row.currentNode, 0);
      EndsWith(g, skipExtract, row, true, FAILURE) <==>
        row.currentNode == FAILED || (last.Some? && AdvancesToFailed(g, skipExtract, last.value))
  {
    WalkSucceedsAtFailedIff(g, skipExtract, row.store, row.currentNode, 0);
  }

  /** Such a run: whatever node the request stands at, its advancing to FAILED is enough. */
  lemma AdvancingToFailedReportsSuccess<S>(g: Graph<S>, row: Row<S>)
    requires row.currentNode in g.nodes && row.currentNode != DONE && row.currentNode != FAILED
    requires g.nodes[row.currentNode].run(row.store).outcome == Advance(FAILED)
    ensures EndsWith(g, false, row, true, FAILURE) && RunResult(g, false, row).currentNode == FAILED
  {
    assert Visited(g, false, row.store, row.currentNode).next == FAILED;
  }
}
