/**
 Crash recovery of the pipeline. The engine is taken apart into the atomic steps between which a worker
 can die; a crash loses everything but the persisted row, and a recovered run starts over from the
 row's checkpoint. Whatever the schedule of crashes, a run that finally finishes leaves the request
 exactly as one uninterrupted run would have, and once the crashes stop it does finish.
 */
module Recovery {
  import opened Wrappers
  import opened Pipeline

  /** Where a worker stands; everything but the row is lost in a crash. */
  datatype Pc =
    | Idle
    | AtLoop(node: Node, steps: nat)
    | Skipped(steps: nat)
    | Ran(node: Node, steps: nat, outcome: Outcome)
    | Ending(status: Status)
    | Finished

  datatype Machine<S> = Machine(row: Row<S>, skip: bool, pc: Pc)

  // ---------- The atomic steps ----------

  /** A worker picks the request up, for the first time or after a crash or a repeated delivery. */
  ghost predicate Starts<S>(g: Graph<S>, m: Machine<S>, m': Machine<S>) {
    && (m.pc.Idle? || m.pc.Finished?)
    && (m'.skip ==> g.extracted(m.row.store))
    && m'.row == m.row.(status := SetStatus(m.row.status, PARSING))
    && m'.pc == AtLoop(m.row.currentNode, 0)
  }

  function Advanced<S>(g: Graph<S>, m: Machine<S>): Machine<S> {
    var row := m.row;
    match m.pc
    case AtLoop(node, steps) =>
      if node == DONE || node == FAILED then m.(pc := Ending(TerminalStatus(g, row.store, node)))
      else if steps >= MAX_NODE_TRANSITIONS || node !in g.nodes then
        m.(row := row.(currentNode := FAILED), pc := Ending(FAILURE))
      else if m.skip && node == EXTRACT then m.(pc := Skipped(steps + 1))
      else
        var e := g.nodes[node].run(row.store);
        m.(row := row.(store := e.store, currentNode := if e.wrote.Some? then e.wrote.value else row.currentNode),
           pc := Ran(node, steps + 1, e.outcome))
    case Skipped(steps) => m.(row := row.(currentNode := CLASSIFY), pc := AtLoop(CLASSIFY, steps))
    case Ran(node, steps, outcome) =>
      (match outcome
       case Advance(next) => m.(row := row.(currentNode := next), pc := AtLoop(next, steps))
       case Clarify => m.(pc := Ending(NEEDS_CLARIFICATION))
       case CircuitBreakerOpen => m.(pc := Ending(NEEDS_REVIEW))
       case LogicalError => m.(pc := Ending(NEEDS_REVIEW))
       case NodeFailed => m.(row := row.(currentNode := FAILED), pc := Ending(FAILURE))
       case InfraError => m.(row := row.(currentNode := FAILED), pc := Ending(FAILURE)))
    case Ending(status) => m.(row := row.(status := SetStatus(row.status, status)), pc := Finished)
    case _ => m
  }

  /** The worker dies: between two steps, or inside a node, leaving that node's work half done. */
  ghost predicate Crashes<S>(g: Graph<S>, m: Machine<S>, m': Machine<S>) {
    && m'.pc == Idle
    && (m'.row == m.row || TornNode(g, m, m'))
  }

  ghost predicate TornNode<S>(g: Graph<S>, m: Machine<S>, m': Machine<S>) {
    && m.pc.AtLoop? && Advanced(g, m).pc.Ran?
    && m'.row == m.row.(store := m'.row.store)
    && g.nodes[m.pc.node].torn(m.row.store, m'.row.store)
  }

  ghost predicate Next<S>(g: Graph<S>, m: Machine<S>, m': Machine<S>) {
    Starts(g, m, m') || m' == Advanced(g, m) || Crashes(g, m, m')
  }

  ghost predicate IsSchedule<S>(g: Graph<S>, row: Row<S>, run: seq<Machine<S>>) {
    && run != [] && run[0].row == row && run[0].pc == Idle
    && (forall i :: 0 <= i < |run| - 1 ==> Next(g, run[i], run[i + 1]))
  }

  // ---------- What the nodes must be for recovery to work ----------

  /** Running a node again, on its finished or on its half-done work, has the effect of running it once. */
  ghost predicate Rerunnable<S(!new)>(node: NodeImpl<S>) {
    && (forall s :: node.run(node.run(s).store) == node.run(s))
    && (forall s, t :: node.torn(s, t) ==> node.run(t) == node.run(s))
  }

  /** Once there is a valid extraction the extract node does nothing but advance, and no node takes it away. */
  ghost predicate SkipIsSound<S(!new)>(g: Graph<S>) {
    && (forall s :: g.extracted(s) && EXTRACT in g.nodes ==>
          g.nodes[EXTRACT].run(s) == Effect(s, Advance(CLASSIFY), None))
    && (forall s, n :: g.extracted(s) && n in g.nodes ==> g.extracted(g.nodes[n].run(s).store))
    && (forall s, t, n :: g.extracted(s) && n in g.nodes && g.nodes[n].torn(s, t) ==> g.extracted(t))
  }

  ghost predicate Recoverable<S(!new)>(g: Graph<S>) {
    WritesOwnNext(g) && SkipIsSound(g) && forall n :: n in g.nodes ==> Rerunnable(g.nodes[n])
  }

  // ---------- Where an uninterrupted run gets to, with the transitions it has left ----------

  datatype Final<S> = Final(store: S, node: Node, status: Status)

  /** None: the run would still be going after `fuel` more transitions. */
  function Reach<S>(g: Graph<S>, store: S, node: Node, fuel: nat): Option<Final<S>>
    decreases fuel, node
  {
    if node == DONE || node == FAILED then Some(Final(store, node, TerminalStatus(g, store, node)))
    else if fuel == 0 then None
    else if node !in g.nodes then Some(Final(store, FAILED, FAILURE))
    else
      match Visited(g, false, store, node)
      case GoOn(after, next, _) => Reach(g, after, next, fuel - 1)
      case Stop(after, last, status, _) => Some(Final(after, last, status))
  }

  ghost predicate Reaches<S>(g: Graph<S>, store: S, node: Node, fuel: nat, f: Final<S>) {
    Reach(g, store, node, fuel) == Some(f)
  }

  lemma {:induction false} MoreFuelSameEnd<S>(g: Graph<S>, store: S, node: Node, fuel: nat, more: nat, f: Final<S>)
    requires fuel <= more && Reaches(g, store, node, fuel, f)
    ensures Reaches(g, store, node, more, f)
    decreases fuel
  {
    if node != DONE && node != FAILED && node in g.nodes {
      var move := Visited(g, false, store, node);
      if move.GoOn? {
        MoreFuelSameEnd(g, move.store, move.next, fuel - 1, more - 1, f);
      }
    }
  }

  /** The uninterrupted run ends where Reach says, with or without skipping a sound extraction. */
  lemma {:induction false} WalkReaches<S(!new)>(g: Graph<S>, skip: bool, store: S, node: Node, steps: nat, f: Final<S>)
    requires Recoverable(g) && steps <= MAX_NODE_TRANSITIONS && (skip ==> g.extracted(store))
    requires Reaches(g, store, node, MAX_NODE_TRANSITIONS - steps, f)
    ensures var e := Walk(g, skip, store, node, steps); Final(e.store, e.node, e.status) == f
    decreases MAX_NODE_TRANSITIONS - steps
  {
    if node != DONE && node != FAILED && node in g.nodes {
      var move := Visited(g, skip, store, node);
      assert move.store == Visited(g, false, store, node).store;
      if move.GoOn? {
        WalkReaches(g, skip, move.store, move.next, steps + 1, f);
      }
    }
  }

  // ---------- The invariant of every schedule ----------

  /** Whatever happens next, the persisted row leads to f, and so does the worker's own position. */
  ghost predicate LeadsTo<S>(g: Graph<S>, m: Machine<S>, f: Final<S>) {
    && Reaches(g, m.row.store, m.row.currentNode, MAX_NODE_TRANSITIONS, f)
    && (m.skip && !m.pc.Idle? && !m.pc.Finished? ==> g.extracted(m.row.store))
    && match m.pc
       case Idle => true
       case AtLoop(node, steps) =>
         node == m.row.currentNode && steps <= MAX_NODE_TRANSITIONS
         && Reaches(g, m.row.store, node, MAX_NODE_TRANSITIONS - steps, f)
       case Skipped(steps) =>
         steps <= MAX_NODE_TRANSITIONS && Reaches(g, m.row.store, CLASSIFY, MAX_NODE_TRANSITIONS - steps, f)
       case Ran(node, steps, outcome) =>
         (match outcome
          case Advance(next) => steps <= MAX_NODE_TRANSITIONS &&
            Reaches(g, m.row.store, next, MAX_NODE_TRANSITIONS - steps, f)
          case Clarify => f == Final(m.row.store, m.row.currentNode, NEEDS_CLARIFICATION)
          case CircuitBreakerOpen => f == Final(m.row.store, m.row.currentNode, NEEDS_REVIEW)
          case LogicalError => f == Final(m.row.store, m.row.currentNode, NEEDS_REVIEW)
          case NodeFailed => f == Final(m.row.store, FAILED, FAILURE)
          case InfraError => f == Final(m.row.store, FAILED, FAILURE))
       case Ending(status) => f == Final(m.row.store, m.row.currentNode, status)
       case Finished => f == Final(m.row.store, m.row.currentNode, f.status)
  }

  lemma RunningKeepsReach<S(!new)>(g: Graph<S>, store: S, node: Node, fuel: nat, f: Final<S>)
    requires Recoverable(g) && node in g.nodes && node != DONE && node != FAILED
    requires 0 < fuel <= MAX_NODE_TRANSITIONS && Reaches(g, store, node, fuel, f)
    ensures var e := g.nodes[node].run(store);
      && Reaches(g, e.store, Persisted(node, e), MAX_NODE_TRANSITIONS, f)
      && (e.outcome.Advance? ==> Reaches(g, e.store, e.outcome.next, fuel - 1, f))
  {
    var e := g.nodes[node].run(store);
    assert g.nodes[node].run(e.store) == e;
    if e.outcome.Advance? {
      MoreFuelSameEnd(g, e.store, e.outcome.next, fuel - 1, MAX_NODE_TRANSITIONS - 1, f);
      MoreFuelSameEnd(g, e.store, e.outcome.next, fuel - 1, MAX_NODE_TRANSITIONS, f);
    }
  }

  lemma EnteringKeeps<S(!new)>(g: Graph<S>, m: Machine<S>, f: Final<S>)
    requires Recoverable(g) && LeadsTo(g, m, f) && m.pc.AtLoop?
    ensures LeadsTo(g, Advanced(g, m), f)
  {
    var node, steps := m.pc.node, m.pc.steps;
    if node != DONE && node != FAILED && steps < MAX_NODE_TRANSITIONS && node in g.nodes {
      RunningKeepsReach(g, m.row.store, node, MAX_NODE_TRANSITIONS - steps, f);
    }
  }

  lemma AdvancingKeeps<S(!new)>(g: Graph<S>, m: Machine<S>, f: Final<S>)
    requires Recoverable(g) && LeadsTo(g, m, f)
    ensures LeadsTo(g, Advanced(g, m), f)
  {
    var row := m.row;
    match m.pc
    case AtLoop(_, _) => EnteringKeeps(g, m, f);
    case Skipped(steps) =>
      MoreFuelSameEnd(g, row.store, CLASSIFY, MAX_NODE_TRANSITIONS - steps, MAX_NODE_TRANSITIONS, f);
    case Ran(node, steps, outcome) =>
      if outcome.Advance? {
        MoreFuelSameEnd(g, row.store, outcome.next, MAX_NODE_TRANSITIONS - steps, MAX_NODE_TRANSITIONS, f);
      }
    case _ =>
  }

  lemma CrashingKeeps<S(!new)>(g: Graph<S>, m: Machine<S>, m': Machine<S>, f: Final<S>)
    requires Recoverable(g) && LeadsTo(g, m, f) && Crashes(g, m, m')
    ensures LeadsTo(g, m', f)
  {
    if m'.row != m.row {
      var node := m.pc.node;
      assert g.nodes[node].run(m'.row.store) == g.nodes[node].run(m.row.store);
      assert Visited(g, false, m'.row.store, node) == Visited(g, false, m.row.store, node);
    }
  }

  ghost predicate StatusKept<S>(row0: Row<S>, m: Machine<S>, f: Final<S>) {
    && (IsTerminal(row0.status) ==> m.row.status == row0.status)
    && (!IsTerminal(row0.status) ==> !IsTerminal(m.row.status))
    && (m.pc.Finished? && !IsTerminal(row0.status) ==> m.row.status == f.status)
    && (m.pc.Ending? ==> m.pc.status == f.status && !IsTerminal(f.status))
  }

  lemma NextKeeps<S(!new)>(g: Graph<S>, row0: Row<S>, m: Machine<S>, m': Machine<S>, f: Final<S>)
    requires Recoverable(g) && Next(g, m, m') && !IsTerminal(f.status)
    requires LeadsTo(g, m, f) && StatusKept(row0, m, f)
    ensures LeadsTo(g, m', f) && StatusKept(row0, m', f)
  {
    if m' == Advanced(g, m) {
      AdvancingKeeps(g, m, f);
    } else if Crashes(g, m, m') {
      CrashingKeeps(g, m, m', f);
    }
  }

  lemma {:induction false} ScheduleLeadsTo<S(!new)>(g: Graph<S>, row: Row<S>, run: seq<Machine<S>>, f: Final<S>)
    requires Recoverable(g) && IsSchedule(g, row, run)
    requires Reaches(g, row.store, row.currentNode, MAX_NODE_TRANSITIONS, f) && !IsTerminal(f.status)
    ensures LeadsTo(g, run[|run| - 1], f) && StatusKept(row, run[|run| - 1], f)
    decreases |run|
  {
    var last := |run| - 1;
    if last > 0 {
      var before := run[..last];
      assert forall i :: 0 <= i < last ==> before[i] == run[i];
      ScheduleLeadsTo(g, row, before, f);
      assert Next(g, run[last - 1], run[last - 1 + 1]);
      NextKeeps(g, row, run[last - 1], run[last], f);
    }
  }

  /**
   Crash recovery is transparent: when the uninterrupted run needs at most 50 transitions, every schedule
   of starts, steps, crashes and repeated deliveries that finishes leaves store, checkpoint and status
   as the uninterrupted run does.
   */
  lemma RecoveryIsTransparent<S(!new)>(g: Graph<S>, row: Row<S>, run: seq<Machine<S>>, skip: bool)
    requires Recoverable(g) && (skip ==> g.extracted(row.store))
    requires Reach(g, row.store, row.currentNode, MAX_NODE_TRANSITIONS).Some?
    requires IsSchedule(g, row, run) && run[|run| - 1].pc.Finished?
    ensures run[|run| - 1].row == RunResult(g, skip, row)
  {
    var f := Reach(g, row.store, row.currentNode, MAX_NODE_TRANSITIONS).value;
    WalkReaches(g, skip, row.store, row.currentNode, 0, f);
    WalkStatus(g, skip, row.store, row.currentNode, 0);
    ScheduleLeadsTo(g, row, run, f);
  }

  // ---------- Progress ----------

  /** A step without a crash: a waiting request is picked up, a running one moves on. */
  ghost predicate Resumes<S>(g: Graph<S>, m: Machine<S>, m': Machine<S>) {
    if m.pc.Idle? then Starts(g, m, m') else m' == Advanced(g, m)
  }

  ghost predicate IsCrashFree<S>(g: Graph<S>, run: seq<Machine<S>>) {
    run != [] && forall i :: 0 <= i < |run| - 1 ==> Resumes(g, run[i], run[i + 1])
  }

  const LONGEST_FINISH := 2 * MAX_NODE_TRANSITIONS + 3

  function Visits(steps: nat): nat {
    if steps < MAX_NODE_TRANSITIONS then MAX_NODE_TRANSITIONS - steps else 0
  }

  /** The steps a machine is away from the end of its run, at most. */
  function Left<S>(m: Machine<S>): (n: nat)
    ensures n <= LONGEST_FINISH
    ensures n == 0 <==> m.pc.Finished?
  {
    match m.pc
    case Idle => LONGEST_FINISH
    case AtLoop(_, steps) => 2 * Visits(steps) + 2
    case Skipped(steps) => 2 * Visits(steps) + 3
    case Ran(_, steps, _) => 2 * Visits(steps) + 3
    case Ending(_) => 1
    case Finished => 0
  }

  lemma ResumingIsProgress<S>(g: Graph<S>, m: Machine<S>, m': Machine<S>)
    requires Resumes(g, m, m') && !m.pc.Finished?
    ensures Left(m') < Left(m)
  {
  }

  lemma {:induction false} CrashFreeFinishes<S>(g: Graph<S>, run: seq<Machine<S>>)
    requires IsCrashFree(g, run) && |run| > Left(run[0])
    ensures run[|run| - 1].pc.Finished?
    decreases |run|
  {
    if |run| > 1 {
      assert Resumes(g, run[0], run[0 + 1]);
      var rest := run[1..];
      forall i | 0 <= i < |rest| - 1
        ensures Resumes(g, rest[i], rest[i + 1])
      {
        assert Resumes(g, run[i + 1], run[i + 1 + 1]);
      }
      if run[0].pc.Finished? {
        assert Left(rest[0]) == 0;
      } else {
        ResumingIsProgress(g, run[0], run[1]);
      }
      CrashFreeFinishes(g, rest);
    }
  }

  function PickedUp<S>(m: Machine<S>): Machine<S> {
    m.(row := m.row.(status := SetStatus(m.row.status, PARSING)), skip := false, pc := AtLoop(m.row.currentNode, 0))
  }

  /** k crash-free steps from m on. */
  function Onward<S>(g: Graph<S>, m: Machine<S>, k: nat): seq<Machine<S>>
    decreases k
  {
    if k == 0 then [m] else [m] + Onward(g, if m.pc.Idle? then PickedUp(m) else Advanced(g, m), k - 1)
  }

  lemma {:induction false} OnwardIsCrashFree<S>(g: Graph<S>, m: Machine<S>, k: nat)
    ensures |Onward(g, m, k)| == k + 1 && Onward(g, m, k)[0] == m && IsCrashFree(g, Onward(g, m, k))
    decreases k
  {
    if k > 0 {
      var next := if m.pc.Idle? then PickedUp(m) else Advanced(g, m);
      OnwardIsCrashFree(g, next, k - 1);
      var run := Onward(g, m, k);
      assert run[1..] == Onward(g, next, k - 1);
      forall i | 0 <= i < |run| - 1
        ensures Resumes(g, run[i], run[i + 1])
      {
        if i > 0 {
          assert Resumes(g, run[1..][i - 1], run[1..][i - 1 + 1]);
        }
      }
    }
  }

  /**
   Recovery makes progress: from wherever crashes have left a schedule, at most 103 steps without a crash finish
   it, and what they leave is the row of the uninterrupted run.
   */
  lemma RecoveryFinishes<S(!new)>(g: Graph<S>, row: Row<S>, run: seq<Machine<S>>, rest: seq<Machine<S>>)
    requires Recoverable(g) && Reach(g, row.store, row.currentNode, MAX_NODE_TRANSITIONS).Some?
    requires IsSchedule(g, row, run) && IsCrashFree(g, [run[|run| - 1]] + rest) && |rest| >= LONGEST_FINISH
    ensures (run + rest)[|run + rest| - 1].pc.Finished?
    ensures (run + rest)[|run + rest| - 1].row == RunResult(g, false, row)
  {
    var onward, whole := [run[|run| - 1]] + rest, run + rest;
    CrashFreeFinishes(g, onward);
    forall i | 0 <= i < |whole| - 1
      ensures Next(g, whole[i], whole[i + 1])
    {
      if i < |run| - 1 {
        assert Next(g, run[i], run[i + 1]);
      } else {
        var j := i - (|run| - 1);
        assert whole[i] == onward[j] && whole[i + 1] == onward[j + 1];
        assert Resumes(g, onward[j], onward[j + 1]);
      }
    }
    assert onward[|onward| - 1] == whole[|whole| - 1];
    RecoveryIsTransparent(g, row, whole, false);
  }

  /** The steps to the end are always there to take. */
  lemma FinishIsReachable<S(!new)>(g: Graph<S>, m: Machine<S>) returns (rest: seq<Machine<S>>)
    ensures |rest| == LONGEST_FINISH && IsCrashFree(g, [m] + rest) && rest[|rest| - 1].pc.Finished?
  {
    OnwardIsCrashFree(g, m, LONGEST_FINISH);
    var onward := Onward(g, m, LONGEST_FINISH);
    rest := onward[1..];
    assert [m] + rest == onward;
    CrashFreeFinishes(g, onward);
  }
}
