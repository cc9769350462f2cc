/**
 The policy node's flag reconciliation: every line of the request loses the flags this node owns and
 gets back the ones this run found, and a line whose flags would not change is not written at all.
 */
module PolicyFlags {
  import opened InsertionOrder
  import Pipeline
  import opened PolicyGate
  import Recovery
  import Wrappers

  const MARGIN_FLOOR_BREACH_FLAG := "margin_floor_breach"
  const MAX_DISCOUNT_BREACH_FLAG := "max_discount_breach"
  const POLICY_BLOCKED_FLAG := "policy_blocked"

  datatype Line = Line(id: string, flags: seq<string>)

  predicate IsManaged(flag: string) {
    flag == MARGIN_FLOOR_BREACH_FLAG || flag == MAX_DISCOUNT_BREACH_FLAG || flag == POLICY_BLOCKED_FLAG
  }

  function FlagOf(kind: BreachType): string {
    match kind
    case FloorBreach => MARGIN_FLOOR_BREACH_FLAG
    case DiscountBreach => MAX_DISCOUNT_BREACH_FLAG
  }

  function Unmanaged(flags: seq<string>): seq<string> {
    if flags == [] then []
    else if IsManaged(flags[0]) then Unmanaged(flags[1..]) else [flags[0]] + Unmanaged(flags[1..])
  }

  function BlockFlags(flagged: seq<string>, id: string): seq<string> {
    if flagged == [] then []
    else
      var last := |flagged| - 1;
      BlockFlags(flagged[..last], id) + if flagged[last] == id then [POLICY_BLOCKED_FLAG] else []
  }

  function BreachFlags(breaches: seq<Breach>, id: string): seq<string> {
    if breaches == [] then []
    else
      var last := |breaches| - 1;
      BreachFlags(breaches[..last], id) + if breaches[last].lineItemId == id then [FlagOf(breaches[last].kind)] else []
  }

  /** The ids the run blocks, none unless it fails closed. */
  function Blocked(e: Evaluation): seq<string> {
    if e.failClosed then e.flagged else []
  }

  /** The flags found for a line, in the order they are added. */
  function Findings(blocked: seq<string>, breaches: seq<Breach>, id: string): seq<string> {
    BlockFlags(blocked, id) + BreachFlags(breaches, id)
  }

  function FlagsAfter(line: Line, e: Evaluation): seq<string> {
    Distinct(Unmanaged(line.flags) + Findings(Blocked(e), e.breaches, line.id))
  }

  predicate SameFlags(before: seq<string>, after: seq<string>) {
    |before| == |after| && forall f :: f in after ==> f in before
  }

  function Reconciled(line: Line, e: Evaluation): Line {
    if SameFlags(line.flags, FlagsAfter(line, e)) then line else line.(flags := FlagsAfter(line, e))
  }

  function ReconciledAll(lines: seq<Line>, e: Evaluation): seq<Line> {
    seq(|lines|, i requires 0 <= i < |lines| => Reconciled(lines[i], e))
  }

  function Changes(lines: seq<Line>, e: Evaluation): nat {
    if lines == [] then 0
    else
      var last := |lines| - 1;
      Changes(lines[..last], e) + if SameFlags(lines[last].flags, FlagsAfter(lines[last], e)) then 0 else 1
  }

  ghost predicate UniqueIds(lines: seq<Line>) {
    forall i, j :: 0 <= i < j < |lines| ==> lines[i].id != lines[j].id
  }

  /** Each line's entry in the map is its kept flags plus what was found so far. */
  ghost predicate Holds(flagsByLine: map<string, seq<string>>, lines: seq<Line>, blocked: seq<string>,
      breaches: seq<Breach>) {
    forall l :: l in lines ==>
      && l.id in flagsByLine
      && flagsByLine[l.id] == Distinct(Unmanaged(l.flags) + Findings(blocked, breaches, l.id))
  }

  lemma OneMoreBlock(flags: seq<string>, blocked: seq<string>, flagged: string, id: string)
    ensures Distinct(flags + Findings(blocked + [flagged], [], id)) ==
      var sofar := Distinct(flags + Findings(blocked, [], id));
      if flagged == id then Include(sofar, POLICY_BLOCKED_FLAG) else sofar
  {
    assert (blocked + [flagged])[..|blocked|] == blocked;
    assert Findings(blocked, [], id) == BlockFlags(blocked, id);
    assert Findings(blocked + [flagged], [], id) == BlockFlags(blocked + [flagged], id);
    DistinctAppend(flags + BlockFlags(blocked, id), POLICY_BLOCKED_FLAG);
    assert flags + (BlockFlags(blocked, id) + [POLICY_BLOCKED_FLAG]) ==
      flags + BlockFlags(blocked, id) + [POLICY_BLOCKED_FLAG];
    assert BlockFlags(blocked, id) + [] == BlockFlags(blocked, id);
  }

  lemma OneMoreBreach(flags: seq<string>, blocked: seq<string>, breaches: seq<Breach>, b: Breach, id: string)
    ensures Distinct(flags + Findings(blocked, breaches + [b], id)) ==
      var sofar := Distinct(flags + Findings(blocked, breaches, id));
      if b.lineItemId == id then Include(sofar, FlagOf(b.kind)) else sofar
  {
    assert (breaches + [b])[..|breaches|] == breaches;
    var sofar, flag := Findings(blocked, breaches, id), FlagOf(b.kind);
    DistinctAppend(flags + sofar, flag);
    if b.lineItemId == id {
      assert Findings(blocked, breaches + [b], id) == sofar + [flag];
      assert flags + (sofar + [flag]) == flags + sofar + [flag];
    } else {
      assert Findings(blocked, breaches + [b], id) == sofar;
    }
  }

  class LineTable {
    var lines: seq<Line>
    var writes: nat

    constructor (lines: seq<Line>)
      ensures this.lines == lines && writes == 0
    {
      this.lines, writes := lines, 0;
    }

    /** The flag sets in memory, before anything is written. */
    method FlagsByLine(e: Evaluation) returns (flagsByLine: map<string, seq<string>>)
      requires UniqueIds(lines)
      ensures Holds(flagsByLine, lines, Blocked(e), e.breaches)
    {
      flagsByLine := KeptFlags();
      if e.failClosed {
        for i := 0 to |e.flagged|
          invariant Holds(flagsByLine, lines, e.flagged[..i], [])
        {
          forall l | l in lines {
            OneMoreBlock(Unmanaged(l.flags), e.flagged[..i], e.flagged[i], l.id);
          }
          assert e.flagged[..i + 1] == e.flagged[..i] + [e.flagged[i]];
          flagsByLine := Add(flagsByLine, e.flagged[i], POLICY_BLOCKED_FLAG);
        }
        assert e.flagged[..|e.flagged|] == e.flagged;
      }
      flagsByLine := AddBreaches(flagsByLine, Blocked(e), e.breaches);
    }

    method KeptFlags() returns (flagsByLine: map<string, seq<string>>)
      requires UniqueIds(lines)
      ensures Holds(flagsByLine, lines, [], [])
    {
      flagsByLine := map[];
      for i := 0 to |lines|
        invariant Holds(flagsByLine, lines[..i], [], [])
      {
        assert Unmanaged(lines[i].flags) + Findings([], [], lines[i].id) == Unmanaged(lines[i].flags);
        flagsByLine := flagsByLine[lines[i].id := Distinct(Unmanaged(lines[i].flags))];
      }
      assert lines[..|lines|] == lines;
    }

    method AddBreaches(start: map<string, seq<string>>, ghost blocked: seq<string>, breaches: seq<Breach>)
      returns (flagsByLine: map<string, seq<string>>)
      requires Holds(start, lines, blocked, [])
      ensures Holds(flagsByLine, lines, blocked, breaches)
    {
      flagsByLine := start;
      for i := 0 to |breaches|
        invariant Holds(flagsByLine, lines, blocked, breaches[..i])
      {
        forall l | l in lines {
          OneMoreBreach(Unmanaged(l.flags), blocked, breaches[..i], breaches[i], l.id);
        }
        assert breaches[..i + 1] == breaches[..i] + [breaches[i]];
        flagsByLine := Add(flagsByLine, breaches[i].lineItemId, FlagOf(breaches[i].kind));
      }
      assert breaches[..|breaches|] == breaches;
    }

    /** flagsByLine.get(id)?.add(flag): an unknown id is ignored. */
    function Add(flagsByLine: map<string, seq<string>>, id: string, flag: string): map<string, seq<string>> {
      if id in flagsByLine then flagsByLine[id := Include(flagsByLine[id], flag)] else flagsByLine
    }

    /** Writes exactly the lines whose flags change. */
    method PersistFlags(e: Evaluation)
      requires UniqueIds(lines)
      modifies this
      ensures lines == ReconciledAll(old(lines), e)
      ensures writes == old(writes) + Changes(old(lines), e)
    {
      var flagsByLine := FlagsByLine(e);
      for i := 0 to |lines|
        invariant |lines| == |old(lines)|
        invariant forall j :: 0 <= j < i ==> lines[j] == Reconciled(old(lines)[j], e)
        invariant forall j :: i <= j < |lines| ==> lines[j] == old(lines)[j]
        invariant writes == old(writes) + Changes(old(lines)[..i], e)
      {
        var li := lines[i];
        assert li in old(lines);
        var after := flagsByLine[li.id];
        if !SameFlags(li.flags, after) {
          lines := lines[i := li.(flags := after)];
          writes := writes + 1;
        }
        assert old(lines)[..i + 1][..i] == old(lines)[..i];
      }
      assert old(lines)[..|lines|] == old(lines);
    }
  }

  // ---------- What is left on the lines ----------

  lemma {:induction false} UnmanagedMembers(flags: seq<string>, f: string)
    ensures f in Unmanaged(flags) <==> f in flags && !IsManaged(f)
  {
    if flags != [] {
      UnmanagedMembers(flags[1..], f);
      assert flags == [flags[0]] + flags[1..];
    }
  }

  lemma {:induction false} BlockFlagsMembers(flagged: seq<string>, id: string, f: string)
    ensures f in BlockFlags(flagged, id) <==> f == POLICY_BLOCKED_FLAG && id in flagged
  {
    if flagged != [] {
      var last := |flagged| - 1;
      assert flagged == flagged[..last] + [flagged[last]];
      BlockFlagsMembers(flagged[..last], id, f);
    }
  }

  lemma {:induction false} BreachFlagsMembers(breaches: seq<Breach>, id: string, f: string)
    ensures f in BreachFlags(breaches, id) <==> exists b :: b in breaches && b.lineItemId == id && FlagOf(b.kind) == f
  {
    if breaches != [] {
      var last := |breaches| - 1;
      assert breaches == breaches[..last] + [breaches[last]];
      BreachFlagsMembers(breaches[..last], id, f);
    }
  }

  /** The flags this run puts on a line: blocked when failing closed, and one per kind of breach found on it. */
  ghost predicate Earned(e: Evaluation, id: string, f: string) {
    || (f == POLICY_BLOCKED_FLAG && e.failClosed && id in e.flagged)
    || (exists b :: b in e.breaches && b.lineItemId == id && FlagOf(b.kind) == f)
  }

  /**
   The "skip the write" test is exact: a list passes it if and only if it has no duplicates and the same
   elements. Comparing lengths and one inclusion suffices because the new list has no duplicates.
   */
  lemma SameFlagsIsExact(before: seq<string>, after: seq<string>)
    requires NoDuplicates(after)
    ensures SameFlags(before, after) <==> NoDuplicates(before) && Elements(before) == Elements(after)
  {
    ElementsBound(before);
    ElementsBound(after);
    assert forall f :: f in after <==> f in Elements(after);
    assert forall f :: f in before <==> f in Elements(before);
    if SameFlags(before, after) {
      Pigeonhole(after, before);
    }
  }

  /** Written or skipped, a line ends with its own flags minus the managed ones plus the ones it earned, each once. */
  lemma ReconciledFlagsAreExact(line: Line, e: Evaluation, f: string)
    ensures f in Reconciled(line, e).flags <==> (f in line.flags && !IsManaged(f)) || Earned(e, line.id, f)
    ensures NoDuplicates(Reconciled(line, e).flags)
  {
    var kept, found := Unmanaged(line.flags), Findings(Blocked(e), e.breaches, line.id);
    DistinctKeeps(kept + found);
    SameFlagsIsExact(line.flags, FlagsAfter(line, e));
    assert f in Reconciled(line, e).flags <==> f in FlagsAfter(line, e) by {
      assert f in line.flags <==> f in Elements(line.flags);
      assert f in FlagsAfter(line, e) <==> f in Elements(FlagsAfter(line, e));
    }
    UnmanagedMembers(line.flags, f);
    BlockFlagsMembers(Blocked(e), line.id, f);
    BreachFlagsMembers(e.breaches, line.id, f);
  }

  lemma SecondPassIsSame(line: Line, e: Evaluation)
    ensures SameFlags(Reconciled(line, e).flags, FlagsAfter(Reconciled(line, e), e))
  {
    var first := Reconciled(line, e);
    var again := FlagsAfter(first, e);
    DistinctKeeps(Unmanaged(first.flags) + Findings(Blocked(e), e.breaches, line.id));
    DistinctKeeps(Unmanaged(line.flags) + Findings(Blocked(e), e.breaches, line.id));
    forall f
      ensures f in first.flags <==> f in again
    {
      ReconciledFlagsAreExact(line, e, f);
      UnmanagedMembers(first.flags, f);
      BlockFlagsMembers(Blocked(e), line.id, f);
      BreachFlagsMembers(e.breaches, line.id, f);
      if Earned(e, line.id, f) {
        assert IsManaged(f);
      }
    }
    ReconciledFlagsAreExact(line, e, "");
    SameFlagsIsExact(first.flags, again);
    assert Elements(first.flags) == Elements(again);
  }

  /** Running the reconciliation a second time with the same findings writes nothing. */
  lemma {:induction false} SecondRunWritesNothing(lines: seq<Line>, e: Evaluation)
    ensures Changes(ReconciledAll(lines, e), e) == 0
  {
    if lines != [] {
      var last := |lines| - 1;
      SecondRunWritesNothing(lines[..last], e);
      SecondPassIsSame(lines[last], e);
      assert ReconciledAll(lines, e)[..last] == ReconciledAll(lines[..last], e);
    }
  }

  /** The node's evaluation reads prices, costs and rules, none of which it writes; its writes are one transaction. */
  ghost function AsNode(e: Evaluation): Pipeline.NodeImpl<seq<Line>> {
    Pipeline.NodeImpl(
      lines => Pipeline.Effect(ReconciledAll(lines, e), Pipeline.Advance(Pipeline.SCORE), Wrappers.None),
      (s, t) => t == s)
  }

  /** Re-entering the policy node after a crash leaves the flags one run leaves. */
  lemma PolicyIsRerunnable(e: Evaluation)
    ensures Recovery.Rerunnable(AsNode(e))
  {
    forall lines
      ensures ReconciledAll(ReconciledAll(lines, e), e) == ReconciledAll(lines, e)
    {
      forall i | 0 <= i < |lines|
        ensures Reconciled(Reconciled(lines[i], e), e) == Reconciled(lines[i], e)
      {
        SecondPassIsSame(lines[i], e);
      }
    }
  }

  /** Each managed flag means its own finding, by name, and every other flag of the line is what it was. */
  lemma FlagsNameTheFinding(line: Line, e: Evaluation)
    ensures var after := Reconciled(line, e).flags;
      && ("policy_blocked" in after <==> e.failClosed && line.id in e.flagged)
      && ("margin_floor_breach" in after <==>
            exists b :: b in e.breaches && b.lineItemId == line.id && b.kind == FloorBreach)
      && ("max_discount_breach" in after <==>
            exists b :: b in e.breaches && b.lineItemId == line.id && b.kind == DiscountBreach)
    ensures forall f: string :: f !in ["policy_blocked", "margin_floor_breach", "max_discount_breach"] ==>
      (f in Reconciled(line, e).flags <==> f in line.flags)
  {
    ReconciledFlagsAreExact(line, e, "policy_blocked");
    ReconciledFlagsAreExact(line, e, "margin_floor_breach");
    ReconciledFlagsAreExact(line, e, "max_discount_breach");
    forall f: string | f !in ["policy_blocked", "margin_floor_breach", "max_discount_breach"]
      ensures f in Reconciled(line, e).flags <==> f in line.flags
    {
      ReconciledFlagsAreExact(line, e, f);
    }
  }
}
