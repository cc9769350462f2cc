/**
 The scheduler's priority queue: a binary min-heap kept in one growing array, ordered by score, then
 by scheduled time (a missing time sorts before every time), then by creation time.
 */
module Heap {
  import opened Wrappers

  datatype HeapNode = HeapNode(score: real, scheduledAt: Option<int>, createdAt: int, jobId: string)

  /** The sign of the comparator: the source only ever tests the difference against zero. */
  function CompareNodes(a: HeapNode, b: HeapNode): int {
    if a.score != b.score then Sign(a.score - b.score)
    else if a.scheduledAt != b.scheduledAt then
      match (a.scheduledAt, b.scheduledAt)
      case (None, _) => -1
      case (_, None) => 1
      case (Some(s), Some(t)) => Sign((s - t) as real)
    else Sign((a.createdAt - b.createdAt) as real)
  }

  function Sign(x: real): int {
    if x < 0.0 then -1 else if x > 0.0 then 1 else 0
  }

  ghost predicate Before(a: HeapNode, b: HeapNode) {
    CompareNodes(a, b) <= 0
  }

  /** Before is a total preorder, and "null sorts first" holds against every time, even the epoch. */
  lemma CompareIsTotalPreorder(a: HeapNode, b: HeapNode, c: HeapNode)
    ensures Before(a, b) || Before(b, a)
    ensures CompareNodes(a, b) == -CompareNodes(b, a)
    ensures Before(a, b) && Before(b, c) ==> Before(a, c)
    ensures a.score == b.score && a.scheduledAt.None? && b.scheduledAt.Some? ==> CompareNodes(a, b) < 0
  {
  }

  function Parent(i: int): int
    requires i > 0
  {
    (i - 1) / 2
  }

  ghost predicate IsHeap(h: seq<HeapNode>) {
    forall i :: 0 < i < |h| ==> Before(h[Parent(i)], h[i])
  }

  lemma {:induction false} RootIsMinimum(h: seq<HeapNode>, i: int)
    requires IsHeap(h) && 0 <= i < |h|
    ensures Before(h[0], h[i])
    decreases i
  {
    if i > 0 {
      RootIsMinimum(h, Parent(i));
      CompareIsTotalPreorder(h[0], h[Parent(i)], h[i]);
    }
  }

  lemma RootBeforeAll(h: seq<HeapNode>)
    requires IsHeap(h)
    ensures forall n :: n in h ==> Before(h[0], n)
  {
    forall n | n in h
      ensures Before(h[0], n)
    {
      var i :| 0 <= i < |h| && h[i] == n;
      RootIsMinimum(h, i);
    }
  }

  /** A heap except that the node at k may be smaller than its parent. */
  ghost predicate HeapButUp(h: seq<HeapNode>, k: int) {
    && (forall i :: 0 < i < |h| && i != k ==> Before(h[Parent(i)], h[i]))
    && (forall i :: 0 < i < |h| && Parent(i) == k && k > 0 ==> Before(h[Parent(k)], h[i]))
  }

  /** A heap except that the node at k may be larger than its children. */
  ghost predicate HeapButDown(h: seq<HeapNode>, k: int) {
    && (forall i :: 0 < i < |h| && Parent(i) != k ==> Before(h[Parent(i)], h[i]))
    && (forall i :: 0 < i < |h| && Parent(i) == k && k > 0 ==> Before(h[Parent(k)], h[i]))
  }

  function Swap(h: seq<HeapNode>, i: int, j: int): seq<HeapNode>
    requires 0 <= i < |h| && 0 <= j < |h|
  {
    h[i := h[j]][j := h[i]]
  }

  lemma SwapIsPermutation(h: seq<HeapNode>, i: int, j: int)
    requires 0 <= i < j < |h|
    ensures multiset(Swap(h, i, j)) == multiset(h)
  {
    assert h == h[..i] + [h[i]] + h[i + 1..j] + [h[j]] + h[j + 1..];
    assert Swap(h, i, j) == h[..i] + [h[j]] + h[i + 1..j] + [h[i]] + h[j + 1..];
  }

  lemma SwapUp(h: seq<HeapNode>, k: int)
    requires 0 < k < |h| && HeapButUp(h, k) && !Before(h[Parent(k)], h[k])
    ensures HeapButUp(Swap(h, Parent(k), k), Parent(k))
  {
    var p, r := Parent(k), Swap(h, Parent(k), k);
    forall i | 0 < i < |r| && i != p
      ensures Before(r[Parent(i)], r[i])
    {
      if i == k {
        CompareIsTotalPreorder(h[p], h[k], h[k]);
      } else if Parent(i) == p {
        CompareIsTotalPreorder(h[k], h[p], h[i]);
      }
    }
    forall i | 0 < i < |r| && Parent(i) == p && p > 0
      ensures Before(r[Parent(p)], r[i])
    {
      if i != k {
        CompareIsTotalPreorder(h[Parent(p)], h[p], h[i]);
      }
    }
  }

  lemma SwapDown(h: seq<HeapNode>, k: int, c: int)
    requires 0 <= k < |h| && 0 < c < |h| && Parent(c) == k && HeapButDown(h, k)
    requires CompareNodes(h[c], h[k]) < 0
    requires forall i :: 0 < i < |h| && Parent(i) == k ==> Before(h[c], h[i])
    ensures HeapButDown(Swap(h, k, c), c)
  {
    var r := Swap(h, k, c);
    forall i | 0 < i < |r| && Parent(i) != c
      ensures Before(r[Parent(i)], r[i])
    {
      if Parent(i) == k {
        CompareIsTotalPreorder(h[c], h[k], h[i]);
      } else if i == k {
        assert Before(h[Parent(k)], h[c]);
      }
    }
    forall i | 0 < i < |r| && Parent(i) == c
      ensures Before(r[Parent(c)], r[i])
    {
      assert Before(h[c], h[i]);
    }
  }

  lemma ReplacedRoot(h: seq<HeapNode>)
    requires IsHeap(h) && |h| > 1
    ensures var r := h[..|h| - 1][0 := h[|h| - 1]];
      HeapButDown(r, 0) && multiset(r) + multiset{h[0]} == multiset(h)
  {
    var last := |h| - 1;
    var r := h[..last][0 := h[last]];
    assert forall i :: 0 < i < last ==> r[i] == h[i];
    LastReplacesFirst(h);
  }

  lemma LastReplacesFirst(h: seq<HeapNode>)
    requires |h| > 1
    ensures multiset(h[..|h| - 1][0 := h[|h| - 1]]) + multiset{h[0]} == multiset(h)
  {
    var last := |h| - 1;
    FirstToEnd(h[0], h[1..last], h[last]);
    assert h == [h[0]] + h[1..last] + [h[last]];
    assert h[..last][0 := h[last]] == [h[last]] + h[1..last];
  }

  lemma FirstToEnd(a: HeapNode, mid: seq<HeapNode>, b: HeapNode)
    ensures multiset([b] + mid) + multiset{a} == multiset([a] + mid + [b])
  {
  }

  class HeapPriorityQueue {
    var heap: seq<HeapNode>

    constructor ()
      ensures heap == []
    {
      heap := [];
    }

    method Insert(node: HeapNode)
      requires IsHeap(heap)
      modifies this
      ensures IsHeap(heap)
      ensures multiset(heap) == old(multiset(heap)) + multiset{node}
    {
      heap := heap + [node];
      assert forall i :: 0 < i < |heap| - 1 ==> heap[i] == old(heap)[i];
      BubbleUp(|heap| - 1);
    }

    /** Takes out a minimum, or answers None exactly when there is nothing to take. */
    method PopMin() returns (min: Option<HeapNode>)
      requires IsHeap(heap)
      modifies this
      ensures IsHeap(heap)
      ensures min.None? <==> old(heap) == []
      ensures min.None? ==> heap == []
      ensures min.Some? ==>
        && multiset(heap) + multiset{min.value} == old(multiset(heap))
        && (forall n :: n in old(heap) ==> Before(min.value, n))
    {
      if heap == [] {
        return None;
      }
      RootBeforeAll(heap);
      if |heap| == 1 {
        min := Some(heap[0]);
        assert heap == [heap[0]];
        heap := [];
        return;
      }
      ReplacedRoot(heap);
      min := Some(heap[0]);
      heap := heap[..|heap| - 1][0 := heap[|heap| - 1]];
      BubbleDown(0);
    }

    method Peek() returns (min: Option<HeapNode>)
      requires IsHeap(heap)
      ensures min.None? <==> heap == []
      ensures min.Some? ==> min.value in heap && forall n :: n in heap ==> Before(min.value, n)
    {
      if heap == [] {
        return None;
      }
      RootBeforeAll(heap);
      min := Some(heap[0]);
    }

    method BubbleUp(start: nat)
      requires start < |heap| && HeapButUp(heap, start)
      modifies this
      ensures IsHeap(heap) && multiset(heap) == old(multiset(heap))
    {
      var index := start;
      while index > 0
        invariant 0 <= index < |heap| && HeapButUp(heap, index)
        invariant multiset(heap) == old(multiset(heap))
      {
        var parent := Parent(index);
        if CompareNodes(heap[parent], heap[index]) <= 0 {
          break;
        }
        SwapUp(heap, index);
        SwapIsPermutation(heap, parent, index);
        heap := Swap(heap, parent, index);
        index := parent;
      }
    }

    method BubbleDown(start: nat)
      requires start < |heap| && HeapButDown(heap, start)
      modifies this
      ensures IsHeap(heap) && multiset(heap) == old(multiset(heap))
    {
      var index, size := start, |heap|;
      while true
        invariant 0 <= index < |heap| == size && HeapButDown(heap, index)
        invariant multiset(heap) == old(multiset(heap))
        decreases size - index
      {
        var smallest := index;
        var left, right := 2 * index + 1, 2 * index + 2;
        if left < size && CompareNodes(heap[left], heap[smallest]) < 0 {
          smallest := left;
        }
        if right < size && CompareNodes(heap[right], heap[smallest]) < 0 {
          smallest := right;
        }
        forall i | 0 < i < size && Parent(i) == index
          ensures Before(heap[smallest], heap[i])
        {
          assert i == left || i == right;
          CompareIsTotalPreorder(heap[smallest], heap[left], heap[index]);
          CompareIsTotalPreorder(heap[i], heap[smallest], heap[i]);
          if right < size {
            CompareIsTotalPreorder(heap[right], heap[left], heap[index]);
          }
        }
        if smallest == index {
          break;
        }
        assert CompareNodes(heap[smallest], heap[index]) < 0 by {
          CompareIsTotalPreorder(heap[smallest], heap[left], heap[index]);
        }
        SwapDown(heap, index, smallest);
        SwapIsPermutation(heap, index, smallest);
        heap := Swap(heap, index, smallest);
        index := smallest;
      }
    }
  }

  ghost predicate Ascending(s: seq<HeapNode>) {
    forall i, j :: 0 <= i < j < |s| ==> Before(s[i], s[j])
  }

  // ---------- Any sequence of operations ----------

  datatype Op = InsertOp(node: HeapNode) | PopOp

  ghost function Inserted(ops: seq<Op>): multiset<HeapNode> {
    if ops == [] then multiset{} else Inserted(ops[..|ops| - 1]) + InsertedBy(ops[|ops| - 1])
  }

  ghost function InsertedBy(op: Op): multiset<HeapNode> {
    if op.InsertOp? then multiset{op.node} else multiset{}
  }

  ghost function Popped(results: seq<Option<HeapNode>>): multiset<HeapNode> {
    if results == [] then multiset{} else Popped(results[..|results| - 1]) + Answered(results[|results| - 1])
  }

  ghost function Answered(result: Option<HeapNode>): multiset<HeapNode> {
    if result.Some? then multiset{result.value} else multiset{}
  }

  /** What was inserted before the n-th operation and not popped before it. */
  ghost function Held(ops: seq<Op>, results: seq<Option<HeapNode>>, n: nat): multiset<HeapNode>
    requires n <= |ops| && n <= |results|
  {
    Inserted(ops[..n]) - Popped(results[..n])
  }

  /** Nothing exactly when nothing is held, and otherwise one of the held nodes that precedes all of them. */
  ghost predicate IsMinimum(result: Option<HeapNode>, held: multiset<HeapNode>) {
    && (result.None? <==> held == multiset{})
    && (result.Some? ==> result.value in held && forall m :: m in held ==> Before(result.value, m))
  }

  lemma TakenAway(held: multiset<HeapNode>, popped: multiset<HeapNode>, inserted: multiset<HeapNode>)
    requires held + popped == inserted
    ensures inserted - popped == held
  {
  }

  lemma InsertedNext(ops: seq<Op>, n: nat)
    requires n < |ops|
    ensures Inserted(ops[..n + 1]) == Inserted(ops[..n]) + InsertedBy(ops[n])
  {
    assert ops[..n + 1][..n] == ops[..n];
  }

  lemma PoppedNext(results: seq<Option<HeapNode>>, result: Option<HeapNode>)
    ensures Popped(results + [result]) == Popped(results) + Answered(result)
  {
    assert (results + [result])[..|results|] == results;
  }

  method Operate(queue: HeapPriorityQueue, op: Op) returns (result: Option<HeapNode>)
    requires IsHeap(queue.heap)
    modifies queue
    ensures IsHeap(queue.heap)
    ensures multiset(queue.heap) + Answered(result) == old(multiset(queue.heap)) + InsertedBy(op)
    ensures op.InsertOp? ==> result == None
    ensures op.PopOp? ==> IsMinimum(result, old(multiset(queue.heap)))
  {
    ghost var before := queue.heap;
    assert forall m :: m in before <==> m in multiset(before);
    result := None;
    match op {
      case InsertOp(node) => queue.Insert(node);
      case PopOp =>
        result := queue.PopMin();
        assert result.None? <==> before == [];
        assert |before| == |multiset(before)|;
        if result.Some? {
          assert result.value in multiset(queue.heap) + multiset{result.value};
        }
    }
  }

  lemma Balanced(
    before: multiset<HeapNode>, after: multiset<HeapNode>, popped: multiset<HeapNode>, answered: multiset<HeapNode>,
    inserted: multiset<HeapNode>, added: multiset<HeapNode>)
    requires before + popped == inserted && after + answered == before + added
    ensures after + (popped + answered) == inserted + added
  {
    assert after + (popped + answered) == (after + answered) + popped;
    assert (before + added) + popped == (before + popped) + added;
  }

  /** Every pop so far answered a minimum of what was held. */
  ghost predicate AllMinima(ops: seq<Op>, results: seq<Option<HeapNode>>) {
    && |results| <= |ops|
    && forall n :: 0 <= n < |results| && ops[n].PopOp? ==> IsMinimum(results[n], Held(ops, results, n))
  }

  lemma OneMoreMinimum(ops: seq<Op>, results: seq<Option<HeapNode>>, result: Option<HeapNode>)
    requires AllMinima(ops, results) && |results| < |ops|
    requires ops[|results|].PopOp? ==> IsMinimum(result, Held(ops, results, |results|))
    ensures AllMinima(ops, results + [result])
  {
    assert forall i :: 0 <= i <= |results| ==> (results + [result])[..i] == results[..i];
  }

  lemma HeldInTheQueue(ops: seq<Op>, results: seq<Option<HeapNode>>, held: multiset<HeapNode>)
    requires |results| < |ops| && held + Popped(results) == Inserted(ops[..|results|])
    ensures Held(ops, results, |results|) == held
  {
    assert results[..|results|] == results;
    TakenAway(held, Popped(results), Inserted(ops[..|results|]));
  }

  lemma NextBalance(
    ops: seq<Op>, results: seq<Option<HeapNode>>, result: Option<HeapNode>, before: multiset<HeapNode>,
    after: multiset<HeapNode>)
    requires |results| < |ops| && before + Popped(results) == Inserted(ops[..|results|])
    requires after + Answered(result) == before + InsertedBy(ops[|results|])
    ensures after + Popped(results + [result]) == Inserted(ops[..|results| + 1])
  {
    InsertedNext(ops, |results|);
    PoppedNext(results, result);
    Balanced(before, after, Popped(results), Answered(result), Inserted(ops[..|results|]), InsertedBy(ops[|results|]));
  }

  method OperateNext(queue: HeapPriorityQueue, ops: seq<Op>, results: seq<Option<HeapNode>>)
    returns (result: Option<HeapNode>)
    requires IsHeap(queue.heap) && |results| < |ops|
    requires multiset(queue.heap) + Popped(results) == Inserted(ops[..|results|])
    modifies queue
    ensures IsHeap(queue.heap)
    ensures multiset(queue.heap) + Popped(results + [result]) == Inserted(ops[..|results| + 1])
    ensures ops[|results|].PopOp? ==> IsMinimum(result, Held(ops, results, |results|))
  {
    ghost var held := multiset(queue.heap);
    HeldInTheQueue(ops, results, held);
    result := Operate(queue, ops[|results|]);
    NextBalance(ops, results, result, held, multiset(queue.heap));
  }

  /**
   Any sequence of inserts and pops on a new queue: every pop answers a minimum of what was inserted and not yet
   popped, and what is left at the end is what was inserted minus what was popped.
   */
  method RunOperations(ops: seq<Op>) returns (results: seq<Option<HeapNode>>, left: seq<HeapNode>)
    ensures |results| == |ops| && AllMinima(ops, results)
    ensures multiset(left) + Popped(results) == Inserted(ops) && IsHeap(left)
  {
    var queue := new HeapPriorityQueue();
    results := [];
    for n := 0 to |ops|
      invariant |results| == n && IsHeap(queue.heap) && AllMinima(ops, results)
      invariant multiset(queue.heap) + Popped(results) == Inserted(ops[..n])
    {
      var result := OperateNext(queue, ops, results);
      OneMoreMinimum(ops, results, result);
      results := results + [result];
    }
    assert ops[..|ops|] == ops;
    left := queue.heap;
  }

  /**
   One scheduler sweep: every eligible job goes in, then jobs are taken out until none is left.
   The jobs come out in comparator order and every job comes out exactly once.
   */
  method SweepOrder(jobs: seq<HeapNode>) returns (order: seq<HeapNode>)
    ensures Ascending(order)
    ensures multiset(order) == multiset(jobs)
  {
    var heap := new HeapPriorityQueue();
    for i := 0 to |jobs|
      invariant IsHeap(heap.heap) && multiset(heap.heap) == multiset(jobs[..i])
    {
      assert jobs[..i + 1] == jobs[..i] + [jobs[i]];
      heap.Insert(jobs[i]);
    }
    assert jobs[..|jobs|] == jobs;
    order := [];
    while |heap.heap| > 0
      invariant IsHeap(heap.heap) && Ascending(order)
      invariant multiset(heap.heap) + multiset(order) == multiset(jobs)
      invariant forall i, n :: 0 <= i < |order| && n in heap.heap ==> Before(order[i], n)
      decreases |heap.heap|
    {
      ghost var before := heap.heap;
      var node := heap.PopMin();
      assert |before| == |multiset(before)| == |multiset(heap.heap)| + 1 == |heap.heap| + 1;
      assert node.value in multiset(before) && node.value in before;
      forall n | n in heap.heap
        ensures n in before
      {
        assert n in multiset(heap.heap) && n in multiset(before);
      }
      order := order + [node.value];
    }
    assert heap.heap == [];
  }
}
