/** Tasks over nested arrays: every task starts somewhere inside some array and
    walks on from there (rtbuild/algorithms/parallel_for_for.h). */
module NestedTasks {
  import opened Common

  /** The elements of array i. */
  function Row(i: nat, n: nat): (r: seq<(nat, nat)>)
    ensures |r| == n && forall j: nat :: j < n ==> r[j] == (i, j)
  {
    seq(n, j requires 0 <= j < n => (i, j))
  }

  /** All elements, one array after the other. */
  function Flat(sizes: seq<nat>): seq<(nat, nat)> {
    if sizes == [] then [] else
      var n := |sizes| - 1;
      Flat(sizes[..n]) + Row(n, sizes[n])
  }

  /** Elements before array i. */
  function Offset(sizes: seq<nat>, i: nat): nat
    requires i <= |sizes|
  {
    |Flat(sizes[..i])|
  }

  lemma OffsetStep(sizes: seq<nat>, i: nat)
    requires i < |sizes|
    ensures Offset(sizes, i + 1) == Offset(sizes, i) + sizes[i]
    ensures Offset(sizes, 0) == 0 && Offset(sizes, |sizes|) == |Flat(sizes)|
  {
    assert sizes[..i + 1][..i] == sizes[..i] && sizes[..|sizes|] == sizes;
  }

  lemma OffsetEnd(sizes: seq<nat>, i: nat)
    requires i <= |sizes|
    ensures i == |sizes| ==> Offset(sizes, i) == |Flat(sizes)|
  {
    if i == |sizes| {
      assert sizes[..i] == sizes;
    }
  }

  lemma {:induction false} OffsetMono(sizes: seq<nat>, i: nat, j: nat)
    requires i <= j <= |sizes|
    ensures Offset(sizes, i) <= Offset(sizes, j)
    decreases j
  {
    if i < j {
      OffsetMono(sizes, i, j - 1);
      OffsetStep(sizes, j - 1);
    }
  }

  /** The first element after those of the first i arrays; equal at the end. */
  lemma {:induction false} FlatPrefix(sizes: seq<nat>, i: nat)
    requires i <= |sizes|
    ensures Flat(sizes[..i]) <= Flat(sizes)
    decreases |sizes| - i
  {
    if i == |sizes| {
      assert sizes[..i] == sizes;
    } else {
      FlatPrefix(sizes, i + 1);
      assert sizes[..i + 1][..i] == sizes[..i];
    }
  }

  lemma FlatAt(sizes: seq<nat>, i: nat, j: nat)
    requires i < |sizes| && j < sizes[i]
    ensures Offset(sizes, i) + j < |Flat(sizes)| && Flat(sizes)[Offset(sizes, i) + j] == (i, j)
  {
    FlatPrefix(sizes, i + 1);
    assert sizes[..i + 1][..i] == sizes[..i];
    assert Flat(sizes)[Offset(sizes, i) + j] == Flat(sizes[..i + 1])[Offset(sizes, i) + j];
  }

  /** A stretch of one array is a stretch of all elements. */
  lemma FlatRange(sizes: seq<nat>, i: nat, r0: nat, r1: nat)
    requires i < |sizes| && r0 <= r1 <= sizes[i]
    ensures Offset(sizes, i) + r1 <= |Flat(sizes)|
    ensures Flat(sizes)[Offset(sizes, i) + r0..Offset(sizes, i) + r1] == Row(i, sizes[i])[r0..r1]
  {
    hide Flat, Offset;
    OffsetMono(sizes, i + 1, |sizes|);
    OffsetStep(sizes, i);
    forall j | r0 <= j < r1
      ensures Flat(sizes)[Offset(sizes, i) + j] == (i, j)
    {
      FlatAt(sizes, i, j);
    }
  }

  /** Element j of array i has number k. */
  ghost predicate Located(sizes: seq<nat>, i: nat, j: nat, k: nat) {
    && i <= |sizes| && Offset(sizes, i) + j == k
    && (if i < |sizes| then j <= sizes[i] else j == 0)
  }

  class ForForState {
    const i0: array<nat>
    const j0: array<nat>
    var taskCount: nat
    var N: nat

    constructor ()
      ensures i0.Length == j0.Length == MAX_TASKS && i0 != j0 && fresh(i0) && fresh(j0)
    {
      i0 := new nat[MAX_TASKS];
      j0 := new nat[MAX_TASKS];
      taskCount, N := 0, 0;
    }

    /** The start of task t is element number t * N / taskCount. */
    ghost predicate Starts(sizes: seq<nat>, n: nat)
      reads this, i0, j0
    {
      && i0 != j0 && i0.Length == j0.Length == MAX_TASKS && 1 <= taskCount <= MAX_TASKS && N == |Flat(sizes)| && n <= taskCount
      && forall t: nat :: t < n ==> StartOf(sizes, t)
    }

    ghost predicate StartOf(sizes: seq<nat>, t: nat)
      requires t < taskCount <= i0.Length && i0.Length == j0.Length
      reads this, i0, j0
    {
      Located(sizes, i0[t], j0[t], TaskStart(t, N, taskCount))
    }

    method SetStart(ghost sizes: seq<nat>, taskIndex: nat, i: nat, j: nat)
      requires Starts(sizes, taskIndex) && taskIndex < taskCount
      requires Located(sizes, i, j, TaskStart(taskIndex, N, taskCount))
      modifies i0, j0
      ensures Starts(sizes, taskIndex + 1)
    {
      hide Located, TaskStart;
      i0[taskIndex] := i;
      j0[taskIndex] := j;
      forall t: nat | t < taskIndex + 1
        ensures StartOf(sizes, t)
      {
        assert t < taskIndex ==> old(StartOf(sizes, t));
      }
    }

    /** Finds the starts; no array beyond the last is looked at. */
    method Init(sizes: seq<nat>, minStepSize: nat, numThreads: nat)
      requires 1 <= minStepSize && i0 != j0 && i0.Length == j0.Length == MAX_TASKS
      modifies this, i0, j0
      ensures Starts(sizes, taskCount) && (taskCount <= N || taskCount == 1)
    {
      hide Located, TaskStart;
      N := 0;
      for i := 0 to |sizes|
        invariant N == Offset(sizes, i)
      {
        OffsetStep(sizes, i);
        N := N + sizes[i];
      }
      assert sizes[..|sizes|] == sizes;
      var numBlocks := (N + minStepSize - 1) / minStepSize;
      BlocksBound(N, minStepSize);
      taskCount := Max(1, Min(Min(numThreads, numBlocks), MAX_TASKS));
      i0[0], j0[0] := 0, 0;
      TaskZero(sizes, N, taskCount);
      var taskIndex := 1;
      var k0 := TaskStart(taskIndex, N, taskCount);
      var i, k := 0, 0;
      TaskAhead(0, N, taskCount);
      while taskIndex < taskCount
        invariant 1 <= taskIndex <= taskCount && Starts(sizes, taskIndex) && (taskCount <= N || taskCount == 1)
        invariant i <= |sizes| && k == Offset(sizes, i) && k0 == TaskStart(taskIndex, N, taskCount)
        invariant taskIndex < taskCount ==> k < k0
        decreases |sizes| - i
      {
        TaskBelow(taskIndex, N, taskCount);
        OffsetEnd(sizes, i);
        var j, M := 0, sizes[i];
        while j < M && k + M - j >= k0 && taskIndex < taskCount
          invariant j <= M && k == Offset(sizes, i) + j && Starts(sizes, taskIndex) && 1 <= taskIndex <= taskCount <= MAX_TASKS
          invariant taskCount <= N || taskCount == 1
          invariant k0 == TaskStart(taskIndex, N, taskCount) && (taskIndex < taskCount ==> k < k0)
          decreases taskCount - taskIndex
        {
          j := j + (k0 - k);
          LocatedAt(sizes, i, j, k0);
          SetStart(sizes, taskIndex, i, j);
          k := k0;
          TaskAhead(taskIndex, N, taskCount);
          taskIndex := taskIndex + 1;
          k0 := TaskStart(taskIndex, N, taskCount);
        }
        OffsetStep(sizes, i);
        k := k + (M - j);
        i := i + 1;
      }
    }
  }

  lemma BlocksBound(n: nat, step: nat)
    requires 1 <= step
    ensures (n + step - 1) / step <= n
  {
    if n == 0 {
      DivUnique(step - 1, step, 0);
    } else {
      var q := DivFloor(n + step - 1, step);
      if n < q {
        MulMono(n + 1, q, step);
        Expand(n, step);
      }
    }
  }

  lemma Expand(n: nat, step: nat)
    requires 1 <= n && 1 <= step
    ensures n + step - 1 < (n + 1) * step
  {
    MulDistribute(n, step);
    MulMono(1, step, n);
  }

  lemma TaskZero(sizes: seq<nat>, n: nat, tasks: nat)
    requires 1 <= tasks
    ensures TaskStart(0, n, tasks) == 0 && Located(sizes, 0, 0, 0)
  {
    TaskSlices(0, n, tasks);
  }

  lemma TaskAhead(t: nat, n: nat, tasks: nat)
    requires t < tasks && (tasks <= n || tasks == 1)
    ensures TaskStart(0, n, tasks) == 0
    ensures t + 1 < tasks ==> TaskStart(t, n, tasks) < TaskStart(t + 1, n, tasks)
  {
    TaskSlices(t, n, tasks);
  }

  lemma TaskBelow(t: nat, n: nat, tasks: nat)
    requires t < tasks
    ensures TaskStart(t, n, tasks) <= n && (0 < n ==> TaskStart(t, n, tasks) < n)
  {
    TaskSlices(t, n, tasks);
    TaskSlicesMono(t, tasks, n, tasks);
  }

  lemma LocatedAt(sizes: seq<nat>, i: nat, j: nat, k: nat)
    requires i < |sizes| && j <= sizes[i] && Offset(sizes, i) + j == k
    ensures Located(sizes, i, j, k)
  {
  }
}
