/** Exclusive prefix sums in two runs over the slices of tasks
    (rtbuild/algorithms/parallel_prefix_sum.h). */
module PrefixSum {
  import opened Common

  const SINGLE_THREAD_THRESHOLD: nat := 4096
  const MIN_STEP: nat := 1024

  lemma {:induction false} TotalConcat(s: seq<nat>, t: seq<nat>)
    ensures Total(s + t) == Total(s) + Total(t)
  {
    if t == [] {
      assert s + t == s;
    } else {
      var n := |t| - 1;
      TotalConcat(s, t[..n]);
      assert (s + t)[..|s + t| - 1] == s + t[..n];
    }
  }

  lemma TotalNext(s: seq<nat>, i: nat)
    requires i < |s|
    ensures Total(s[..i + 1]) == Total(s[..i]) + s[i] && Total(s[..0]) == 0
  {
    assert s[..i + 1][..i] == s[..i];
  }

  /** The source region holds s and is apart from the destination. */
  ghost predicate Source(a: seq<nat>, s: seq<nat>, src: nat, dst: nat) {
    && src + |s| <= |a| && dst + |s| <= |a| && (src + |s| <= dst || dst + |s| <= src)
    && a[src..src + |s|] == s
  }

  /** Destination element i is the sum of the elements before i. */
  ghost predicate SumAt(a: seq<nat>, s: seq<nat>, dst: nat, i: nat)
    requires i < |s|
  {
    dst + i < |a| && a[dst + i] == Total(s[..i])
  }

  ghost predicate Untouched(a: seq<nat>, b: seq<nat>, dst: nat, n: nat) {
    |a| == |b| && forall x: nat :: x < |a| && !(dst <= x < dst + n) ==> a[x] == b[x]
  }

  /** Sums one slice into the destination. */
  method SumSlice(a: array<nat>, ghost s: seq<nat>, src: nat, dst: nat, from: nat, to: nat, start: nat) returns (sum: nat)
    requires Source(a[..], s, src, dst) && from <= to <= |s| && start == Total(s[..from])
    modifies a
    ensures Source(a[..], s, src, dst) && Untouched(old(a[..]), a[..], dst + from, to - from)
    ensures start + sum == Total(s[..to])
    ensures forall i: nat :: from <= i < to ==> SumAt(a[..], s, dst, i)
  {
    hide Total, SumAt;
    sum := 0;
    for i := from to to
      invariant Source(a[..], s, src, dst) && Untouched(old(a[..]), a[..], dst + from, i - from)
      invariant start + sum == Total(s[..i])
      invariant forall j: nat :: from <= j < i ==> SumAt(a[..], s, dst, j)
    {
      TotalNext(s, i);
      ghost var before := a[..];
      a[dst + i] := start + sum;
      SumWritten(before, a[..], s, src, dst, from, i, start + sum);
      sum := sum + a[src + i];
    }
  }

  lemma SumWritten(a: seq<nat>, b: seq<nat>, s: seq<nat>, src: nat, dst: nat, from: nat, i: nat, x: nat)
    requires Source(a, s, src, dst) && from <= i < |s| && b == a[dst + i := x] && x == Total(s[..i])
    requires forall j: nat :: from <= j < i ==> SumAt(a, s, dst, j)
    ensures Source(b, s, src, dst) && b[src + i] == s[i]
    ensures forall j: nat :: from <= j < i + 1 ==> SumAt(b, s, dst, j)
  {
    hide Total;
    forall k | src <= k < src + |s|
      ensures b[k] == s[k - src]
    {
      assert a[k] == a[src..src + |s|][k - src];
    }
    forall j: nat | from <= j < i + 1
      ensures SumAt(b, s, dst, j)
    {
      assert j < i ==> SumAt(a, s, dst, j);
    }
  }

  /** Adds up one slice without writing. */
  method CountSlice(a: array<nat>, ghost s: seq<nat>, src: nat, ghost dst: nat, from: nat, to: nat) returns (sum: nat)
    requires Source(a[..], s, src, dst) && from <= to <= |s|
    ensures Total(s[..from]) + sum == Total(s[..to])
  {
    sum := 0;
    for i := from to to
      invariant Total(s[..from]) + sum == Total(s[..i])
    {
      assert a[src + i] == a[..][src..src + |s|][i] == s[i];
      TotalNext(s, i);
      sum := sum + a[src + i];
    }
  }

  /** Total of the elements before task t. */
  function BeforeTask(s: seq<nat>, t: nat, tasks: nat): nat
    requires 1 <= tasks && t <= tasks
  {
    Total(s[..TaskFrom(s, t, tasks)])
  }

  /** counts holds what the slices of the tasks add up to. */
  ghost predicate Counted(s: seq<nat>, counts: seq<nat>, tasks: nat, t: nat)
    requires 1 <= tasks && t < tasks && tasks <= |counts|
  {
    BeforeTask(s, t, tasks) + counts[t] == BeforeTask(s, t + 1, tasks)
  }

  method StartSums(ghost s: seq<nat>, counts: array<nat>, sums: array<nat>, tasks: nat) returns (sum: nat)
    requires 1 <= tasks <= MAX_TASKS == counts.Length == sums.Length && counts != sums
    requires forall t: nat :: t < tasks ==> Counted(s, counts[..], tasks, t)
    modifies sums
    ensures forall t: nat :: t < tasks ==> sums[t] == BeforeTask(s, t, tasks)
    ensures sum == Total(s)
  {
    hide BeforeTask;
    sum := 0;
    NoneBefore(s, tasks);
    for i := 0 to tasks
      invariant sum == BeforeTask(s, i, tasks)
      invariant forall t: nat :: t < tasks ==> Counted(s, counts[..], tasks, t)
      invariant forall t: nat :: t < i ==> sums[t] == BeforeTask(s, t, tasks)
    {
      assert Counted(s, counts[..], tasks, i);
      var c := counts[i];
      sums[i] := sum;
      sum := sum + c;
    }
  }

  lemma NoneBefore(s: seq<nat>, tasks: nat)
    requires 1 <= tasks
    ensures BeforeTask(s, 0, tasks) == 0 && BeforeTask(s, tasks, tasks) == Total(s)
  {
    TaskSlices(0, |s|, tasks);
    TaskSlices(tasks - 1, |s|, tasks);
    assert s[..|s|] == s;
  }

  method ParallelPrefixSum(a: array<nat>, ghost s: seq<nat>, src: nat, dst: nat, n: nat, threads: nat) returns (sum: nat)
    requires |s| == n && Source(a[..], s, src, dst) && 1 <= threads
    modifies a
    ensures Source(a[..], s, src, dst) && Untouched(old(a[..]), a[..], dst, n)
    ensures forall i: nat :: i < n ==> SumAt(a[..], s, dst, i)
    ensures sum == Total(s)
  {
    hide Source, SumAt, Untouched, Total;
    ghost var a0 := a[..];
    NoTotal(s);
    if n < SINGLE_THREAD_THRESHOLD {
      sum := SumSlice(a, s, src, dst, 0, n, 0);
    } else {
      var blocks := (n + MIN_STEP - 1) / MIN_STEP;
      var tasks := Min(threads, Min(blocks, MAX_TASKS));
      assert 1 <= tasks <= MAX_TASKS;
      sum := SumTasks(a, s, src, dst, n, tasks);
    }
  }

  lemma NoTotal(s: seq<nat>)
    ensures Total(s[..0]) == 0 && s[..|s|] == s
  {
  }

  /** The slice of task t holds its sums. */
  ghost predicate SliceSummed(a: seq<nat>, s: seq<nat>, dst: nat, tasks: nat, t: nat)
    requires 1 <= tasks && t < tasks
  {
    forall i: nat :: i < |s| && OfTask(i, t, |s|, tasks) ==> SumAt(a, s, dst, i)
  }

  lemma SliceOf(n: nat, tasks: nat, t: nat)
    requires 1 <= tasks && t < tasks
    ensures TaskStart(t, n, tasks) <= TaskStart(t + 1, n, tasks) <= n
  {
    TaskSlices(t, n, tasks);
    TaskSlicesMono(t + 1, tasks, n, tasks);
  }

  /** The first run only counts. */
  method CountTasks(a: array<nat>, ghost s: seq<nat>, src: nat, ghost dst: nat, n: nat, tasks: nat, counts: array<nat>)
    requires Source(a[..], s, src, dst) && 1 <= tasks <= MAX_TASKS == counts.Length && n == |s| && a != counts
    modifies counts
    ensures forall t: nat :: t < tasks ==> Counted(s, counts[..], tasks, t)
  {
    hide Source, Total, TaskStart;
    var pending := Tasks(tasks);
    while pending != {}
      invariant Source(a[..], s, src, dst) && forall t: nat :: t in pending ==> t < tasks
      invariant forall t: nat :: t < tasks && t !in pending ==> Counted(s, counts[..], tasks, t)
    {
      var t: nat :| t in pending;
      SliceOf(n, tasks, t);
      var c := CountSlice(a, s, src, dst, TaskStart(t, n, tasks), TaskStart(t + 1, n, tasks));
      CountedStep(s, counts[..], tasks, t, c, pending);
      counts[t] := c;
      pending := pending - {t};
    }
  }

  lemma CountedStep(s: seq<nat>, counts: seq<nat>, tasks: nat, t: nat, c: nat, pending: set<nat>)
    requires 1 <= tasks <= |counts| && t < tasks
    requires Total(s[..TaskFrom(s, t, tasks)]) + c == Total(s[..TaskFrom(s, t + 1, tasks)])
    requires forall u: nat :: u < tasks && u !in pending ==> Counted(s, counts, tasks, u)
    ensures forall u: nat :: u < tasks && u !in pending - {t} ==> Counted(s, counts[t := c], tasks, u)
  {
    hide Total, TaskStart;
    forall u: nat | u < tasks && u !in pending - {t}
      ensures Counted(s, counts[t := c], tasks, u)
    {
      assert u != t ==> Counted(s, counts, tasks, u);
    }
  }

  /** First element of task t. */
  function TaskFrom(s: seq<nat>, t: nat, tasks: nat): (k: nat)
    requires 1 <= tasks && t <= tasks
    ensures k <= |s|
  {
    TaskSlicesMono(t, tasks, |s|, tasks);
    TaskStart(t, |s|, tasks)
  }

  /** The second run writes, every task from its own start. */
  method WriteTasks(a: array<nat>, ghost s: seq<nat>, src: nat, dst: nat, n: nat, tasks: nat, counts: array<nat>, sums: array<nat>)
    returns (sum: nat)
    requires Source(a[..], s, src, dst) && 1 <= tasks <= MAX_TASKS == counts.Length == sums.Length && n == |s|
    requires a != counts && a != sums && counts != sums
    requires forall t: nat :: t < tasks ==> sums[t] == BeforeTask(s, t, tasks)
    modifies a, counts, sums
    ensures Source(a[..], s, src, dst) && Untouched(old(a[..]), a[..], dst, |s|)
    ensures forall i: nat :: i < |s| ==> SumAt(a[..], s, dst, i)
    ensures sum == Total(s)
  {
    hide Source, Total, TaskStart, Untouched, SumAt, SliceSummed, Counted;
    ghost var a0 := a[..];
    UntouchedSelf(a0, dst, n);
    var pending := Tasks(tasks);
    while pending != {}
      invariant Source(a[..], s, src, dst) && forall t: nat :: t in pending ==> t < tasks
      invariant Untouched(a0, a[..], dst, n)
      invariant forall t: nat :: t < tasks ==> sums[t] == BeforeTask(s, t, tasks)
      invariant forall t: nat :: t < tasks && t !in pending ==> Counted(s, counts[..], tasks, t) && SliceSummed(a[..], s, dst, tasks, t)
    {
      var t: nat :| t in pending;
      SliceOf(n, tasks, t);
      ghost var before := a[..];
      var c := SumSlice(a, s, src, dst, TaskStart(t, n, tasks), TaskStart(t + 1, n, tasks), sums[t]);
      CountedStep(s, counts[..], tasks, t, c, pending);
      SummedStep(before, a[..], s, dst, tasks, t, pending);
      UntouchedStep(a0, before, a[..], dst, n, tasks, t);
      counts[t] := c;
      pending := pending - {t};
    }
    AllSummed(a[..], s, dst, tasks);
    sum := StartSums(s, counts, sums, tasks);
  }

  lemma UntouchedSelf(a: seq<nat>, dst: nat, n: nat)
    ensures Untouched(a, a, dst, n)
  {
  }

  lemma UntouchedStep(a0: seq<nat>, a: seq<nat>, b: seq<nat>, dst: nat, n: nat, tasks: nat, t: nat)
    requires 1 <= tasks && t < tasks && TaskStart(t, n, tasks) <= TaskStart(t + 1, n, tasks)
    requires Untouched(a0, a, dst, n)
    requires Untouched(a, b, dst + TaskStart(t, n, tasks), TaskStart(t + 1, n, tasks) - TaskStart(t, n, tasks))
    ensures Untouched(a0, b, dst, n)
  {
    hide TaskStart;
    SliceOf(n, tasks, t);
  }

  lemma SummedStep(a: seq<nat>, b: seq<nat>, s: seq<nat>, dst: nat, tasks: nat, t: nat, pending: set<nat>)
    requires 1 <= tasks && t < tasks && TaskStart(t, |s|, tasks) <= TaskStart(t + 1, |s|, tasks)
    requires Untouched(a, b, dst + TaskStart(t, |s|, tasks), TaskStart(t + 1, |s|, tasks) - TaskStart(t, |s|, tasks))
    requires forall u: nat :: u < tasks && u !in pending ==> SliceSummed(a, s, dst, tasks, u)
    requires forall i: nat :: TaskStart(t, |s|, tasks) <= i < TaskStart(t + 1, |s|, tasks) && i < |s| ==> SumAt(b, s, dst, i)
    ensures forall u: nat :: u < tasks && u !in pending - {t} ==> SliceSummed(b, s, dst, tasks, u)
  {
    hide TaskStart, Total;
    forall u: nat, i: nat | u < tasks && u !in pending - {t} && i < |s| && OfTask(i, u, |s|, tasks)
      ensures SumAt(b, s, dst, i)
    {
      if u != t {
        assert SliceSummed(a, s, dst, tasks, u);
        if u < t {
          TaskSlicesMono(u + 1, t, |s|, tasks);
        } else {
          TaskSlicesMono(t + 1, u, |s|, tasks);
        }
      }
    }
  }

  lemma AllSummed(a: seq<nat>, s: seq<nat>, dst: nat, tasks: nat)
    requires 1 <= tasks && forall t: nat :: t < tasks ==> SliceSummed(a, s, dst, tasks, t)
    ensures forall i: nat :: i < |s| ==> SumAt(a, s, dst, i)
  {
    hide TaskStart, SumAt;
    forall i: nat | i < |s|
      ensures SumAt(a, s, dst, i)
    {
      var t := TaskOf(i, |s|, tasks);
      assert SliceSummed(a, s, dst, tasks, t);
    }
  }

  /** Both runs of the tasks. */
  method SumTasks(a: array<nat>, ghost s: seq<nat>, src: nat, dst: nat, n: nat, tasks: nat) returns (sum: nat)
    requires Source(a[..], s, src, dst) && 1 <= tasks <= MAX_TASKS && n == |s|
    modifies a
    ensures Source(a[..], s, src, dst) && Untouched(old(a[..]), a[..], dst, |s|)
    ensures forall i: nat :: i < |s| ==> SumAt(a[..], s, dst, i)
    ensures sum == Total(s)
  {
    hide Source, SumAt, Untouched, Total, TaskStart, BeforeTask, Counted;
    var counts, sums := new nat[MAX_TASKS], new nat[MAX_TASKS];
    CountTasks(a, s, src, dst, n, tasks, counts);
    sum := StartSums(s, counts, sums, tasks);
    sum := WriteTasks(a, s, src, dst, n, tasks, counts, sums);
  }
}
