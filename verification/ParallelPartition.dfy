/** Partitioning by tasks: every task partitions its own slice of the array,
    then the tasks exchange the elements that are on the wrong side of the
    common middle (rtbuild/algorithms/parallel_partition.h). */
module ParallelPartition {
  import opened Common
  import opened Partition

  /** A partitioned range consists of what the filter keeps and what it drops. */
  lemma FilterSplit<T>(s: seq<T>, isLeft: T -> bool, b: nat, m: nat, e: nat)
    requires Split(s, isLeft, b, m, e)
    ensures Filter(isLeft, s[b..e]) == s[b..m]
    ensures Filter(x => !isLeft(x), s[b..e]) == s[m..e]
  {
    FilterParts(s[b..m], s[m..e], isLeft, true, false);
    FilterParts(s[b..m], s[m..e], x => !isLeft(x), false, true);
    assert s[b..e] == s[b..m] + s[m..e];
  }

  lemma FilterParts<T>(s: seq<T>, t: seq<T>, f: T -> bool, b: bool, c: bool)
    requires forall i :: 0 <= i < |s| ==> f(s[i]) == b
    requires forall i :: 0 <= i < |t| ==> f(t[i]) == c
    ensures Filter(f, s + t) == (if b then s else []) + (if c then t else [])
  {
    hide Filter;
    FilterConcat(f, s, t);
    FilterUniform(f, s, b);
    FilterUniform(f, t, c);
  }

  // ----- the slices of the tasks

  /** The slices after all tasks partitioned theirs: lefts[i] elements of slice
      i satisfy the predicate. */
  datatype Layout = Layout(begin: nat, end: nat, tasks: nat, lefts: seq<nat>) {
    function Start(i: nat): nat
      requires begin <= end && 0 < tasks
    {
      begin + TaskStart(i, end - begin, tasks)
    }

    ghost predicate Valid() {
      && begin <= end && 0 < tasks && |lefts| == tasks
      && (forall i :: 0 <= i < tasks ==> lefts[i] <= Start(i + 1) - Start(i))
    }

    /** The common middle. */
    function Mid(): int {
      begin + Sum(lefts)
    }

    /** Elements of slice i that belong left of the middle but stand right in
        their slice's order, and the other way round. */
    function LeftMisplaced(i: nat): Range
      requires begin <= end && 0 < tasks && i < |lefts|
    {
      Range(begin, Mid()).Intersect(Range(Start(i) + lefts[i], Start(i + 1)))
    }

    function RightMisplaced(i: nat): Range
      requires begin <= end && 0 < tasks && i < |lefts|
    {
      Range(Mid(), end).Intersect(Range(Start(i), Start(i) + lefts[i]))
    }

    function LeftPositions(n: nat): seq<int>
      requires begin <= end && 0 < tasks && n <= |lefts|
    {
      if n == 0 then [] else LeftPositions(n - 1) + LeftMisplaced(n - 1).Indices()
    }

    function RightPositions(n: nat): seq<int>
      requires begin <= end && 0 < tasks && n <= |lefts|
    {
      if n == 0 then [] else RightPositions(n - 1) + RightMisplaced(n - 1).Indices()
    }

    lemma StartBounds(i: nat)
      requires Valid() && i < tasks
      ensures begin == Start(0) && begin <= Start(i) <= Start(i) + lefts[i] <= Start(i + 1) <= Start(tasks) == end
    {
      TaskSlices(i, end - begin, tasks);
    }

    /** Part of the left elements of the first n slices that stand left of the
        middle already. */
    ghost function Settled(n: nat): int
      requires Valid() && n <= tasks
    {
      if n == 0 then 0
      else Settled(n - 1) + Max(0, Min(Mid(), Start(n - 1) + lefts[n - 1]) - Start(n - 1))
    }

    lemma {:induction false} CountMisplaced(n: nat)
      requires Valid() && n <= tasks
      ensures |LeftPositions(n)| + Settled(n) == Max(0, Min(Mid(), Start(n)) - begin)
      ensures |RightPositions(n)| + Settled(n) == Sum(lefts[..n])
    {
      hide TaskStart, Sum, Start, Mid, Settled, LeftPositions, RightPositions, LeftMisplaced, RightMisplaced, Valid;
      MidBounds();
      CountNone();
      if n != 0 {
        CountMisplaced(n - 1);
        CountSlice(n - 1);
        MorePositions(this, n - 1);
      }
    }

    lemma CountNone()
      requires Valid()
      ensures LeftPositions(0) == [] && RightPositions(0) == [] && Settled(0) == 0 && Start(0) == begin && Sum(lefts[..0]) == 0
      ensures |lefts| == tasks && begin <= end && 0 < tasks
    {
      StartBounds(0);
    }

    /** One more slice. */
    lemma CountSlice(n: nat)
      requires Valid() && n < tasks && begin <= Mid() <= end
      ensures |LeftMisplaced(n).Indices()| + Settled(n + 1) - Settled(n) == Max(0, Min(Mid(), Start(n + 1)) - begin) - Max(0, Min(Mid(), Start(n)) - begin)
      ensures |RightMisplaced(n).Indices()| + Settled(n + 1) - Settled(n) == lefts[n]
      ensures Sum(lefts[..n + 1]) == Sum(lefts[..n]) + lefts[n]
    {
      hide TaskStart, Sum, Start, Mid;
      StartBounds(n);
      SumPrefix(lefts, n);
      SliceCounts(begin, end, Mid(), Start(n), lefts[n], Start(n + 1));
    }

    lemma MidBounds()
      requires Valid()
      ensures begin <= Mid() <= end
    {
      hide TaskStart;
      assert lefts[..tasks] == lefts;
      MidBoundsAt(tasks);
    }

    lemma {:induction false} MidBoundsAt(n: nat)
      requires Valid() && n <= tasks
      ensures 0 <= Sum(lefts[..n]) <= Start(n) - begin <= end - begin
    {
      hide TaskStart;
      if n == 0 {
        StartBounds(0);
      } else {
        MidBoundsAt(n - 1);
        StartBounds(n - 1);
        SumPrefix(lefts, n - 1);
      }
    }

    /** As many elements are misplaced on the left as on the right. */
    lemma SameCount()
      requires Valid()
      ensures |LeftPositions(tasks)| == |RightPositions(tasks)|
    {
      hide TaskStart;
      CountMisplaced(tasks);
      MidBounds();
      StartBounds(tasks - 1);
      assert lefts[..tasks] == lefts;
    }

    lemma {:induction false} LeftPositionsIn(n: nat)
      requires Valid() && n <= tasks
      ensures forall k :: 0 <= k < |LeftPositions(n)| ==> begin <= LeftPositions(n)[k] < Min(Mid(), Start(n))
      ensures forall i, j :: 0 <= i < j < |LeftPositions(n)| ==> LeftPositions(n)[i] < LeftPositions(n)[j]
    {
      hide TaskStart;
      if n != 0 {
        LeftPositionsIn(n - 1);
        StartBounds(n - 1);
      }
    }

    lemma {:induction false} RightPositionsIn(n: nat)
      requires Valid() && n <= tasks
      ensures forall k :: 0 <= k < |RightPositions(n)| ==> Mid() <= RightPositions(n)[k] < Start(n)
      ensures forall i, j :: 0 <= i < j < |RightPositions(n)| ==> RightPositions(n)[i] < RightPositions(n)[j]
    {
      hide TaskStart;
      if n != 0 {
        RightPositionsIn(n - 1);
        StartBounds(n - 1);
      }
    }

    lemma ArePairs(length: nat)
      requires Valid() && end <= length
      ensures Pairs(length, LeftPositions(tasks), RightPositions(tasks))
    {
      hide TaskStart;
      SameCount();
      LeftPositionsIn(tasks);
      RightPositionsIn(tasks);
      StartBounds(tasks - 1);
      MidBounds();
    }

    /** Every element right in its slice but left of the middle is listed. */
    lemma {:induction false} LeftListed(n: nat, i: nat, p: int)
      requires Valid() && i < n <= tasks
      requires Start(i) + lefts[i] <= p < Start(i + 1) && begin <= p < Mid()
      ensures p in LeftPositions(n)
    {
      hide TaskStart, Sum, Start, Mid, LeftMisplaced, RightMisplaced, LeftPositions, RightPositions;
      MorePositions(this, n - 1);
      if i < n - 1 {
        LeftListed(n - 1, i, p);
      } else {
        LeftInSlice(i, p);
      }
    }

    lemma LeftInSlice(i: nat, p: int)
      requires Valid() && i < tasks
      requires Start(i) + lefts[i] <= p < Start(i + 1) && begin <= p < Mid()
      ensures p in LeftMisplaced(i).Indices()
    {
      hide TaskStart, Sum, Start, Mid;
      InIndices(LeftMisplaced(i), p);
    }

    lemma {:induction false} RightListed(n: nat, i: nat, p: int)
      requires Valid() && i < n <= tasks
      requires Start(i) <= p < Start(i) + lefts[i] && Mid() <= p < end
      ensures p in RightPositions(n)
    {
      hide TaskStart, Sum, Start, Mid, LeftMisplaced, RightMisplaced, LeftPositions, RightPositions;
      MorePositions(this, n - 1);
      if i < n - 1 {
        RightListed(n - 1, i, p);
      } else {
        RightInSlice(i, p);
      }
    }

    lemma RightInSlice(i: nat, p: int)
      requires Valid() && i < tasks
      requires Start(i) <= p < Start(i) + lefts[i] && Mid() <= p < end
      ensures p in RightMisplaced(i).Indices()
    {
      hide TaskStart, Sum, Start, Mid;
      InIndices(RightMisplaced(i), p);
    }
  }

  /** Of a slice from s to s1 whose first l elements are left ones: those on the
      wrong side of mid and those settled. */
  lemma SliceCounts(b: int, e: int, mid: int, s: int, l: int, s1: int)
    requires b <= s <= s + l <= s1 <= e && b <= mid <= e
    ensures Max(0, Min(mid, s1) - Max(b, s + l)) + Max(0, Min(mid, s + l) - s) == Max(0, Min(mid, s1) - b) - Max(0, Min(mid, s) - b)
    ensures Max(0, Min(e, s + l) - Max(mid, s)) + Max(0, Min(mid, s + l) - s) == l
  {
  }

  lemma InIndices(r: Range, p: int)
    requires r.begin <= p < r.end
    ensures p in r.Indices()
  {
    assert r.Indices()[p - r.begin] == p;
  }

  /** Every slice is partitioned. */
  ghost predicate SlicesSplit<T>(y: Layout, s: seq<T>, isLeft: T -> bool)
  {
    && y.Valid() && y.end <= |s|
    && (forall i: nat :: i < y.tasks ==> Split(s, isLeft, y.Start(i), y.Start(i) + y.lefts[i], y.Start(i + 1)))
  }

  lemma {:induction false} ListedSides<T>(y: Layout, s: seq<T>, isLeft: T -> bool, n: nat)
    requires SlicesSplit(y, s, isLeft) && n <= y.tasks
    ensures forall p :: p in y.LeftPositions(n) ==> 0 <= p < |s| && !isLeft(s[p])
    ensures forall p :: p in y.RightPositions(n) ==> 0 <= p < |s| && isLeft(s[p])
  {
    hide TaskStart, Sum, SlicesSplit, Split, Layout.LeftPositions, Layout.RightPositions, Layout.LeftMisplaced, Layout.RightMisplaced,
      Layout.Valid;
    SlicesValid(y, s, isLeft);
    NoPositions(y);
    if n != 0 {
      ListedSides(y, s, isLeft, n - 1);
      SliceSides(y, s, isLeft, n - 1);
      MorePositions(y, n - 1);
    }
  }

  lemma SliceSides<T>(y: Layout, s: seq<T>, isLeft: T -> bool, n: nat)
    requires SlicesSplit(y, s, isLeft) && n < y.tasks
    ensures y.Valid()
    ensures forall p :: p in y.LeftMisplaced(n).Indices() ==> 0 <= p < |s| && !isLeft(s[p])
    ensures forall p :: p in y.RightMisplaced(n).Indices() ==> 0 <= p < |s| && isLeft(s[p])
  {
    hide TaskStart, Sum, Layout.Start, Layout.Mid;
    y.StartBounds(n);
    y.MidBounds();
    assert Split(s, isLeft, y.Start(n), y.Start(n) + y.lefts[n], y.Start(n + 1));
  }

  /** Once all exchanges are done the whole range is partitioned at the middle. */
  lemma ExchangedSplit<T>(y: Layout, s: seq<T>, t: seq<T>, isLeft: T -> bool, done: set<int>)
    requires SlicesSplit(y, s, isLeft)
    requires Pairs(|s|, y.LeftPositions(y.tasks), y.RightPositions(y.tasks))
    requires After(s, t, y.LeftPositions(y.tasks), y.RightPositions(y.tasks), done)
    requires forall k :: 0 <= k < |y.LeftPositions(y.tasks)| ==> k in done
    ensures 0 <= y.Mid() && Split(t, isLeft, y.begin, y.Mid(), y.end)
  {
    hide TaskStart;
    var ls, rs := y.LeftPositions(y.tasks), y.RightPositions(y.tasks);
    y.MidBounds();
    forall p | y.begin <= p < y.end
      ensures isLeft(t[p]) == (p < y.Mid())
    {
      ExchangedAt(y, s, t, isLeft, done, p);
    }
  }

  lemma ExchangedAt<T>(y: Layout, s: seq<T>, t: seq<T>, isLeft: T -> bool, done: set<int>, p: nat)
    requires SlicesSplit(y, s, isLeft)
    requires Pairs(|s|, y.LeftPositions(y.tasks), y.RightPositions(y.tasks))
    requires After(s, t, y.LeftPositions(y.tasks), y.RightPositions(y.tasks), done)
    requires forall k :: 0 <= k < |y.LeftPositions(y.tasks)| ==> k in done
    requires y.begin <= p < y.end
    ensures isLeft(t[p]) == (p < y.Mid())
  {
    hide TaskStart, SlicesSplit, Layout.LeftPositions, Layout.RightPositions, Layout.Valid;
    SlicesValid(y, s, isLeft);
    var ls, rs := y.LeftPositions(y.tasks), y.RightPositions(y.tasks);
    ListedSides(y, s, isLeft, y.tasks);
    y.LeftPositionsIn(y.tasks);
    y.RightPositionsIn(y.tasks);
    if p in ls {
      var k :| 0 <= k < |ls| && ls[k] == p;
      assert rs[k] in rs;
    } else if p in rs {
      var k :| 0 <= k < |rs| && rs[k] == p;
      assert ls[k] in ls;
    } else {
      UnlistedAt(y, s, isLeft, p);
    }
  }

  lemma SlicesValid<T>(y: Layout, s: seq<T>, isLeft: T -> bool)
    requires SlicesSplit(y, s, isLeft)
    ensures y.Valid() && y.begin <= y.end <= |s| && 0 < y.tasks == |y.lefts|
  {
  }

  /** An element that is not misplaced stands on its side already. */
  lemma UnlistedAt<T>(y: Layout, s: seq<T>, isLeft: T -> bool, p: nat)
    requires SlicesSplit(y, s, isLeft)
    requires y.begin <= p < y.end && p !in y.LeftPositions(y.tasks) && p !in y.RightPositions(y.tasks)
    ensures isLeft(s[p]) == (p < y.Mid())
  {
    hide Layout.LeftPositions, Layout.RightPositions, TaskStart;
    var i := TaskOf(p - y.begin, y.end - y.begin, y.tasks);
    assert Split(s, isLeft, y.Start(i), y.Start(i) + y.lefts[i], y.Start(i + 1));
    if p < y.Mid() && y.Start(i) + y.lefts[i] <= p {
      y.LeftListed(y.tasks, i, p);
    }
    if y.Mid() <= p < y.Start(i) + y.lefts[i] {
      y.RightListed(y.tasks, i, p);
    }
  }

  // ----- first phase: partition the slices

  /** The slice of task i in the range from begin to end of s. */
  ghost function Slice<T>(s: seq<T>, begin: nat, end: nat, tasks: nat, i: nat): seq<T>
    requires begin <= end <= |s| && i < tasks
  {
    TaskSlices(i, end - begin, tasks);
    s[begin + TaskStart(i, end - begin, tasks)..begin + TaskStart(i + 1, end - begin, tasks)]
  }

  /** A slice is partitioned at m and reduced. */
  ghost predicate SliceDone<V, T>(k: Job<V, T>, slice: seq<T>, identity: V, m: nat, left: V, right: V)
  {
    && Split(slice, k.isLeft, 0, m, |slice|)
    && left == Fold(k.reduce, identity, slice[..m])
    && right == FoldBack(k.reduce, identity, slice[m..])
  }

  lemma SliceFinished<V, T>(k: Job<V, T>, s: seq<T>, identity: V, tasks: nat, i: nat, m: nat, left: V, right: V,
                            b: nat, e: nat)
    requires k.begin <= k.end <= |s| && i < tasks
    requires b == k.begin + TaskStart(i, k.end - k.begin, tasks)
    requires e == k.begin + TaskStart(i + 1, k.end - k.begin, tasks)
    requires Split(s, k.isLeft, b, m, e)
    requires left == Fold(k.reduce, identity, s[b..m]) && right == FoldBack(k.reduce, identity, s[m..e])
    ensures SliceDone(k, Slice(s, k.begin, k.end, tasks, i), identity, m - b, left, right)
  {
    hide TaskStart, Split, Fold, FoldBack;
    SplitBounds(s, k.isLeft, b, m, e);
    SubSlices(s, b, m, e);
    SplitSlice(s, k.isLeft, b, m, e);
  }

  lemma SubSlices<T>(s: seq<T>, b: nat, m: nat, e: nat)
    requires b <= m <= e <= |s|
    ensures s[b..e][..m - b] == s[b..m] && s[b..e][m - b..] == s[m..e]
  {
  }

  lemma SplitSlice<T>(s: seq<T>, isLeft: T -> bool, b: nat, m: nat, e: nat)
    requires b <= m <= e <= |s|
    ensures Split(s[b..e], isLeft, 0, m - b, e - b) <==> Split(s, isLeft, b, m, e)
  {
    if Split(s[b..e], isLeft, 0, m - b, e - b) {
      forall i | b <= i < e
        ensures isLeft(s[i]) == (i < m)
      {
        assert s[i] == s[b..e][i - b];
      }
    }
  }

  /** A task leaves the slices of the other tasks alone. */
  lemma SliceFrame<T>(s: seq<T>, t: seq<T>, begin: nat, end: nat, tasks: nat, i: nat, j: nat)
    requires begin <= end <= |s| && i < tasks && j < tasks && i != j
    requires PermutesRange(s, t, begin + TaskStart(j, end - begin, tasks), begin + TaskStart(j + 1, end - begin, tasks))
    ensures Slice(s, begin, end, tasks, i) == Slice(t, begin, end, tasks, i)
  {
    hide TaskStart;
    var n := end - begin;
    TaskSlices(i, n, tasks);
    TaskSlices(j, n, tasks);
    if i < j {
      TaskSlicesMono(i + 1, j, n, tasks);
    } else {
      TaskSlicesMono(j + 1, i, n, tasks);
    }
    SameOutside(s, t, begin + TaskStart(j, n, tasks), begin + TaskStart(j + 1, n, tasks),
                begin + TaskStart(i, n, tasks), begin + TaskStart(i + 1, n, tasks));
  }

  lemma SlicesFrame<T>(s: seq<T>, t: seq<T>, begin: nat, end: nat, tasks: nat, j: nat)
    requires begin <= end <= |s| && j < tasks
    requires PermutesRange(s, t, begin + TaskStart(j, end - begin, tasks), begin + TaskStart(j + 1, end - begin, tasks))
    ensures |t| == |s|
    ensures forall i: nat :: i < tasks && i != j ==> Slice(s, begin, end, tasks, i) == Slice(t, begin, end, tasks, i)
  {
    hide TaskStart, Slice, PermutesRange;
    PermutesLength(s, t, begin + TaskStart(j, end - begin, tasks), begin + TaskStart(j + 1, end - begin, tasks));
    forall i: nat | i < tasks && i != j
      ensures Slice(s, begin, end, tasks, i) == Slice(t, begin, end, tasks, i)
    {
      SliceFrame(s, t, begin, end, tasks, i, j);
    }
  }

  lemma SameOutside<T>(s: seq<T>, t: seq<T>, b: nat, e: nat, i: nat, j: nat)
    requires PermutesRange(s, t, b, e) && i <= j <= |s| && (j <= b || e <= i)
    ensures s[i..j] == t[i..j]
  {
    forall p | i <= p < j
      ensures s[p] == t[p]
    {
      if p < b {
        assert s[p] == s[..b][p] == t[..b][p];
      } else {
        assert s[p] == s[e..][p - e] == t[e..][p - e];
      }
    }
  }

  /** A task partitions its own slice and leaves the others alone. */
  method PartitionSlice<V, T>(k: Job<V, T>, a: array<T>, numTasks: nat, taskID: nat, identity: V)
    returns (count: nat, left: V, right: V)
    requires k.begin <= k.end <= a.Length && taskID < numTasks
    modifies a
    ensures PermutesRange(old(a[..]), a[..], k.begin, k.end)
    ensures SliceDone(k, Slice(a[..], k.begin, k.end, numTasks, taskID), identity, count, left, right)
    ensures forall i: nat :: i < numTasks && i != taskID ==>
      Slice(a[..], k.begin, k.end, numTasks, i) == Slice(old(a[..]), k.begin, k.end, numTasks, i)
  {
    hide SliceDone, PermutesRange, TaskStart, Slice, Split;
    ghost var s := a[..];
    TaskSlices(taskID, k.end - k.begin, numTasks);
    var startID := k.begin + TaskStart(taskID, k.end - k.begin, numTasks);
    var endID := k.begin + TaskStart(taskID + 1, k.end - k.begin, numTasks);
    var mid;
    mid, left, right := SerialPartitioning(k.(begin := startID, end := endID), a, identity, identity);
    SplitBounds(a[..], k.isLeft, startID, mid, endID);
    SliceFinished(k, a[..], identity, numTasks, taskID, mid, left, right, startID, endID);
    PermutesSelf(s, k.begin, k.end);
    PermutesTrans(s, s, a[..], k.begin, k.end, startID, endID);
    SlicesFrame(s, a[..], k.begin, k.end, numTasks, taskID);
    count := mid - startID;
  }

  method PartitionSlices<V, T>(k: Job<V, T>, a: array<T>, numTasks: nat, identity: V)
    returns (lefts: seq<nat>, leftReductions: seq<V>, rightReductions: seq<V>)
    requires k.begin <= k.end <= a.Length && 0 < numTasks
    modifies a
    ensures |lefts| == |leftReductions| == |rightReductions| == numTasks
    ensures PermutesRange(old(a[..]), a[..], k.begin, k.end)
    ensures forall i: nat :: i < numTasks ==>
      SliceDone(k, Slice(a[..], k.begin, k.end, numTasks, i), identity, lefts[i], leftReductions[i], rightReductions[i])
  {
    hide SliceDone, PermutesRange, TaskStart, Slice, Split;
    lefts := seq(numTasks, _ => 0);
    leftReductions, rightReductions := seq(numTasks, _ => identity), seq(numTasks, _ => identity);
    PermutesSelf(a[..], k.begin, k.end);
    var pending := Tasks(numTasks);
    while pending != {}
      invariant forall i :: i in pending ==> i < numTasks
      invariant |lefts| == |leftReductions| == |rightReductions| == numTasks
      invariant PermutesRange(old(a[..]), a[..], k.begin, k.end)
      invariant forall i: nat :: i < numTasks && i !in pending ==>
        SliceDone(k, Slice(a[..], k.begin, k.end, numTasks, i), identity, lefts[i], leftReductions[i], rightReductions[i])
    {
      var taskID: nat :| taskID in pending;
      ghost var s := a[..];
      var count, left, right := PartitionSlice(k, a, numTasks, taskID, identity);
      PermutesTrans(old(a[..]), s, a[..], k.begin, k.end, k.begin, k.end);
      lefts := lefts[taskID := count];
      leftReductions := leftReductions[taskID := left];
      rightReductions := rightReductions[taskID := right];
      pending := pending - {taskID};
    }
  }

  /** All slices are partitioned and reduced. */
  ghost predicate SlicesDone<V, T>(k: Job<V, T>, y: Layout, s: seq<T>, identity: V, ls: seq<V>, rs: seq<V>)
  {
    && y.begin == k.begin <= y.end == k.end <= |s|
    && 0 < y.tasks == |y.lefts| == |ls| == |rs|
    && forall i: nat :: i < y.tasks ==>
         SliceDone(k, Slice(s, y.begin, y.end, y.tasks, i), identity, y.lefts[i], ls[i], rs[i])
  }

  lemma SliceDoneAt<V, T>(k: Job<V, T>, y: Layout, s: seq<T>, identity: V, ls: seq<V>, rs: seq<V>, i: nat)
    requires SlicesDone(k, y, s, identity, ls, rs) && i < y.tasks
    ensures y.begin <= y.Start(i) <= y.Start(i) + y.lefts[i] <= y.Start(i + 1) <= y.end <= |s|
    ensures Split(s, k.isLeft, y.Start(i), y.Start(i) + y.lefts[i], y.Start(i + 1))
    ensures ls[i] == Fold(k.reduce, identity, s[y.Start(i)..y.Start(i) + y.lefts[i]])
    ensures rs[i] == FoldBack(k.reduce, identity, s[y.Start(i) + y.lefts[i]..y.Start(i + 1)])
  {
    hide TaskStart, Split, Fold, FoldBack, SliceDone;
    TaskSlices(i, y.end - y.begin, y.tasks);
    SliceOpen(k, s, y.Start(i), y.lefts[i], y.Start(i + 1), identity, ls[i], rs[i]);
  }

  lemma SliceOpen<V, T>(k: Job<V, T>, s: seq<T>, b: nat, m: nat, e: nat, identity: V, left: V, right: V)
    requires b <= e <= |s| && SliceDone(k, s[b..e], identity, m, left, right)
    ensures b + m <= e && Split(s, k.isLeft, b, b + m, e)
    ensures left == Fold(k.reduce, identity, s[b..b + m]) && right == FoldBack(k.reduce, identity, s[b + m..e])
  {
    hide Split, Fold, FoldBack;
    SplitBounds(s[b..e], k.isLeft, 0, m, e - b);
    SubSlices(s, b, b + m, e);
    SplitSlice(s, k.isLeft, b, b + m, e);
  }

  lemma AllSlicesSplit<V, T>(k: Job<V, T>, y: Layout, s: seq<T>, identity: V, ls: seq<V>, rs: seq<V>)
    requires SlicesDone(k, y, s, identity, ls, rs)
    ensures SlicesSplit(y, s, k.isLeft)
  {
    hide TaskStart, SliceDone;
    forall i: nat | i < y.tasks
      ensures y.lefts[i] <= y.Start(i + 1) - y.Start(i)
      ensures Split(s, k.isLeft, y.Start(i), y.Start(i) + y.lefts[i], y.Start(i + 1))
    {
      SliceDoneAt(k, y, s, identity, ls, rs, i);
    }
  }

  // ----- second phase: combine the reductions of the tasks

  /** merge continues a reduction that another task began at the identity. */
  ghost predicate Merges<V(!new), T(!new)>(reduce: (V, T) -> V, identity: V, merge: (V, V) -> V) {
    && Commutes(reduce)
    && forall v, s :: merge(v, Fold(reduce, identity, s)) == Fold(reduce, v, s)
  }

  lemma FilterSlice<T>(s: seq<T>, isLeft: T -> bool, a: nat, b: nat, m: nat, e: nat)
    requires a <= b && Split(s, isLeft, b, m, e)
    ensures Filter(isLeft, s[a..e]) == Filter(isLeft, s[a..b]) + s[b..m]
    ensures Filter(x => !isLeft(x), s[a..e]) == Filter(x => !isLeft(x), s[a..b]) + s[m..e]
  {
    hide Filter;
    FilterSplit(s, isLeft, b, m, e);
    assert s[a..e] == s[a..b] + s[b..e];
    FilterConcat(isLeft, s[a..b], s[b..e]);
    FilterConcat(x => !isLeft(x), s[a..b], s[b..e]);
  }

  method MergeReductions<V(!new), T(!new)>(k: Job<V, T>, ghost y: Layout, ghost s: seq<T>, ghost identity: V,
                                           merge: (V, V) -> V, left0: V, right0: V, ls: seq<V>, rs: seq<V>)
    returns (left: V, right: V)
    requires SlicesDone(k, y, s, identity, ls, rs)
    requires Merges(k.reduce, identity, merge)
    ensures left == Fold(k.reduce, left0, Filter(k.isLeft, s[y.begin..y.end]))
    ensures right == Fold(k.reduce, right0, Filter(x => !k.isLeft(x), s[y.begin..y.end]))
  {
    hide TaskStart, Filter, SliceDone, Fold, FoldBack, Commutes, Split, Slice;
    left, right := left0, right0;
    ghost var notLeft := x => !k.isLeft(x);
    TaskSlices(0, y.end - y.begin, y.tasks);
    FoldEmpty(k, left0, right0, s[y.begin..y.Start(0)]);
    for i := 0 to |ls|
      invariant y.begin <= y.Start(i) <= |s|
      invariant left == Fold(k.reduce, left0, Filter(k.isLeft, s[y.begin..y.Start(i)]))
      invariant right == Fold(k.reduce, right0, Filter(notLeft, s[y.begin..y.Start(i)]))
    {
      SliceDoneAt(k, y, s, identity, ls, rs, i);
      ghost var b, m, e := y.Start(i), y.Start(i) + y.lefts[i], y.Start(i + 1);
      FilterSlice(s, k.isLeft, y.begin, b, m, e);
      FoldBackIsFold(k.reduce, identity, s[m..e]);
      FoldConcat(k.reduce, left0, Filter(k.isLeft, s[y.begin..b]), s[b..m]);
      FoldConcat(k.reduce, right0, Filter(notLeft, s[y.begin..b]), s[m..e]);
      left, right := merge(left, ls[i]), merge(right, rs[i]);
    }
    TaskSlices(y.tasks - 1, y.end - y.begin, y.tasks);
  }

  lemma FoldEmpty<V, T>(k: Job<V, T>, left: V, right: V, s: seq<T>)
    requires s == []
    ensures Fold(k.reduce, left, Filter(k.isLeft, s)) == left
    ensures Fold(k.reduce, right, Filter(x => !k.isLeft(x), s)) == right
  {
  }

  // ----- third phase: list the misplaced elements

  lemma LayoutBounds(y: Layout)
    requires y.Valid()
    ensures y.begin <= y.end && 0 < y.tasks == |y.lefts|
  {
  }

  /** Leaving out an empty range does not change the listed indices. */
  lemma FlattenMore(rs: seq<Range>, r: Range)
    ensures Flatten(if r.Empty() then rs else rs + [r]) == Flatten(rs) + r.Indices()
  {
    FlattenAppend(rs, r);
  }

  lemma NoPositions(y: Layout)
    requires y.begin <= y.end && 0 < y.tasks
    ensures y.LeftPositions(0) == [] && y.RightPositions(0) == []
  {
  }

  lemma MorePositions(y: Layout, i: nat)
    requires y.begin <= y.end && 0 < y.tasks && i < |y.lefts|
    ensures y.LeftPositions(i + 1) == y.LeftPositions(i) + y.LeftMisplaced(i).Indices()
    ensures y.RightPositions(i + 1) == y.RightPositions(i) + y.RightMisplaced(i).Indices()
  {
    hide TaskStart, Sum, Layout.LeftMisplaced, Layout.RightMisplaced;
  }

  method CollectMisplaced(y: Layout) returns (lranges: seq<Range>, rranges: seq<Range>, items: nat)
    requires y.Valid()
    ensures (forall r :: r in lranges ==> !r.Empty()) && (forall r :: r in rranges ==> !r.Empty())
    ensures Flatten(lranges) == y.LeftPositions(y.tasks) && Flatten(rranges) == y.RightPositions(y.tasks)
    ensures items == |Flatten(lranges)| == |Flatten(rranges)|
  {
    hide TaskStart, Flatten, Sum, Layout.Valid, Layout.LeftMisplaced, Layout.RightMisplaced, Layout.LeftPositions, Layout.RightPositions,
      Layout.Start, Layout.Mid, Layout.Settled;
    LayoutBounds(y);
    lranges, rranges, items := [], [], 0;
    FlattenNone([]);
    NoPositions(y);
    for i := 0 to y.tasks
      invariant (forall r :: r in lranges ==> !r.Empty()) && (forall r :: r in rranges ==> !r.Empty())
      invariant Flatten(lranges) == y.LeftPositions(i) && Flatten(rranges) == y.RightPositions(i)
      invariant items == |Flatten(lranges)|
    {
      var leftMisplaced, rightMisplaced := y.LeftMisplaced(i), y.RightMisplaced(i);
      MorePositions(y, i);
      FlattenMore(lranges, leftMisplaced);
      FlattenMore(rranges, rightMisplaced);
      if !leftMisplaced.Empty() {
        items := items + leftMisplaced.Size();
        lranges := lranges + [leftMisplaced];
      }
      if !rightMisplaced.Empty() {
        rranges := rranges + [rightMisplaced];
      }
    }
    y.SameCount();
  }

  // ----- fourth phase: exchange them

  method ExchangeMisplaced<T>(a: array<T>, numTasks: nat, lranges: seq<Range>, rranges: seq<Range>, items: nat)
    returns (ghost done: set<int>)
    requires 0 < numTasks && 0 < items == |Flatten(lranges)|
    requires (forall r :: r in lranges ==> !r.Empty()) && (forall r :: r in rranges ==> !r.Empty())
    requires Pairs(a.Length, Flatten(lranges), Flatten(rranges))
    modifies a
    ensures After(old(a[..]), a[..], Flatten(lranges), Flatten(rranges), done)
    ensures forall k :: 0 <= k < items ==> k in done
  {
    hide After, Flatten, TaskStart, DoneTasks;
    DoneTasksNone(items, numTasks);
    ghost var s, ls, rs := a[..], Flatten(lranges), Flatten(rranges);
    done := {};
    AfterNothing(s, ls, rs);
    var pending := Tasks(numTasks);
    while pending != {}
      invariant forall i :: i in pending ==> i < numTasks
      invariant After(s, a[..], ls, rs, done)
      invariant DoneTasks(done, pending, items, numTasks)
    {
      var taskID: nat :| taskID in pending;
      var startID, endID := TaskStart(taskID, items, numTasks), TaskStart(taskID + 1, items, numTasks);
      TaskSlices(taskID, items, numTasks);
      DoneTasksStep(done, pending, items, numTasks, taskID);
      assert forall k :: startID <= k < endID ==> k in Interval(startID, endID);
      SwapItemsInMisplacedRanges(a, lranges, rranges, startID, endID, s, done);
      done := done + Interval(startID, endID);
      pending := pending - {taskID};
    }
    DoneTasksAll(done, items, numTasks);
  }

  // ----- all phases

  method Partitioning<V(!new), T(!new)>(k: Job<V, T>, a: array<T>, numTasks: nat, identity: V, merge: (V, V) -> V,
                                        left0: V, right0: V)
    returns (mid: nat, left: V, right: V)
    requires k.begin <= k.end <= a.Length && 0 < numTasks
    requires Merges(k.reduce, identity, merge)
    modifies a
    ensures Split(a[..], k.isLeft, k.begin, mid, k.end)
    ensures PermutesRange(old(a[..]), a[..], k.begin, k.end)
    ensures left == Fold(k.reduce, left0, a[k.begin..mid])
    ensures right == Fold(k.reduce, right0, a[mid..k.end])
  {
    hide SliceDone, PermutesRange, TaskStart, Slice, Split, Flatten, After, SlicesSplit, Pairs, Fold, Filter, Merges,
      Layout.Mid, Layout.LeftPositions, Layout.RightPositions;
    var lefts, ls, rs := PartitionSlices(k, a, numTasks, identity);
    var y := Layout(k.begin, k.end, numTasks, lefts);
    ghost var s := a[..];
    AllSlicesSplit(k, y, s, identity, ls, rs);
    LayoutValid(y, s, k.isLeft);
    left, right := MergeReductions(k, y, s, identity, merge, left0, right0, ls, rs);
    y.MidBounds();
    mid := y.Mid();
    y.ArePairs(a.Length);
    var lranges, rranges, items := CollectMisplaced(y);
    if items == 0 {
      AfterNothing(s, y.LeftPositions(y.tasks), y.RightPositions(y.tasks));
      ExchangedSplit(y, s, s, k.isLeft, {});
      PermutesSelf(s, k.begin, k.end);
    } else {
      ghost var done := ExchangeMisplaced(a, numTasks, lranges, rranges, items);
      ExchangedSplit(y, s, a[..], k.isLeft, done);
      ExchangedPermutes(y, s, a[..], done);
    }
    PermutesTrans(old(a[..]), s, a[..], k.begin, k.end, k.begin, k.end);
    ReductionsMatch(k, s, a[..], identity, merge, left0, right0, mid);
  }

  lemma LayoutValid<T>(y: Layout, s: seq<T>, isLeft: T -> bool)
    requires SlicesSplit(y, s, isLeft)
    ensures y.Valid()
  {
  }

  lemma ExchangedPermutes<T>(y: Layout, s: seq<T>, t: seq<T>, done: set<int>)
    requires y.Valid() && y.end <= |s|
    requires Pairs(|s|, y.LeftPositions(y.tasks), y.RightPositions(y.tasks))
    requires After(s, t, y.LeftPositions(y.tasks), y.RightPositions(y.tasks), done)
    ensures PermutesRange(s, t, y.begin, y.end)
  {
    hide TaskStart, Layout.LeftPositions, Layout.RightPositions;
    y.LeftPositionsIn(y.tasks);
    y.RightPositionsIn(y.tasks);
    y.StartBounds(y.tasks - 1);
    y.MidBounds();
  }

  /** The reductions do not depend on where the exchange moved the elements. */
  lemma ReductionsMatch<V(!new), T(!new)>(k: Job<V, T>, s: seq<T>, t: seq<T>, identity: V, merge: (V, V) -> V, left0: V,
                                          right0: V, mid: nat)
    requires Merges(k.reduce, identity, merge)
    requires PermutesRange(s, t, k.begin, k.end) && Split(t, k.isLeft, k.begin, mid, k.end)
    ensures Fold(k.reduce, left0, Filter(k.isLeft, s[k.begin..k.end])) == Fold(k.reduce, left0, t[k.begin..mid])
    ensures Fold(k.reduce, right0, Filter(x => !k.isLeft(x), s[k.begin..k.end]))
         == Fold(k.reduce, right0, t[mid..k.end])
  {
    hide Fold, Filter;
    PermutesSlice(s, t, k.begin, k.end);
    FilterSplit(t, k.isLeft, k.begin, mid, k.end);
    FilterPermutation(k.isLeft, s[k.begin..k.end], t[k.begin..k.end]);
    FilterPermutation(x => !k.isLeft(x), s[k.begin..k.end], t[k.begin..k.end]);
    FoldPermutation(k.reduce, left0, Filter(k.isLeft, s[k.begin..k.end]), t[k.begin..mid]);
    FoldPermutation(k.reduce, right0, Filter(x => !k.isLeft(x), s[k.begin..k.end]), t[mid..k.end]);
  }

  /** Small ranges are partitioned serially, others by min(blocks, threads, 64) tasks. */
  method ParallelPartitioning<V(!new), T(!new)>(k: Job<V, T>, a: array<T>, identity: V, merge: (V, V) -> V, left0: V,
                                                right0: V, blockSize: nat, threads: nat)
    returns (mid: nat, left: V, right: V)
    requires k.begin <= k.end <= a.Length && 0 < blockSize && 0 < threads
    requires Merges(k.reduce, identity, merge)
    modifies a
    ensures Split(a[..], k.isLeft, k.begin, mid, k.end)
    ensures PermutesRange(old(a[..]), a[..], k.begin, k.end)
    ensures left == Fold(k.reduce, left0, a[k.begin..mid])
    ensures right == Fold(k.reduce, right0, a[mid..k.end])
  {
    hide Fold, FoldBack, PermutesRange, Split;
    if k.end - k.begin < blockSize {
      mid, left, right := SerialPartitioning(k, a, left0, right0);
      SplitBounds(a[..], k.isLeft, k.begin, mid, k.end);
      FoldBackIsFold(k.reduce, right0, a[mid..k.end]);
    } else {
      var blocks := (k.end - k.begin + blockSize - 1) / blockSize;
      assert 0 < blocks;
      mid, left, right := Partitioning(k, a, Min(blocks, Min(threads, MAX_TASKS)), identity, merge, left0, right0);
    }
  }
}
