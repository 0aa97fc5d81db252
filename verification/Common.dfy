/** Definitions shared by the modules of the project: sums, folds, index
    functions over sequences and the way a loop of `parallel_for` is split
    into tasks. */
module Common {

  /** No parallel loop is split into more tasks. */
  const MAX_TASKS: nat := 64

  datatype Option<+T> = None | Some(value: T)

  function Min(a: int, b: int): int {
    if a <= b then a else b
  }

  function Max(a: int, b: int): int {
    if a >= b then a else b
  }

  /** The integers from a to b, b excluded. */
  ghost function Interval(a: int, b: int): (s: set<int>)
    ensures forall k :: k in s <==> a <= k < b
    decreases b - a
  {
    if b <= a then {} else Interval(a, b - 1) + {b - 1}
  }

  function Sum(s: seq<int>): int {
    if s == [] then 0 else Sum(s[..|s| - 1]) + s[|s| - 1]
  }

  lemma SumPrefix(s: seq<int>, i: nat)
    requires i < |s|
    ensures Sum(s[..i + 1]) == Sum(s[..i]) + s[i]
  {
    assert s[..i + 1][..i] == s[..i];
  }

  lemma {:induction false} SumUpdate(s: seq<int>, i: nat, x: int)
    requires i < |s|
    ensures Sum(s[i := x]) == Sum(s) - s[i] + x
  {
    var n := |s| - 1;
    if i == n {
      assert s[i := x][..n] == s[..n];
    } else {
      SumUpdate(s[..n], i, x);
      assert s[i := x][..n] == s[..n][i := x];
    }
  }

  /** The sum of naturals. */
  function Total(lens: seq<nat>): nat {
    if lens == [] then 0 else Total(lens[..|lens| - 1]) + lens[|lens| - 1]
  }

  lemma {:induction false} TotalMono(lens: seq<nat>, t: nat, u: nat)
    requires t < u <= |lens|
    ensures Total(lens[..t]) + lens[t] <= Total(lens[..u]) <= Total(lens)
    decreases |lens| - t, u
  {
    assert lens[..t + 1][..t] == lens[..t];
    TotalPrefix(lens, u);
    if t + 1 < u {
      TotalMono(lens, t, u - 1);
      assert lens[..u][..u - 1] == lens[..u - 1];
    }
  }

  lemma {:induction false} TotalPrefix(lens: seq<nat>, u: nat)
    requires u <= |lens|
    ensures Total(lens[..u]) <= Total(lens)
    decreases |lens| - u
  {
    if u == |lens| {
      assert lens[..u] == lens;
    } else {
      TotalPrefix(lens, u + 1);
      assert lens[..u + 1][..u] == lens[..u];
    }
  }

  /** The slots of one task end before those of the last. */
  lemma SlotsFit(lens: seq<nat>, t: nat)
    requires t < |lens|
    ensures Total(lens[..t]) + lens[t] <= Total(lens)
  {
    TotalMono(lens, t, |lens|);
  }

  /** Applies f to every element. */
  function Map<T, U>(f: T -> U, s: seq<T>): (r: seq<U>)
    ensures |r| == |s| && forall i :: 0 <= i < |s| ==> r[i] == f(s[i])
  {
    seq(|s|, i requires 0 <= i < |s| => f(s[i]))
  }

  lemma MapConcat<T, U>(f: T -> U, s: seq<T>, t: seq<T>)
    ensures Map(f, s + t) == Map(f, s) + Map(f, t)
  {
  }

  /** Reduces the elements of s into v from left to right. */
  function Fold<V, T>(f: (V, T) -> V, v: V, s: seq<T>): V {
    if s == [] then v else f(Fold(f, v, s[..|s| - 1]), s[|s| - 1])
  }

  /** Reduces the elements of s into v from right to left. */
  function FoldBack<V, T>(f: (V, T) -> V, v: V, s: seq<T>): V {
    if s == [] then v else f(FoldBack(f, v, s[1..]), s[0])
  }

  lemma FoldAppend<V, T>(f: (V, T) -> V, v: V, s: seq<T>, x: T)
    ensures Fold(f, v, s + [x]) == f(Fold(f, v, s), x)
  {
    assert (s + [x])[..|s|] == s;
  }

  lemma FoldBackPrepend<V, T>(f: (V, T) -> V, v: V, x: T, s: seq<T>)
    ensures FoldBack(f, v, [x] + s) == f(FoldBack(f, v, s), x)
  {
    assert ([x] + s)[1..] == s;
  }

  lemma {:induction false} FoldConcat<V, T>(f: (V, T) -> V, v: V, s: seq<T>, t: seq<T>)
    ensures Fold(f, v, s + t) == Fold(f, Fold(f, v, s), t)
  {
    if t == [] {
      assert s + t == s;
    } else {
      var n := |t| - 1;
      FoldConcat(f, v, s, t[..n]);
      assert (s + t)[..|s + t| - 1] == s + t[..n];
    }
  }

  /** The order in which a reduction meets two elements does not matter. */
  ghost predicate Commutes<V(!new), T(!new)>(f: (V, T) -> V) {
    forall v, x, y :: f(f(v, x), y) == f(f(v, y), x)
  }

  lemma {:induction false} FoldPull<V(!new), T(!new)>(f: (V, T) -> V, v: V, s: seq<T>, i: nat)
    requires Commutes(f) && i < |s|
    ensures Fold(f, v, s) == f(Fold(f, v, s[..i] + s[i + 1..]), s[i])
  {
    var n := |s| - 1;
    if i == n {
      assert s[..i] + s[i + 1..] == s[..n];
    } else {
      FoldPull(f, v, s[..n], i);
      var r := s[..i] + s[i + 1..];
      assert r[..|r| - 1] == s[..n][..i] + s[..n][i + 1..];
      assert r[|r| - 1] == s[n];
      assert f(f(Fold(f, v, r[..|r| - 1]), s[i]), s[n]) == f(f(Fold(f, v, r[..|r| - 1]), s[n]), s[i]);
    }
  }

  lemma RemoveOne<T>(s: seq<T>, i: nat)
    requires i < |s|
    ensures multiset(s[..i] + s[i + 1..]) == multiset(s) - multiset{s[i]}
  {
    assert s == s[..i] + [s[i]] + s[i + 1..];
  }

  /** Some element of t is x when the multisets agree that there is one. */
  lemma FindOne<T>(s: seq<T>, t: seq<T>, x: T) returns (i: nat)
    requires multiset(s) == multiset(t) && x in s
    ensures i < |t| && t[i] == x
  {
    assert x in multiset(t);
    i :| 0 <= i < |t| && t[i] == x;
  }

  lemma MapPull<T, U>(f: T -> U, s: seq<T>, i: nat)
    requires i < |s|
    ensures multiset(Map(f, s)) == multiset(Map(f, s[..i] + s[i + 1..])) + multiset{f(s[i])}
  {
    hide Map;
    var a, x, b := s[..i], [s[i]], s[i + 1..];
    assert s == a + x + b;
    MapConcat(f, a + x, b);
    MapConcat(f, a, x);
    MapConcat(f, a, b);
    assert Map(f, x) == [f(s[i])];
  }

  /** The image of a rearranged sequence is the image rearranged. */
  lemma {:induction false} MapPermutation<T, U>(f: T -> U, s: seq<T>, t: seq<T>)
    requires multiset(s) == multiset(t)
    ensures multiset(Map(f, s)) == multiset(Map(f, t))
    decreases |s|
  {
    hide Map;
    if s == [] {
      assert |multiset(t)| == 0;
      assert t == [];
    } else {
      var i := FindOne(s, t, s[0]);
      var s1, t1 := s[..0] + s[1..], t[..i] + t[i + 1..];
      RemoveOne(s, 0);
      RemoveOne(t, i);
      assert multiset(s1) == multiset(s) - multiset{s[0]} == multiset(t1);
      MapPermutation(f, s1, t1);
      MapPull(f, s, 0);
      MapPull(f, t, i);
    }
  }

  /** A commuting reduction depends only on the multiset of its elements. */
  lemma {:induction false} FoldPermutation<V(!new), T(!new)>(f: (V, T) -> V, v: V, s: seq<T>, t: seq<T>)
    requires Commutes(f) && multiset(s) == multiset(t)
    ensures Fold(f, v, s) == Fold(f, v, t)
  {
    if s == [] {
      assert |multiset(t)| == 0;
    } else {
      var n := |s| - 1;
      var i := FindOne(s, t, s[n]);
      RemoveOne(s, n);
      RemoveOne(t, i);
      assert s[..n] + s[n + 1..] == s[..n];
      FoldPermutation(f, v, s[..n], t[..i] + t[i + 1..]);
      FoldPull(f, v, t, i);
    }
  }

  lemma {:induction false} FoldBackIsFold<V(!new), T(!new)>(f: (V, T) -> V, v: V, s: seq<T>)
    requires Commutes(f)
    ensures FoldBack(f, v, s) == Fold(f, v, s)
  {
    if s != [] {
      FoldBackIsFold(f, v, s[1..]);
      FoldPull(f, v, s, 0);
      assert s[..0] + s[1..] == s[1..];
    }
  }

  /** The elements of s that satisfy f, in their order. */
  function Filter<T>(f: T -> bool, s: seq<T>): seq<T> {
    if s == [] then [] else
      var x := s[|s| - 1];
      Filter(f, s[..|s| - 1]) + if f(x) then [x] else []
  }

  lemma {:induction false} FilterConcat<T>(f: T -> bool, s: seq<T>, t: seq<T>)
    ensures Filter(f, s + t) == Filter(f, s) + Filter(f, t)
  {
    if t == [] {
      assert s + t == s;
    } else {
      var n := |t| - 1;
      FilterConcat(f, s, t[..n]);
      assert (s + t)[..|s + t| - 1] == s + t[..n];
    }
  }

  lemma {:induction false} FilterUniform<T>(f: T -> bool, s: seq<T>, b: bool)
    requires forall i :: 0 <= i < |s| ==> f(s[i]) == b
    ensures Filter(f, s) == if b then s else []
  {
    if s != [] {
      FilterUniform(f, s[..|s| - 1], b);
    }
  }

  lemma FilterPull<T>(f: T -> bool, s: seq<T>, i: nat)
    requires i < |s|
    ensures multiset(Filter(f, s)) == multiset(Filter(f, s[..i] + s[i + 1..])) + multiset(Filter(f, [s[i]]))
  {
    hide Filter;
    assert s == s[..i] + [s[i]] + s[i + 1..];
    FilterConcat(f, s[..i] + [s[i]], s[i + 1..]);
    FilterConcat(f, s[..i], [s[i]]);
    FilterConcat(f, s[..i], s[i + 1..]);
  }

  lemma {:induction false} FilterPermutation<T>(f: T -> bool, s: seq<T>, t: seq<T>)
    requires multiset(s) == multiset(t)
    ensures multiset(Filter(f, s)) == multiset(Filter(f, t))
    decreases |s|
  {
    hide Filter;
    if s == [] {
      assert |multiset(t)| == 0;
    } else {
      var i := FindOne(s, t, s[0]);
      RemoveOne(s, 0);
      RemoveOne(t, i);
      FilterPermutation(f, s[..0] + s[1..], t[..i] + t[i + 1..]);
      FilterPull(f, s, 0);
      FilterPull(f, t, i);
    }
  }

  /** First element of the slice that task t of `tasks` tasks works on. */
  function TaskStart(t: nat, n: nat, tasks: nat): (k: nat)
    requires 0 < tasks
  {
    t * n / tasks
  }

  /** The slices of all tasks tile the range from 0 to n. */
  lemma TaskSlices(t: nat, n: nat, tasks: nat)
    requires 0 < tasks && t < tasks
    ensures TaskStart(0, n, tasks) == 0
    ensures TaskStart(t, n, tasks) <= TaskStart(t + 1, n, tasks) <= TaskStart(tasks, n, tasks) == n
    ensures 0 < n ==> TaskStart(t, n, tasks) < n
    ensures tasks <= n ==> TaskStart(t, n, tasks) < TaskStart(t + 1, n, tasks)
  {
    DivUnique(0, tasks, 0);
    DivUnique(tasks * n, tasks, n);
    MulMono(t + 1, tasks, n);
    MulDistribute(t, n);
    SliceOrder(t * n, n, tasks * n, tasks);
  }

  lemma MulDistribute(t: nat, n: nat)
    ensures (t + 1) * n == t * n + n
  {
  }

  lemma SliceOrder(a: nat, n: nat, m: nat, d: nat)
    requires 0 < d && m == d * n && a + n <= m
    ensures a / d <= (a + n) / d <= n
    ensures 0 < n ==> a / d < n
    ensures d <= n ==> a / d < (a + n) / d
  {
    var q := DivFloor(a, d);
    var q1 := DivFloor(a + n, d);
    QuotientOrder(a, n, d, q, q1);
  }

  lemma QuotientOrder(a: nat, n: nat, d: nat, q: nat, q1: nat)
    requires 0 < d && a + n <= d * n
    requires q * d <= a < (q + 1) * d
    requires q1 * d <= a + n < (q1 + 1) * d
    ensures q <= q1 <= n
    ensures 0 < n ==> q < n
    ensures d <= n ==> q < q1
  {
    MulDistribute(n, d);
    MulLess(q, q1 + 1, d);
    MulLess(q1, n + 1, d);
    MulLess(q, n, d);
    if d <= n {
      MulDistribute(q, d);
      MulLess(q + 1, q1 + 1, d);
    }
  }

  lemma MulMono(a: nat, b: nat, n: nat)
    requires a <= b
    ensures a * n <= b * n
  {
    assert b * n == a * n + (b - a) * n;
  }

  /** Cancels a positive factor. */
  lemma MulLess(a: int, b: int, d: nat)
    ensures a * d < b * d ==> a < b
  {
    if b <= a {
      MulDiff(a, b, d);
    }
  }

  lemma MulDiff(a: int, b: int, d: nat)
    requires b <= a
    ensures b * d <= a * d
  {
    assert a * d == b * d + (a - b) * d;
  }

  lemma DivFloor(a: nat, d: nat) returns (q: nat)
    requires 0 < d
    ensures q == a / d
    ensures q * d <= a < (q + 1) * d
  {
    q := a / d;
    assert a == q * d + a % d;
  }

  lemma DivUnique(a: nat, d: nat, q: nat)
    requires 0 < d && q * d <= a < (q + 1) * d
    ensures a / d == q
  {
    var p := DivFloor(a, d);
    MulLess(p, q + 1, d);
    MulLess(q, p + 1, d);
  }

  lemma TaskSlicesMono(t: nat, u: nat, n: nat, tasks: nat)
    requires 0 < tasks && t <= u <= tasks
    ensures TaskStart(t, n, tasks) <= TaskStart(u, n, tasks) <= n
  {
    if t < u {
      TaskSlicesMono(t, u - 1, n, tasks);
      TaskSlices(u - 1, n, tasks);
    } else if 0 < t {
      TaskSlices(t - 1, n, tasks);
    } else {
      DivUnique(0, tasks, 0);
    }
  }

  /** Every index belongs to the slice of some task. */
  lemma TaskOf(k: nat, n: nat, tasks: nat) returns (t: nat)
    requires 0 < tasks && k < n
    ensures t < tasks && TaskStart(t, n, tasks) <= k < TaskStart(t + 1, n, tasks)
  {
    TaskSlices(0, n, tasks);
    t := 0;
    while TaskStart(t + 1, n, tasks) <= k
      invariant t < tasks && TaskStart(t, n, tasks) <= k
      decreases tasks - t
    {
      TaskSlices(t, n, tasks);
      t := t + 1;
    }
  }

  /** The tasks of a parallel loop; loops over them pick any order. */
  function Tasks(n: nat): (s: set<nat>)
    ensures forall i: nat :: i in s <==> i < n
  {
    if n == 0 then {} else Tasks(n - 1) + {n - 1}
  }

  /** done holds exactly the indices of the slices of the finished tasks. */
  ghost predicate DoneTasks(done: set<int>, pending: set<nat>, n: nat, tasks: nat)
    requires 0 < tasks
  {
    forall t: nat, k: int :: t < tasks && OfTask(k, t, n, tasks) ==> (k in done <==> t !in pending)
  }

  ghost predicate OfTask(k: int, t: nat, n: nat, tasks: nat)
    requires 0 < tasks
  {
    TaskStart(t, n, tasks) <= k < TaskStart(t + 1, n, tasks)
  }

  lemma DoneTasksStep(done: set<int>, pending: set<nat>, n: nat, tasks: nat, u: nat)
    requires 0 < tasks && u < tasks && u in pending && DoneTasks(done, pending, n, tasks)
    ensures forall k :: k in Interval(TaskStart(u, n, tasks), TaskStart(u + 1, n, tasks)) ==> k !in done
    ensures DoneTasks(done + Interval(TaskStart(u, n, tasks), TaskStart(u + 1, n, tasks)), pending - {u}, n, tasks)
  {
    hide TaskStart;
    var slice := Interval(TaskStart(u, n, tasks), TaskStart(u + 1, n, tasks));
    assert forall k: int :: k in slice <==> OfTask(k, u, n, tasks);
    forall t: nat, k: int | t < tasks && OfTask(k, t, n, tasks)
      ensures k in done + slice <==> t !in pending - {u}
    {
      if t < u {
        TaskSlicesMono(t + 1, u, n, tasks);
      } else if u < t {
        TaskSlicesMono(u + 1, t, n, tasks);
      }
    }
  }

  lemma DoneTasksAll(done: set<int>, n: nat, tasks: nat)
    requires 0 < tasks && DoneTasks(done, {}, n, tasks)
    ensures forall k :: 0 <= k < n ==> k in done
  {
    hide TaskStart;
    forall k | 0 <= k < n
      ensures k in done
    {
      var t := TaskOf(k, n, tasks);
      assert OfTask(k, t, n, tasks);
    }
  }

  lemma DoneTasksNone(n: nat, tasks: nat)
    requires 0 < tasks
    ensures DoneTasks({}, Tasks(tasks), n, tasks)
  {
  }
}
