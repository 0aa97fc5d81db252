/** In-place partitioning of an array by a predicate, serially and by tasks
    that first partition slices of their own and then exchange the elements
    that ended up on the wrong side (rtbuild/algorithms/parallel_partition.h). */
module Partition {
  import opened Common

  // ----- rearrangements of a range

  /** t is s with the elements from b to e rearranged. */
  ghost predicate PermutesRange<T>(s: seq<T>, t: seq<T>, b: nat, e: nat) {
    && |s| == |t|
    && b <= e <= |s|
    && multiset(s) == multiset(t)
    && s[..b] == t[..b]
    && s[e..] == t[e..]
  }

  lemma MultisetSplit<T>(s: seq<T>, b: nat, e: nat)
    requires b <= e <= |s|
    ensures multiset(s) == multiset(s[..b]) + multiset(s[b..e]) + multiset(s[e..])
  {
    assert s == s[..b] + s[b..e] + s[e..];
  }

  lemma Cancel<T>(a: multiset<T>, x: multiset<T>, y: multiset<T>, b: multiset<T>)
    requires a + x + b == a + y + b
    ensures x == y
  {
    forall k: T
      ensures x[k] == y[k]
    {
      assert (a + x + b)[k] == (a + y + b)[k];
    }
  }

  lemma PermutesSlice<T>(s: seq<T>, t: seq<T>, b: nat, e: nat)
    requires PermutesRange(s, t, b, e)
    ensures multiset(s[b..e]) == multiset(t[b..e])
  {
    MultisetSplit(s, b, e);
    MultisetSplit(t, b, e);
    Cancel(multiset(s[..b]), multiset(s[b..e]), multiset(t[b..e]), multiset(s[e..]));
  }

  /** Rearranging a range twice rearranges any range around both. */
  lemma PermutesTrans<T>(s: seq<T>, t: seq<T>, u: seq<T>, b: nat, e: nat, b1: nat, e1: nat)
    requires PermutesRange(s, t, b, e) && PermutesRange(t, u, b1, e1)
    requires b <= b1 && e1 <= e
    ensures PermutesRange(s, u, b, e)
  {
    assert t[..b] == t[..b1][..b] == u[..b1][..b] == u[..b];
    assert t[e..] == t[e1..][e - e1..] == u[e1..][e - e1..] == u[e..];
  }

  lemma PermutesSwap<T>(s: seq<T>, t: seq<T>, b: nat, e: nat, i: nat, j: nat)
    requires b <= i < e <= |s| && b <= j < e
    requires t == s[i := s[j]][j := s[i]]
    ensures PermutesRange(s, t, b, e)
  {
  }

  /** What holds of all elements of a range still holds after rearranging a
      part of it. */
  lemma PermutesAll<T>(s: seq<T>, t: seq<T>, b: nat, e: nat, f: T -> bool)
    requires PermutesRange(s, t, b, e) && forall q :: b <= q < e ==> f(s[q])
    ensures forall q :: b <= q < e ==> f(t[q])
  {
    PermutesSlice(s, t, b, e);
    forall q | b <= q < e
      ensures f(t[q])
    {
      assert t[q] == t[b..e][q - b];
      assert t[q] in multiset(s[b..e]);
      assert t[q] in s[b..e];
    }
  }

  lemma PermutesOutside<T>(s: seq<T>, t: seq<T>, b: nat, e: nat, q: nat)
    requires PermutesRange(s, t, b, e) && q < |s| && (q < b || e <= q)
    ensures t[q] == s[q]
  {
    if q < b {
      assert t[q] == t[..b][q] == s[..b][q];
    } else {
      assert t[q] == t[e..][q - e] == s[e..][q - e];
    }
  }

  lemma PermutesLength<T>(s: seq<T>, t: seq<T>, b: nat, e: nat)
    requires PermutesRange(s, t, b, e)
    ensures |s| == |t| && b <= e <= |s|
  {
  }

  lemma PermutesSelf<T>(s: seq<T>, b: nat, e: nat)
    requires b <= e <= |s|
    ensures PermutesRange(s, s, b, e)
  {
  }

  method Exchange<T>(a: array<T>, i: nat, j: nat)
    requires i < a.Length && j < a.Length
    modifies a
    ensures a[..] == old(a[..])[i := old(a[j])][j := old(a[i])]
  {
    var x := a[i];
    a[i] := a[j];
    a[j] := x;
  }

  // ----- serial partitioning

  /** What a partitioning is asked to do: the predicate, the reduction and the
      range of the array. */
  datatype Job<!V, !T> = Job(isLeft: T -> bool, reduce: (V, T) -> V, begin: nat, end: nat)

  /** The elements from b to m satisfy the predicate, those from m to e do not. */
  ghost predicate Split<T>(s: seq<T>, isLeft: T -> bool, b: nat, m: nat, e: nat)
  {
    && b <= m <= e <= |s|
    && (forall i :: b <= i < m ==> isLeft(s[i]))
    && (forall i :: m <= i < e ==> !isLeft(s[i]))
  }

  lemma SplitBounds<T>(s: seq<T>, isLeft: T -> bool, b: nat, m: nat, e: nat)
    requires Split(s, isLeft, b, m, e)
    ensures b <= m <= e <= |s|
  {
  }

  /** State of the serial partitioning: the elements before l and from r on
      are placed and reduced into the initial values left0 and right0. */
  ghost predicate Placed<V, T>(k: Job<V, T>, s: seq<T>, left0: V, right0: V, l: nat, r: nat, left: V, right: V)
  {
    && k.begin <= l <= r <= k.end <= |s|
    && (forall i :: k.begin <= i < l ==> k.isLeft(s[i]))
    && (forall i :: r <= i < k.end ==> !k.isLeft(s[i]))
    && left == Fold(k.reduce, left0, s[k.begin..l])
    && right == FoldBack(k.reduce, right0, s[r..k.end])
  }

  lemma PlaceLeft<V, T>(k: Job<V, T>, s: seq<T>, left0: V, right0: V, l: nat, r: nat, left: V, right: V)
    requires Placed(k, s, left0, right0, l, r, left, right)
    requires l < r && k.isLeft(s[l])
    ensures Placed(k, s, left0, right0, l + 1, r, k.reduce(left, s[l]), right)
  {
    FoldAppend(k.reduce, left0, s[k.begin..l], s[l]);
    assert s[k.begin..l + 1] == s[k.begin..l] + [s[l]];
  }

  lemma PlaceRight<V, T>(k: Job<V, T>, s: seq<T>, left0: V, right0: V, l: nat, r: nat, left: V, right: V)
    requires Placed(k, s, left0, right0, l, r, left, right)
    requires l < r && !k.isLeft(s[r - 1])
    ensures Placed(k, s, left0, right0, l, r - 1, left, k.reduce(right, s[r - 1]))
  {
    FoldBackPrepend(k.reduce, right0, s[r - 1], s[r..k.end]);
    assert s[r - 1..k.end] == [s[r - 1]] + s[r..k.end];
  }

  lemma PlaceBoth<V, T>(k: Job<V, T>, s: seq<T>, t: seq<T>, left0: V, right0: V, l: nat, r: nat, left: V, right: V)
    requires Placed(k, s, left0, right0, l, r, left, right)
    requires l + 1 < r && !k.isLeft(s[l]) && k.isLeft(s[r - 1])
    requires t == s[l := s[r - 1]][r - 1 := s[l]]
    ensures Placed(k, t, left0, right0, l + 1, r - 1, k.reduce(left, s[r - 1]), k.reduce(right, s[l]))
  {
    assert t[k.begin..l] == s[k.begin..l] && t[r..k.end] == s[r..k.end];
    PlaceLeft(k, t, left0, right0, l, r, left, right);
    PlaceRight(k, t, left0, right0, l + 1, r, k.reduce(left, t[l]), right);
  }

  lemma PlacedNone<V, T>(k: Job<V, T>, s: seq<T>, left0: V, right0: V)
    requires k.begin <= k.end <= |s|
    ensures Placed(k, s, left0, right0, k.begin, k.end, left0, right0)
    ensures PermutesRange(s, s, k.begin, k.end)
  {
  }

  lemma PlacedAll<V, T>(k: Job<V, T>, s: seq<T>, left0: V, right0: V, l: nat, r: nat, left: V, right: V)
    requires Placed(k, s, left0, right0, l, r, left, right) && r <= l
    ensures Split(s, k.isLeft, k.begin, l, k.end)
    ensures left == Fold(k.reduce, left0, s[k.begin..l]) && right == FoldBack(k.reduce, right0, s[l..k.end])
  {
  }

  /** Advances the left pointer over elements that are already placed. */
  method SkipLeft<V, T>(k: Job<V, T>, a: array<T>, ghost left0: V, ghost right0: V, l0: nat, r: nat, left1: V,
                        ghost right: V)
    returns (l: nat, left: V)
    requires k.end <= a.Length
    requires Placed(k, a[..], left0, right0, l0, r, left1, right)
    ensures Placed(k, a[..], left0, right0, l, r, left, right)
    ensures l0 <= l && (l < r ==> !k.isLeft(a[l]))
  {
    l, left := l0, left1;
    while l < r && k.isLeft(a[l])
      invariant l0 <= l <= r
      invariant Placed(k, a[..], left0, right0, l, r, left, right)
    {
      PlaceLeft(k, a[..], left0, right0, l, r, left, right);
      left := k.reduce(left, a[l]);
      l := l + 1;
    }
  }

  /** Moves the right pointer down over elements that are already placed. */
  method SkipRight<V, T>(k: Job<V, T>, a: array<T>, ghost left0: V, ghost right0: V, l: nat, r0: nat, ghost left: V,
                         right1: V)
    returns (r: nat, right: V)
    requires k.end <= a.Length
    requires Placed(k, a[..], left0, right0, l, r0, left, right1)
    ensures Placed(k, a[..], left0, right0, l, r, left, right)
    ensures r <= r0 && (l < r ==> k.isLeft(a[r - 1]))
  {
    r, right := r0, right1;
    while l < r && !k.isLeft(a[r - 1])
      invariant l <= r <= r0
      invariant Placed(k, a[..], left0, right0, l, r, left, right)
    {
      PlaceRight(k, a[..], left0, right0, l, r, left, right);
      right := k.reduce(right, a[r - 1]);
      r := r - 1;
    }
  }

  /** Exchanges a right and a left element, which are then both placed. */
  method ExchangeEnds<V, T>(k: Job<V, T>, a: array<T>, ghost left0: V, ghost right0: V, l: nat, r: nat, left1: V, right1: V)
    returns (left: V, right: V)
    requires Placed(k, a[..], left0, right0, l, r, left1, right1) && l + 1 < r && !k.isLeft(a[l]) && k.isLeft(a[r - 1])
    modifies a
    ensures Placed(k, a[..], left0, right0, l + 1, r - 1, left, right)
    ensures PermutesRange(old(a[..]), a[..], k.begin, k.end)
  {
    hide Placed, PermutesRange;
    PlacedBounds(k, a[..], left0, right0, l, r, left1, right1);
    ghost var s := a[..];
    Exchange(a, l, r - 1);
    PermutesSwap(s, a[..], k.begin, k.end, l, r - 1);
    PlaceBoth(k, s, a[..], left0, right0, l, r, left1, right1);
    left, right := k.reduce(left1, a[l]), k.reduce(right1, a[r - 1]);
  }

  method SerialPartitioning<V, T>(k: Job<V, T>, a: array<T>, left0: V, right0: V)
    returns (mid: nat, left: V, right: V)
    requires k.begin <= k.end <= a.Length
    modifies a
    ensures Split(a[..], k.isLeft, k.begin, mid, k.end)
    ensures PermutesRange(old(a[..]), a[..], k.begin, k.end)
    ensures left == Fold(k.reduce, left0, a[k.begin..mid])
    ensures right == FoldBack(k.reduce, right0, a[mid..k.end])
  {
    hide Placed, PermutesRange;
    // r is one past the source's right pointer
    var l, r := k.begin, k.end;
    left, right := left0, right0;
    PlacedNone(k, a[..], left0, right0);
    while true
      invariant 0 <= l <= r
      invariant Placed(k, a[..], left0, right0, l, r, left, right)
      invariant PermutesRange(old(a[..]), a[..], k.begin, k.end)
      decreases r - l
    {
      l, left := SkipLeft(k, a, left0, right0, l, r, left, right);
      r, right := SkipRight(k, a, left0, right0, l, r, left, right);
      PlacedBounds(k, a[..], left0, right0, l, r, left, right);
      if r <= l {
        break;
      }
      ghost var s := a[..];
      left, right := ExchangeEnds(k, a, left0, right0, l, r, left, right);
      PermutesTrans(old(a[..]), s, a[..], k.begin, k.end, k.begin, k.end);
      l, r := l + 1, r - 1;
    }
    mid := l;
    PlacedAll(k, a[..], left0, right0, l, r, left, right);
  }

  lemma PlacedBounds<V, T>(k: Job<V, T>, s: seq<T>, left0: V, right0: V, l: nat, r: nat, left: V, right: V)
    requires Placed(k, s, left0, right0, l, r, left, right)
    ensures k.begin <= l <= r <= k.end <= |s|
  {
  }

  // ----- ranges of misplaced elements

  datatype Range = Range(begin: int, end: int) {
    function Size(): int {
      end - begin
    }

    predicate Empty() {
      end <= begin
    }

    function Intersect(r: Range): Range {
      Range(Max(begin, r.begin), Min(end, r.end))
    }

    /** The indices of the range in ascending order. */
    function Indices(): (s: seq<int>)
      ensures |s| == Max(0, Size())
      ensures forall i :: 0 <= i < |s| ==> s[i] == begin + i
    {
      if Empty() then [] else seq(end - begin, (i: nat) => begin + i)
    }
  }

  /** The indices of all ranges, one range after the other. */
  function Flatten(rs: seq<Range>): seq<int> {
    if rs == [] then [] else Flatten(rs[..|rs| - 1]) + rs[|rs| - 1].Indices()
  }

  lemma FlattenAppend(rs: seq<Range>, r: Range)
    ensures Flatten(rs + [r]) == Flatten(rs) + r.Indices()
  {
    assert (rs + [r])[..|rs|] == rs;
  }

  /** The indices of range i stand together in the flattened list. */
  lemma {:induction false} FlattenAt(rs: seq<Range>, i: nat)
    requires i < |rs|
    ensures Flatten(rs[..i + 1]) == Flatten(rs[..i]) + rs[i].Indices()
    ensures Flatten(rs[..i + 1]) <= Flatten(rs)
    decreases rs
  {
    hide Flatten;
    var n := |rs| - 1;
    assert rs[..i + 1] == rs[..i] + [rs[i]];
    FlattenAppend(rs[..i], rs[i]);
    if i < n {
      FlattenAt(rs[..n], i);
      assert rs[..n][..i + 1] == rs[..i + 1];
      assert rs == rs[..n] + [rs[n]];
      FlattenAppend(rs[..n], rs[n]);
      PrefixGrows(Flatten(rs[..i + 1]), Flatten(rs[..n]), rs[n].Indices());
    } else {
      assert rs[..i + 1] == rs;
    }
  }

  lemma PrefixGrows<T>(a: seq<T>, b: seq<T>, c: seq<T>)
    requires a <= b
    ensures a <= b + c
  {
  }

  lemma FlattenIndex(rs: seq<Range>, i: nat, x: nat)
    requires i < |rs| && x < rs[i].Size()
    ensures |Flatten(rs[..i])| + x < |Flatten(rs)|
    ensures Flatten(rs)[|Flatten(rs[..i])| + x] == rs[i].begin + x
  {
    FlattenAt(rs, i);
    assert Flatten(rs)[|Flatten(rs[..i])| + x] == Flatten(rs[..i + 1])[|Flatten(rs[..i])| + x];
  }

  lemma FlattenNone(rs: seq<Range>)
    ensures |rs| == 0 ==> |Flatten(rs)| == 0
    ensures |Flatten(rs[..0])| == 0
  {
  }

  lemma FlattenWhole(rs: seq<Range>, i: nat)
    requires i <= |rs|
    ensures i == |rs| ==> Flatten(rs[..i]) == Flatten(rs)
  {
    if i == |rs| {
      assert rs[..i] == rs;
    }
  }

  method FindStartRange(index: nat, rs: seq<Range>) returns (i: nat, rest: nat)
    requires forall r :: r in rs ==> !r.Empty()
    requires index < |Flatten(rs)|
    ensures i < |rs| && rest < rs[i].Size()
    ensures index == |Flatten(rs[..i])| + rest
  {
    hide Flatten;
    i, rest := 0, index;
    FlattenNone(rs);
    FlattenWhole(rs, |rs|);
    while rest >= rs[i].Size()
      invariant i < |rs|
      invariant index == |Flatten(rs[..i])| + rest
      decreases |rs| - i
    {
      FlattenAt(rs, i);
      rest := rest - rs[i].Size();
      i := i + 1;
    }
  }

  // ----- exchanging misplaced elements

  /** The k-th exchange swaps the elements at ls[k] and rs[k]; no index is
      touched by two exchanges. */
  ghost predicate Pairs(n: nat, ls: seq<int>, rs: seq<int>) {
    && |ls| == |rs|
    && (forall k :: 0 <= k < |ls| ==> 0 <= ls[k] < n && 0 <= rs[k] < n)
    && (forall i, j :: 0 <= i < j < |ls| ==> ls[i] != ls[j] && rs[i] != rs[j])
    && (forall i, j :: 0 <= i < |ls| && 0 <= j < |ls| ==> ls[i] != rs[j])
  }

  /** t is s after exactly the exchanges in done. */
  ghost predicate After<T>(s: seq<T>, t: seq<T>, ls: seq<int>, rs: seq<int>, done: set<int>)
    requires Pairs(|s|, ls, rs)
  {
    && |t| == |s|
    && multiset(t) == multiset(s)
    && (forall k :: 0 <= k < |ls| ==> t[ls[k]] == if k in done then s[rs[k]] else s[ls[k]])
    && (forall k :: 0 <= k < |ls| ==> t[rs[k]] == if k in done then s[ls[k]] else s[rs[k]])
    && (forall p :: 0 <= p < |s| && p !in ls && p !in rs ==> t[p] == s[p])
  }

  lemma AfterOne<T>(s: seq<T>, t: seq<T>, u: seq<T>, ls: seq<int>, rs: seq<int>, done: set<int>, k: nat)
    requires Pairs(|s|, ls, rs) && k < |ls| && k !in done
    requires After(s, t, ls, rs, done)
    requires u == t[ls[k] := t[rs[k]]][rs[k] := t[ls[k]]]
    ensures After(s, u, ls, rs, done + {k})
  {
    PermutesSwap(t, u, 0, |t|, ls[k], rs[k]);
    forall j | 0 <= j < |ls|
      ensures u[ls[j]] == if j in done + {k} then s[rs[j]] else s[ls[j]]
      ensures u[rs[j]] == if j in done + {k} then s[ls[j]] else s[rs[j]]
    {
      assert ls[j] != rs[k] && rs[j] != ls[k];
      if j != k {
        assert ls[j] != ls[k] && rs[j] != rs[k];
      }
    }
  }

  /** Performs the exchanges one at a time in the given order. */
  ghost function InOrder<T>(s: seq<T>, ls: seq<int>, rs: seq<int>, order: seq<int>): (t: seq<T>)
    requires Pairs(|s|, ls, rs)
    requires forall i :: 0 <= i < |order| ==> 0 <= order[i] < |ls|
    ensures |t| == |s|
  {
    if order == [] then s else
      var t := InOrder(s, ls, rs, order[..|order| - 1]);
      var k := order[|order| - 1];
      t[ls[k] := t[rs[k]]][rs[k] := t[ls[k]]]
  }

  lemma {:induction false} InOrderAfter<T>(s: seq<T>, ls: seq<int>, rs: seq<int>, order: seq<int>)
    requires Pairs(|s|, ls, rs)
    requires forall i :: 0 <= i < |order| ==> 0 <= order[i] < |ls|
    requires forall i, j :: 0 <= i < j < |order| ==> order[i] != order[j]
    ensures After(s, InOrder(s, ls, rs, order), ls, rs, set k | k in order)
  {
    hide After;
    if order == [] {
      AfterNothing(s, ls, rs);
      assert (set k | k in order) == {};
    } else {
      var n := |order| - 1;
      InOrderAfter(s, ls, rs, order[..n]);
      LastOf(order, n);
      AfterOne(s, InOrder(s, ls, rs, order[..n]), InOrder(s, ls, rs, order), ls, rs, (set k | k in order[..n]), order[n]);
    }
  }

  lemma AfterNothing<T>(s: seq<T>, ls: seq<int>, rs: seq<int>)
    requires Pairs(|s|, ls, rs)
    ensures After(s, s, ls, rs, {})
  {
  }

  lemma LastOf(order: seq<int>, n: nat)
    requires |order| == n + 1
    ensures (set k | k in order) == (set k | k in order[..n]) + {order[n]}
  {
    assert order == order[..n] + [order[n]];
  }

  lemma AfterUnique<T>(s: seq<T>, t: seq<T>, u: seq<T>, ls: seq<int>, rs: seq<int>, done: set<int>)
    requires Pairs(|s|, ls, rs)
    requires After(s, t, ls, rs, done) && After(s, u, ls, rs, done)
    ensures t == u
  {
    forall p | 0 <= p < |s|
      ensures t[p] == u[p]
    {
      if p in ls {
        var k :| 0 <= k < |ls| && ls[k] == p;
      } else if p in rs {
        var k :| 0 <= k < |rs| && rs[k] == p;
      }
    }
  }

  /** Tasks may interleave their exchanges in any way: two schedules that
      perform the same exchanges, each once, leave the same array. */
  lemma AnySchedule<T>(s: seq<T>, ls: seq<int>, rs: seq<int>, order: seq<int>, order1: seq<int>)
    requires Pairs(|s|, ls, rs)
    requires forall i :: 0 <= i < |order| ==> 0 <= order[i] < |ls|
    requires forall i, j :: 0 <= i < j < |order| ==> order[i] != order[j]
    requires forall i :: 0 <= i < |order1| ==> 0 <= order1[i] < |ls|
    requires forall k :: k in order <==> k in order1
    requires forall i, j :: 0 <= i < j < |order1| ==> order1[i] != order1[j]
    ensures InOrder(s, ls, rs, order) == InOrder(s, ls, rs, order1)
  {
    InOrderAfter(s, ls, rs, order);
    InOrderAfter(s, ls, rs, order1);
    assert (set k | k in order) == (set k | k in order1);
    AfterUnique(s, InOrder(s, ls, rs, order), InOrder(s, ls, rs, order1), ls, rs, set k | k in order);
  }

  // ----- the exchanges of one task

  /** The pointer p stands at index k of the flattened ranges, in range i, with
      `rest` elements of that range still ahead. */
  ghost predicate Cursor(rs: seq<Range>, i: nat, rest: nat, p: int, k: nat) {
    && i < |rs|
    && rest <= rs[i].Size()
    && p == rs[i].end - rest
    && k + rest == |Flatten(rs[..i + 1])|
  }

  lemma CursorAt(rs: seq<Range>, i: nat, rest: nat, p: int, k: nat)
    requires Cursor(rs, i, rest, p, k) && 0 < rest
    ensures k < |Flatten(rs)| && Flatten(rs)[k] == p
    ensures Cursor(rs, i, rest - 1, p + 1, k + 1)
  {
    FlattenAt(rs, i);
    FlattenIndex(rs, i, k - |Flatten(rs[..i])|);
  }

  lemma CursorNext(rs: seq<Range>, i: nat, p: int, k: nat)
    requires Cursor(rs, i, 0, p, k) && k < |Flatten(rs)|
    requires forall r :: r in rs ==> !r.Empty()
    ensures i + 1 < |rs| && 0 < rs[i + 1].Size()
    ensures Cursor(rs, i + 1, rs[i + 1].Size(), rs[i + 1].begin, k)
  {
    FlattenWhole(rs, i + 1);
    FlattenAt(rs, i + 1);
  }

  lemma CursorStart(rs: seq<Range>, i: nat, rest: nat, index: nat)
    requires i < |rs| && rest < rs[i].Size() && index == |Flatten(rs[..i])| + rest
    ensures Cursor(rs, i, rs[i].Size() - rest, rs[i].begin + rest, index)
  {
    FlattenAt(rs, i);
  }

  /** Exchanges `items` elements from l on with those from r on. */
  lemma NotBefore(done: set<int>, startID: nat, k: nat, end: nat)
    requires startID <= k < end && forall i :: startID <= i < end ==> i !in done
    ensures k !in done + Interval(startID, k) && done + Interval(startID, k) + {k} == done + Interval(startID, k + 1)
  {
  }

  /** Exchanges pair k. */
  method SwapOne<T>(a: array<T>, l: int, r: int, ghost s: seq<T>, ghost ls: seq<int>, ghost rs: seq<int>, ghost done: set<int>, ghost k: nat)
    requires |s| == a.Length && Pairs(|s|, ls, rs) && k < |ls| == |rs| && ls[k] == l && rs[k] == r && k !in done
    requires After(s, a[..], ls, rs, done)
    modifies a
    ensures After(s, a[..], ls, rs, done + {k})
  {
    hide After;
    ghost var t := a[..];
    Exchange(a, l, r);
    AfterOne(s, t, a[..], ls, rs, done, k);
  }

  method SwapRun<T>(a: array<T>, l0: int, r0: int, items0: nat, ghost lranges: seq<Range>, ghost rranges: seq<Range>,
                    ghost li: nat, ghost ri: nat, ghost lrest: nat, ghost rrest: nat, ghost startID: nat,
                    ghost end: nat, ghost s: seq<T>, ghost done: set<int>)
    returns (l: int, r: int)
    requires |s| == a.Length && Pairs(|s|, Flatten(lranges), Flatten(rranges))
    requires startID <= end - items0
    requires Cursor(lranges, li, lrest + items0, l0, end - items0)
    requires Cursor(rranges, ri, rrest + items0, r0, end - items0)
    requires After(s, a[..], Flatten(lranges), Flatten(rranges), done + Interval(startID, end - items0))
    requires forall k :: startID <= k < end ==> k !in done
    modifies a
    ensures Cursor(lranges, li, lrest, l, end) && Cursor(rranges, ri, rrest, r, end)
    ensures After(s, a[..], Flatten(lranges), Flatten(rranges), done + Interval(startID, end))
  {
    hide After, Cursor, Flatten;
    ghost var ls, rs := Flatten(lranges), Flatten(rranges);
    l, r := l0, r0;
    var items := items0;
    while items != 0
      invariant 0 <= items <= items0
      invariant Cursor(lranges, li, lrest + items, l, end - items) && Cursor(rranges, ri, rrest + items, r, end - items)
      invariant After(s, a[..], ls, rs, done + Interval(startID, end - items))
    {
      ghost var k := end - items;
      ghost var before := done + Interval(startID, k);
      CursorAt(lranges, li, lrest + items, l, k);
      CursorAt(rranges, ri, rrest + items, r, k);
      NotBefore(done, startID, k, end);
      SwapOne(a, l, r, s, ls, rs, before, k);
      items := items - 1;
      l, r := l + 1, r + 1;
    }
  }

  method SwapItemsInMisplacedRanges<T>(a: array<T>, lranges: seq<Range>, rranges: seq<Range>, startID: nat,
                                       endID: nat, ghost s: seq<T>, ghost done: set<int>)
    requires (forall r :: r in lranges ==> !r.Empty()) && (forall r :: r in rranges ==> !r.Empty())
    requires |s| == a.Length && Pairs(|s|, Flatten(lranges), Flatten(rranges))
    requires startID <= endID <= |Flatten(lranges)| && startID < |Flatten(lranges)|
    requires After(s, a[..], Flatten(lranges), Flatten(rranges), done)
    requires forall k :: startID <= k < endID ==> k !in done
    modifies a
    ensures After(s, a[..], Flatten(lranges), Flatten(rranges), done + Interval(startID, endID))
  {
    hide After, Cursor, Flatten;
    ghost var ls, rs := Flatten(lranges), Flatten(rranges);
    var li, loffset := FindStartRange(startID, lranges);
    var ri, roffset := FindStartRange(startID, rranges);
    CursorStart(lranges, li, loffset, startID);
    CursorStart(rranges, ri, roffset, startID);
    var lrest, rrest := lranges[li].Size() - loffset, rranges[ri].Size() - roffset;
    var l, r := lranges[li].begin + loffset, rranges[ri].begin + roffset;
    var size := endID - startID;
    var items := Min(size, Min(lrest, rrest));
    assert done + Interval(startID, startID) == done;
    while size != 0
      invariant 0 <= size <= endID - startID && 0 <= lrest && 0 <= rrest
      invariant items == Min(size, Min(lrest, rrest))
      invariant li < |lranges| && ri < |rranges|
      invariant Cursor(lranges, li, lrest, l, endID - size) && Cursor(rranges, ri, rrest, r, endID - size)
      invariant After(s, a[..], ls, rs, done + Interval(startID, endID - size))
      decreases size
    {
      if lrest == 0 {
        CursorNext(lranges, li, l, endID - size);
        li := li + 1;
        lrest := lranges[li].Size();
        l := lranges[li].begin;
        items := Min(size, Min(lrest, rrest));
      }
      if rrest == 0 {
        CursorNext(rranges, ri, r, endID - size);
        ri := ri + 1;
        rrest := rranges[ri].Size();
        r := rranges[ri].begin;
        items := Min(size, Min(lrest, rrest));
      }
      size, lrest, rrest := size - items, lrest - items, rrest - items;
      l, r := SwapRun(a, l, r, items, lranges, rranges, li, ri, lrest, rrest, startID, endID - size, s, done);
      items := 0;
    }
  }
}
