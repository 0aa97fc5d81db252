/** In-place most-significant-digit radix sort: elements are moved to their
    bucket along cycles, then every bucket is sorted by the next digit
    (rtbuild/algorithms/parallel_sort.h, radixsort32). */
module MsdRadixSort {
  import opened Common
  import opened Partition
  import opened InsertionSort
  import opened RadixSort

  const CMP_SORT_THRESHOLD: nat := 16

  /** Where the buckets of a segment that begins at b start and end. */
  ghost predicate Bounds<T>(seg: seq<T>, d: T -> nat, b: nat, first: seq<nat>, tail: seq<nat>) {
    && |first| == |tail| == BUCKETS
    && (forall i: nat :: i < BUCKETS ==> first[i] == b + |Buckets(seg, d, i)|)
    && (forall i: nat :: i < BUCKETS ==> tail[i] == first[i] + |Bucket(seg, d, i)|)
  }

  /** The buckets stand one after the other and fill the segment. */
  lemma BoundsOrder<T>(seg: seq<T>, d: T -> nat, b: nat, first: seq<nat>, tail: seq<nat>)
    requires Bounds(seg, d, b, first, tail) && forall x :: x in seg ==> d(x) < BUCKETS
    ensures forall i: nat, j: nat :: i < j < BUCKETS ==> tail[i] <= first[j]
    ensures forall i: nat :: i < BUCKETS ==> b <= first[i] <= tail[i] <= b + |seg|
    ensures forall i: nat :: 0 < i < BUCKETS ==> first[i] == tail[i - 1]
    ensures first[0] == b && tail[BUCKETS - 1] == b + |seg|
  {
    hide Bucket, Buckets;
    StableSortPermutes(seg, d);
    BucketsNone(seg, d);
    BucketsNext(seg, d, BUCKETS - 1);
    forall i: nat | i < BUCKETS
      ensures tail[i] == b + |Buckets(seg, d, i + 1)| <= b + |seg|
    {
      BucketsNext(seg, d, i);
      BucketsPrefix(seg, d, i + 1, BUCKETS);
    }
    forall i: nat, j: nat | i < j < BUCKETS
      ensures tail[i] <= first[j]
    {
      BucketsPrefix(seg, d, i + 1, j);
    }
  }

  /** Every bucket is filled up to its head with elements that belong there. */
  ghost predicate Filled<T>(first: seq<nat>, tail: seq<nat>, s: seq<T>, d: T -> nat, head: seq<nat>) {
    && |head| == |first| == |tail| == BUCKETS
    && (forall i: nat :: i < BUCKETS ==> first[i] <= head[i] <= tail[i] <= |s|)
    && (forall i: nat, q: nat :: i < BUCKETS && first[i] <= q < head[i] ==> d(s[q]) == i)
  }

  // ----- there is room in the bucket an element belongs to

  lemma BucketHas<T>(t: seq<T>, d: T -> nat, c: nat, z: nat)
    requires z < |t| && d(t[z]) == c
    ensures 1 <= |Bucket(t, d, c)|
  {
    hide Bucket;
    BucketStep(t, d, c, z);
    BucketPrefix(t, d, c, z + 1);
  }

  lemma BucketWhole<T>(t: seq<T>, d: T -> nat, c: nat)
    requires forall q :: 0 <= q < |t| ==> d(t[q]) == c
    ensures |Bucket(t, d, c)| == |t|
  {
    FilterUniform(x => d(x) == c, t, true);
  }

  /** Elements x to y have digit c and so has another one at z. */
  lemma CountAtLeast<T>(t: seq<T>, d: T -> nat, c: nat, x: nat, y: nat, z: nat)
    requires x <= y <= |t| && z < |t| && (z < x || y <= z) && d(t[z]) == c
    requires forall q :: x <= q < y ==> d(t[q]) == c
    ensures y - x + 1 <= |Bucket(t, d, c)|
  {
    hide Bucket;
    var l, m, r := t[..x], t[x..y], t[y..];
    assert t == l + m + r;
    BucketConcat(l + m, r, d, c);
    BucketConcat(l, m, d, c);
    BucketWhole(m, d, c);
    if z < x {
      BucketHas(l, d, c, z);
    } else {
      BucketHas(r, d, c, z - y);
    }
  }

  lemma BucketSizePermutes<T>(s: seq<T>, t: seq<T>, d: T -> nat, c: nat)
    requires multiset(s) == multiset(t)
    ensures |Bucket(s, d, c)| == |Bucket(t, d, c)|
  {
    FilterPermutation(x => d(x) == c, s, t);
    assert |multiset(Bucket(s, d, c))| == |multiset(Bucket(t, d, c))|;
  }

  /** An element with digit c that is not in bucket c finds room there. */
  lemma HeadRoom<T>(seg: seq<T>, s: seq<T>, d: T -> nat, b: nat, e: nat, first: seq<nat>, tail: seq<nat>,
                    head: seq<nat>, h: nat, c: nat)
    requires b <= e <= |s| && multiset(seg) == multiset(s[b..e])
    requires forall x :: x in seg ==> d(x) < BUCKETS
    requires Bounds(seg, d, b, first, tail) && Filled(first, tail, s, d, head)
    requires b <= h < e && c < BUCKETS && d(s[h]) == c
    requires h < first[c] || tail[c] <= h
    ensures head[c] < tail[c]
  {
    hide Bucket, Buckets, Bounds, Filled;
    FilledAt(first, tail, s, d, head, c);
    BoundsAt(seg, d, b, first, tail, c);
    assert |seg| == |multiset(seg)| == |multiset(s[b..e])| == |s[b..e]| == e - b;
    assert s[b..e][h - b] == s[h];
    SegmentDigits(s, d, b, e, first[c], head[c], c);
    CountAtLeast(s[b..e], d, c, first[c] - b, head[c] - b, h - b);
    BucketSizePermutes(seg, s[b..e], d, c);
  }

  lemma FilledAt<T>(first: seq<nat>, tail: seq<nat>, s: seq<T>, d: T -> nat, head: seq<nat>, c: nat)
    requires Filled(first, tail, s, d, head) && c < BUCKETS
    ensures |head| == |first| == |tail| == BUCKETS && first[c] <= head[c] <= tail[c] <= |s|
    ensures forall q: nat :: first[c] <= q < head[c] ==> d(s[q]) == c
  {
  }

  lemma BoundsAt<T>(seg: seq<T>, d: T -> nat, b: nat, first: seq<nat>, tail: seq<nat>, c: nat)
    requires Bounds(seg, d, b, first, tail) && c < BUCKETS && forall x :: x in seg ==> d(x) < BUCKETS
    ensures |first| == |tail| == BUCKETS && tail[c] == first[c] + |Bucket(seg, d, c)|
    ensures b <= first[c] <= tail[c] <= b + |seg|
  {
    hide Bucket, Buckets;
    BoundsOrder(seg, d, b, first, tail);
  }

  lemma SegmentDigits<T>(s: seq<T>, d: T -> nat, b: nat, e: nat, x: nat, y: nat, c: nat)
    requires b <= x <= y <= e <= |s| && forall q: nat :: x <= q < y ==> d(s[q]) == c
    ensures forall q :: x - b <= q < y - b ==> d(s[b..e][q]) == c
  {
    forall q | x - b <= q < y - b
      ensures d(s[b..e][q]) == c
    {
      assert s[b..e][q] == s[q + b];
    }
  }

  /** Swapping the held element to the head of its bucket fills the bucket
      further. */
  lemma FillStep<T>(first: seq<nat>, tail: seq<nat>, s: seq<T>, d: T -> nat, head: seq<nat>, i: nat, c: nat)
    requires Filled(first, tail, s, d, head) && i < BUCKETS && c < BUCKETS && i != c
    requires forall i: nat, j: nat :: i < j < BUCKETS ==> tail[i] <= first[j]
    requires head[i] < tail[i] && head[c] < tail[c] && d(s[head[i]]) == c
    ensures Filled(first, tail, s[head[i] := s[head[c]]][head[c] := s[head[i]]], d, head[c := head[c] + 1])
  {
    var t := s[head[i] := s[head[c]]][head[c] := s[head[i]]];
    var head1 := head[c := head[c] + 1];
    forall j: nat, q: nat | j < BUCKETS && first[j] <= q < head1[j]
      ensures d(t[q]) == j
    {
      assert j < i ==> tail[j] <= first[i];
      assert i < j ==> tail[i] <= first[j];
      assert j < c ==> tail[j] <= first[c];
      assert c < j ==> tail[c] <= first[j];
    }
  }

  /** An element of bucket i at its head fills the bucket further. */
  lemma FillOwn<T>(first: seq<nat>, tail: seq<nat>, s: seq<T>, d: T -> nat, head: seq<nat>, i: nat)
    requires Filled(first, tail, s, d, head) && i < BUCKETS && head[i] < tail[i] && d(s[head[i]]) == i
    ensures Filled(first, tail, s, d, head[i := head[i] + 1])
  {
  }

  // ----- moving the elements along cycles

  ghost function HeadSum(head: seq<nat>): int {
    Sum(seq(|head|, i requires 0 <= i < |head| => head[i]))
  }

  lemma HeadSumStep(head: seq<nat>, i: nat, e: nat)
    requires i < |head| && forall j: nat :: j < |head| ==> head[j] <= e
    ensures HeadSum(head[i := head[i] + 1]) == HeadSum(head) + 1
    ensures HeadSum(head) <= |head| * e
  {
    var s: seq<int> := seq(|head|, j requires 0 <= j < |head| => head[j]);
    SumUpdate(s, i, head[i] + 1);
    assert s[i := head[i] + 1] == seq(|head|, j requires 0 <= j < |head| => head[i := head[i] + 1][j]);
    SumAtMost(s, e);
  }

  lemma {:induction false} SumAtMost(s: seq<int>, e: nat)
    requires forall j :: 0 <= j < |s| ==> s[j] <= e
    ensures Sum(s) <= |s| * e
  {
    if s != [] {
      SumAtMost(s[..|s| - 1], e);
      MulDistribute(|s| - 1, e);
    }
  }

  /** The segment with the held element v put back at h. */
  ghost predicate Cycling<T>(orig: seq<T>, s: seq<T>, d: T -> nat, b: nat, e: nat, first: seq<nat>, tail: seq<nat>,
                             head: seq<nat>)
  {
    && PermutesRange(orig, s, b, e)
    && (forall x :: x in orig[b..e] ==> d(x) < BUCKETS)
    && Bounds(orig[b..e], d, b, first, tail)
    && Filled(first, tail, s, d, head)
  }

  lemma CyclingBounds<T>(orig: seq<T>, s: seq<T>, d: T -> nat, b: nat, e: nat, first: seq<nat>, tail: seq<nat>,
                         head: seq<nat>)
    requires Cycling(orig, s, d, b, e, first, tail, head)
    ensures |head| == |first| == |tail| == BUCKETS && b <= e <= |s| == |orig|
    ensures forall i: nat :: i < BUCKETS ==> b <= first[i] <= head[i] <= tail[i] <= e
  {
    hide Bucket, Buckets;
    BoundsOrder(orig[b..e], d, b, first, tail);
  }

  lemma CycleStep<T>(orig: seq<T>, s: seq<T>, d: T -> nat, b: nat, e: nat, first: seq<nat>, tail: seq<nat>,
                     head: seq<nat>, i: nat, c: nat)
    requires Cycling(orig, s, d, b, e, first, tail, head) && i < BUCKETS && c < BUCKETS && i != c
    requires |head| == |tail| == BUCKETS && head[i] < tail[i] && head[i] < |s| && d(s[head[i]]) == c
    ensures head[c] < tail[c] && head[c] != head[i] && b <= head[c] < e <= |s|
    ensures Cycling(orig, s[head[i] := s[head[c]]][head[c] := s[head[i]]], d, b, e, first, tail, head[c := head[c] + 1])
  {
    hide Bucket, Buckets, Bounds, Filled, PermutesRange;
    CyclingBounds(orig, s, d, b, e, first, tail, head);
    var seg := orig[b..e];
    BoundsOrder(seg, d, b, first, tail);
    PermutesSlice(orig, s, b, e);
    assert i < c ==> tail[i] <= first[c];
    assert c < i ==> tail[c] <= first[i];
    HeadRoom(seg, s, d, b, e, first, tail, head, head[i], c);
    FillStep(first, tail, s, d, head, i, c);
    var t := s[head[i] := s[head[c]]][head[c] := s[head[i]]];
    PermutesSwap(s, t, b, e, head[i], head[c]);
    PermutesTrans(orig, s, t, b, e, b, e);
  }

  lemma CycleEnd<T>(orig: seq<T>, s: seq<T>, d: T -> nat, b: nat, e: nat, first: seq<nat>, tail: seq<nat>,
                    head: seq<nat>, i: nat)
    requires Cycling(orig, s, d, b, e, first, tail, head) && i < BUCKETS
    requires |head| == |tail| == BUCKETS && head[i] < tail[i] && head[i] < |s| && d(s[head[i]]) == i
    ensures Cycling(orig, s, d, b, e, first, tail, head[i := head[i] + 1])
  {
    hide Bucket, Buckets, Bounds, PermutesRange;
    FillOwn(first, tail, s, d, head, i);
  }

  /** Follows one cycle: the element at the head of bucket i is held and
      exchanged until an element of bucket i is held. */
  method FollowCycle<T>(a: array<T>, d: T -> nat, ghost orig: seq<T>, ghost b: nat, ghost e: nat, ghost first: seq<nat>,
                        tail: seq<nat>, head0: seq<nat>, i: nat)
    returns (head: seq<nat>)
    requires Cycling(orig, a[..], d, b, e, first, tail, head0)
    requires i < BUCKETS && |head0| == |tail| == BUCKETS && head0[i] < tail[i]
    modifies a
    ensures Cycling(orig, a[..], d, b, e, first, tail, head)
    ensures |head| == BUCKETS && HeadSum(head0) < HeadSum(head) <= BUCKETS * e
    ensures forall j: nat :: j < BUCKETS && head0[j] == tail[j] ==> head[j] == tail[j]
  {
    hide Cycling, HeadSum;
    head := head0;
    CyclingBounds(orig, a[..], d, b, e, first, tail, head);
    HeadSumStep(head, i, e);
    var h := head[i];
    var v := a[h];
    assert a[..][h := v] == a[..];
    while d(v) != i
      invariant |head| == BUCKETS && head[i] == h < tail[i]
      invariant Cycling(orig, a[..][h := v], d, b, e, first, tail, head)
      invariant HeadSum(head0) <= HeadSum(head) <= BUCKETS * e
      invariant forall j: nat :: j < BUCKETS && head0[j] == tail[j] ==> head[j] == tail[j]
      decreases BUCKETS * e - HeadSum(head)
    {
      ghost var s, v0 := a[..][h := v], v;
      CyclingDigit(orig, s, d, b, e, first, tail, head, h);
      var c := d(v);
      CycleStep(orig, s, d, b, e, first, tail, head, i, c);
      CyclingBounds(orig, s, d, b, e, first, tail, head);
      HeadSumStep(head, c, e);
      ghost var x := a[..];
      var w := a[head[c]];
      a[head[c]] := v;
      assert a[..] == x[head[c] := v];
      assert a[..][h := w] == s[h := s[head[c]]][head[c] := s[h]];
      v := w;
      head := head[c := head[c] + 1];
      CyclingBounds(orig, a[..][h := v], d, b, e, first, tail, head);
      HeadSumStep(head, c, e);
    }
    ghost var s := a[..];
    CycleEnd(orig, s[h := v], d, b, e, first, tail, head, i);
    CyclingBounds(orig, s[h := v], d, b, e, first, tail, head);
    a[h] := v;
    assert a[..] == s[h := v];
    HeadSumStep(head, i, e);
    head := head[i := head[i] + 1];
    CyclingBounds(orig, a[..], d, b, e, first, tail, head);
    HeadSumStep(head, i, e);
  }

  lemma CyclingDigit<T>(orig: seq<T>, s: seq<T>, d: T -> nat, b: nat, e: nat, first: seq<nat>, tail: seq<nat>,
                        head: seq<nat>, h: nat)
    requires Cycling(orig, s, d, b, e, first, tail, head) && b <= h < e <= |s|
    ensures d(s[h]) < BUCKETS
  {
    hide Bounds, Filled;
    PermutesSlice(orig, s, b, e);
    assert s[h] == s[b..e][h - b];
    assert s[h] in multiset(orig[b..e]);
  }

  /** Every element of the segment stands in its bucket. */
  ghost predicate Bucketed<T>(s: seq<T>, d: T -> nat, first: seq<nat>, tail: seq<nat>) {
    && |first| == |tail| == BUCKETS
    && (forall i: nat :: i < BUCKETS ==> tail[i] <= |s|)
    && (forall i: nat, q: nat :: i < BUCKETS && first[i] <= q < tail[i] ==> d(s[q]) == i)
  }

  /** The loop over the buckets: moves every element of the range to its bucket. */
  method ExchangeBuckets<T>(a: array<T>, d: T -> nat, b: nat, e: nat, first: seq<nat>, tail: seq<nat>)
    requires b <= e <= a.Length
    requires forall x :: x in a[b..e] ==> d(x) < BUCKETS
    requires Bounds(a[b..e], d, b, first, tail)
    modifies a
    ensures PermutesRange(old(a[..]), a[..], b, e)
    ensures Bucketed(a[..], d, first, tail)
  {
    hide Cycling, Bounds, Bucketed, HeadSum, PermutesRange;
    ghost var orig := a[..];
    var head := first;
    CyclingStart(orig, d, b, e, first, tail);
    CyclingBounds(orig, a[..], d, b, e, first, tail, head);
    for i := 0 to BUCKETS
      invariant |head| == BUCKETS
      invariant Cycling(orig, a[..], d, b, e, first, tail, head)
      invariant forall j: nat :: j < i ==> head[j] == tail[j]
    {
      CyclingBounds(orig, a[..], d, b, e, first, tail, head);
      while head[i] < tail[i]
        invariant |head| == BUCKETS && head[i] <= tail[i]
        invariant Cycling(orig, a[..], d, b, e, first, tail, head)
        invariant forall j: nat :: j < i ==> head[j] == tail[j]
        decreases BUCKETS * e - HeadSum(head)
      {
        head := FollowCycle(a, d, orig, b, e, first, tail, head, i);
        CyclingBounds(orig, a[..], d, b, e, first, tail, head);
      }
    }
    CyclingDone(orig, a[..], d, b, e, first, tail, head);
  }

  lemma CyclingStart<T>(orig: seq<T>, d: T -> nat, b: nat, e: nat, first: seq<nat>, tail: seq<nat>)
    requires b <= e <= |orig| && forall x :: x in orig[b..e] ==> d(x) < BUCKETS
    requires Bounds(orig[b..e], d, b, first, tail)
    ensures Cycling(orig, orig, d, b, e, first, tail, first)
    ensures |first| == |tail| == BUCKETS
  {
    hide Bucket, Buckets;
    BoundsOrder(orig[b..e], d, b, first, tail);
  }

  lemma CyclingDone<T>(orig: seq<T>, s: seq<T>, d: T -> nat, b: nat, e: nat, first: seq<nat>, tail: seq<nat>,
                       head: seq<nat>)
    requires Cycling(orig, s, d, b, e, first, tail, head)
    requires |head| == |tail| == BUCKETS && forall j: nat :: j < BUCKETS ==> head[j] == tail[j]
    ensures PermutesRange(orig, s, b, e) && Bucketed(s, d, first, tail)
  {
    hide Bounds, PermutesRange;
  }

  // ----- counting and recursing

  method CountBuckets<T>(a: array<T>, d: T -> nat, b: nat, e: nat) returns (count: seq<nat>)
    requires b <= e <= a.Length
    requires forall x :: x in a[b..e] ==> d(x) < BUCKETS
    ensures |count| == BUCKETS && forall i: nat :: i < BUCKETS ==> count[i] == |Bucket(a[b..e], d, i)|
  {
    hide Bucket;
    ghost var seg := a[b..e];
    count := seq(BUCKETS, _ => 0);
    BucketNone(seg, d);
    for i := b to e
      invariant |count| == BUCKETS
      invariant forall j: nat :: j < BUCKETS ==> count[j] == |Bucket(seg[..i - b], d, j)|
    {
      assert seg[i - b] == a[i];
      OffsetsStep(seg, d, i - b);
      var index := d(a[i]);
      count := count[index := count[index] + 1];
    }
    assert seg[..e - b] == seg;
  }

  method PrefixSums<T>(ghost seg: seq<T>, ghost d: T -> nat, b: nat, count: seq<nat>)
    returns (first: seq<nat>, tail: seq<nat>)
    requires |count| == BUCKETS && forall i: nat :: i < BUCKETS ==> count[i] == |Bucket(seg, d, i)|
    ensures Bounds(seg, d, b, first, tail)
  {
    hide Bucket, Buckets;
    first, tail := seq(BUCKETS, _ => b), seq(BUCKETS, _ => b);
    BucketsNone(seg, d);
    for i := 1 to BUCKETS
      invariant |first| == BUCKETS && forall j: nat :: j < i ==> first[j] == b + |Buckets(seg, d, j)|
    {
      BucketsNext(seg, d, i - 1);
      first := first[i := first[i - 1] + count[i - 1]];
    }
    for i := 0 to BUCKETS - 1
      invariant |tail| == BUCKETS && forall j: nat :: j < i ==> tail[j] == first[j] + |Bucket(seg, d, j)|
    {
      BucketsNext(seg, d, i);
      tail := tail[i := first[i + 1]];
    }
    tail := tail[BUCKETS - 1 := first[BUCKETS - 1] + count[BUCKETS - 1]];
  }

  /** The keys from b to e agree in all digits from p on. */
  ghost predicate High<T>(s: seq<T>, key: T -> nat, p: nat, b: nat, e: nat, h: nat)
    requires b <= e <= |s|
  {
    forall q :: b <= q < e ==> key(s[q]) / Pow256(p) == h
  }

  lemma HighDigits(k: nat, p: nat)
    ensures k / Pow256(p) == k / Pow256(p + 1) * BUCKETS + Digit(k, p)
  {
    var m := Pow256(p);
    var q, r := k / m, k % m;
    var q1, r1 := q / BUCKETS, q % BUCKETS;
    assert k == q * m + r && q == q1 * BUCKETS + r1;
    SplitQuotient(k, m, q1, r1, r);
  }

  lemma SplitQuotient(k: nat, m: nat, q1: nat, r1: nat, r: nat)
    requires k == (q1 * BUCKETS + r1) * m + r && r < m && r1 < BUCKETS
    ensures k / (BUCKETS * m) == q1
  {
    var n := BUCKETS * m;
    assert k == q1 * n + (r1 * m + r);
    MulMono(r1, BUCKETS - 1, m);
    MulDistribute(q1, n);
    DivUnique(k, n, q1);
  }

  /** Keys with equal high digits are ordered by the next digit. */
  lemma DigitOrders(x: nat, y: nat, p: nat, h: nat)
    requires x / Pow256(p + 1) == h && y / Pow256(p + 1) == h
    ensures Digit(x, p) < Digit(y, p) ==> x < y
    ensures Digit(x, p) == Digit(y, p) ==> x / Pow256(p) == y / Pow256(p)
  {
    hide Digit, Pow256;
    HighDigits(x, p);
    HighDigits(y, p);
    if y <= x {
      DivMono(y, x, Pow256(p));
    }
  }

  lemma DivMono(a: nat, b: nat, m: nat)
    requires a <= b && 0 < m
    ensures a / m <= b / m
  {
    var p := DivFloor(a, m);
    var q := DivFloor(b, m);
    MulLess(p, q + 1, m);
  }

  lemma BucketedFrame<T>(s: seq<T>, t: seq<T>, d: T -> nat, first: seq<nat>, tail: seq<nat>, i: nat)
    requires Bucketed(s, d, first, tail) && i < BUCKETS && |first| == |tail| == BUCKETS
    requires PermutesRange(s, t, first[i], tail[i])
    requires forall i: nat, j: nat :: i < j < BUCKETS ==> tail[i] <= first[j]
    ensures Bucketed(t, d, first, tail)
  {
    hide PermutesRange;
    PermutesLength(s, t, first[i], tail[i]);
    PermutesAll(s, t, first[i], tail[i], x => d(x) == i);
    forall j: nat, q: nat | j < BUCKETS && first[j] <= q < tail[j]
      ensures d(t[q]) == j
    {
      assert j < i ==> tail[j] <= first[i];
      assert i < j ==> tail[i] <= first[j];
      if j != i {
        PermutesOutside(s, t, first[i], tail[i], q);
      }
    }
  }

  /** The bucket an element of the segment stands in. */
  lemma BucketOf(q: nat, b: nat, first: seq<nat>, tail: seq<nat>) returns (i: nat)
    requires |first| == |tail| == BUCKETS && b <= q < tail[BUCKETS - 1] && first[0] == b
    requires forall i: nat :: 0 < i < BUCKETS ==> first[i] == tail[i - 1]
    ensures i < BUCKETS && first[i] <= q < tail[i]
  {
    i := 0;
    while tail[i] <= q
      invariant i < BUCKETS && first[i] <= q
      decreases BUCKETS - i
    {
      i := i + 1;
    }
  }

  lemma LayoutAt(b: nat, e: nat, first: seq<nat>, tail: seq<nat>, i: nat)
    requires Layout(b, e, first, tail) && i < BUCKETS
    ensures |first| == |tail| == BUCKETS && first[0] == b && tail[BUCKETS - 1] == e
    ensures b <= first[i] <= tail[i] <= e
    ensures i + 1 < BUCKETS ==> first[i + 1] == tail[i]
  {
  }

  lemma BucketBefore(b: nat, e: nat, first: seq<nat>, tail: seq<nat>, i: nat, j: nat, x: nat)
    requires Layout(b, e, first, tail) && i < BUCKETS && j < BUCKETS
    requires first[j] <= x < first[i] <= tail[i]
    ensures j < i
  {
  }

  /** Sorted buckets up to i and a sorted bucket i are sorted together. */
  lemma JoinBuckets<T>(s: seq<T>, key: T -> nat, p: nat, b: nat, e: nat, h: nat, first: seq<nat>, tail: seq<nat>, i: nat)
    requires b <= e <= |s| && High(s, key, p + 1, b, e, h) && Bucketed(s, DigitOf(key, p), first, tail)
    requires Layout(b, e, first, tail) && i < BUCKETS
    requires SortedRange(s, key, b, first[i]) && SortedRange(s, key, first[i], tail[i])
    ensures SortedRange(s, key, b, tail[i])
  {
    forall x, y | b <= x < y < tail[i]
      ensures key(s[x]) <= key(s[y])
    {
      if x < first[i] <= y {
        hide Digit, Pow256;
        var j := BucketOf(x, b, first, tail);
        BucketBefore(b, e, first, tail, i, j, x);
        assert DigitOf(key, p)(s[x]) == j && DigitOf(key, p)(s[y]) == i;
        DigitOrders(key(s[x]), key(s[y]), p, h);
      }
    }
  }

  /** The buckets stand one after the other from b to e. */
  ghost predicate Layout(b: nat, e: nat, first: seq<nat>, tail: seq<nat>) {
    && |first| == |tail| == BUCKETS
    && first[0] == b && tail[BUCKETS - 1] == e
    && (forall i: nat, j: nat :: i < j < BUCKETS ==> tail[i] <= first[j])
    && (forall i: nat :: i < BUCKETS ==> b <= first[i] <= tail[i] <= e)
    && (forall i: nat :: 0 < i < BUCKETS ==> first[i] == tail[i - 1])
  }

  lemma BucketHigh<T>(s: seq<T>, key: T -> nat, p: nat, b: nat, e: nat, h: nat, first: seq<nat>, tail: seq<nat>, i: nat)
    requires b <= e <= |s| && High(s, key, p + 1, b, e, h) && Bucketed(s, DigitOf(key, p), first, tail)
    requires Layout(b, e, first, tail) && i < BUCKETS
    ensures High(s, key, p, first[i], tail[i], h * BUCKETS + i)
  {
    forall q: nat | first[i] <= q < tail[i]
      ensures key(s[q]) / Pow256(p) == h * BUCKETS + i
    {
      hide Digit, Pow256;
      HighDigits(key(s[q]), p);
      assert DigitOf(key, p)(s[q]) == i;
    }
  }

  /** Elements that agree in all digits are sorted. */
  lemma EqualKeysSorted<T>(s: seq<T>, key: T -> nat, b: nat, e: nat, h: nat)
    requires b <= e <= |s| && High(s, key, 0, b, e, h)
    ensures SortedRange(s, key, b, e)
  {
    forall x, y | b <= x < y < e
      ensures key(s[x]) <= key(s[y])
    {
      assert key(s[x]) / Pow256(0) == h == key(s[y]) / Pow256(0);
    }
  }

  lemma HighFrame<T>(s: seq<T>, t: seq<T>, key: T -> nat, p: nat, b: nat, e: nat, h: nat, b1: nat, e1: nat)
    requires b <= b1 <= e1 <= e <= |s| && PermutesRange(s, t, b1, e1) && High(s, key, p, b, e, h)
    ensures |t| == |s| && High(t, key, p, b, e, h)
  {
    hide Pow256;
    PermutesSelf(s, b, e);
    PermutesTrans(s, s, t, b, e, b1, e1);
    PermutesAll(s, t, b, e, x => key(x) / Pow256(p) == h);
  }

  lemma SortedFrame<T>(s: seq<T>, t: seq<T>, key: T -> nat, b: nat, b1: nat, e1: nat)
    requires b <= b1 <= e1 <= |s| && PermutesRange(s, t, b1, e1) && SortedRange(s, key, b, b1)
    ensures |t| == |s| && SortedRange(t, key, b, b1)
  {
    forall x, y | b <= x < y < b1
      ensures key(t[x]) <= key(t[y])
    {
      PermutesOutside(s, t, b1, e1, x);
      PermutesOutside(s, t, b1, e1, y);
    }
  }

  lemma SegmentLayout<T>(s: seq<T>, d: T -> nat, b: nat, e: nat, first: seq<nat>, tail: seq<nat>)
    requires b <= e <= |s| && Bounds(s[b..e], d, b, first, tail) && forall x :: x in s[b..e] ==> d(x) < BUCKETS
    ensures Layout(b, e, first, tail)
    ensures forall i: nat :: i < BUCKETS ==> tail[i] - first[i] == |Bucket(s[b..e], d, i)|
  {
    hide Bucket, Buckets;
    BoundsOrder(s[b..e], d, b, first, tail);
  }

  /** The buckets that end at `upto` or before are sorted. */
  ghost predicate Progress<T>(orig: seq<T>, s: seq<T>, key: T -> nat, p: nat, b: nat, e: nat, h: nat,
                              first: seq<nat>, tail: seq<nat>, upto: nat)
  {
    && PermutesRange(orig, s, b, e) && b <= upto <= e
    && Layout(b, e, first, tail)
    && Bucketed(s, DigitOf(key, p), first, tail)
    && High(s, key, p + 1, b, e, h)
    && SortedRange(s, key, b, upto)
  }

  lemma ProgressStep<T>(orig: seq<T>, s: seq<T>, t: seq<T>, key: T -> nat, p: nat, b: nat, e: nat, h: nat,
                        first: seq<nat>, tail: seq<nat>, i: nat)
    requires i < BUCKETS && |first| == |tail| == BUCKETS
    requires Progress(orig, s, key, p, b, e, h, first, tail, first[i])
    requires PermutesRange(s, t, first[i], tail[i]) && SortedRange(t, key, first[i], tail[i])
    ensures Progress(orig, t, key, p, b, e, h, first, tail, tail[i])
  {
    hide PermutesRange, High, SortedRange, Bucketed, Digit;
    PermutesLength(orig, s, b, e);
    BucketedFrame(s, t, DigitOf(key, p), first, tail, i);
    HighFrame(s, t, key, p + 1, b, e, h, first[i], tail[i]);
    SortedFrame(s, t, key, b, first[i], tail[i]);
    PermutesTrans(orig, s, t, b, e, first[i], tail[i]);
    JoinBuckets(t, key, p, b, e, h, first, tail, i);
  }

  lemma ProgressBounds<T>(orig: seq<T>, s: seq<T>, key: T -> nat, p: nat, b: nat, e: nat, h: nat,
                          first: seq<nat>, tail: seq<nat>, upto: nat)
    requires Progress(orig, s, key, p, b, e, h, first, tail, upto)
    ensures Layout(b, e, first, tail) && e <= |s|
    ensures forall i: nat :: i < BUCKETS ==> High(s, key, p, first[i], tail[i], h * BUCKETS + i)
  {
    hide PermutesRange, High, SortedRange, Bucketed, Digit;
    PermutesLength(orig, s, b, e);
    forall i: nat | i < BUCKETS
      ensures High(s, key, p, first[i], tail[i], h * BUCKETS + i)
    {
      BucketHigh(s, key, p, b, e, h, first, tail, i);
    }
  }

  lemma ProgressEnds<T>(orig: seq<T>, s: seq<T>, key: T -> nat, p: nat, b: nat, e: nat, h: nat,
                        first: seq<nat>, tail: seq<nat>, upto: nat)
    requires Progress(orig, s, key, p, b, e, h, first, tail, upto)
    ensures PermutesRange(orig, s, b, e) && |s| == |orig| && b <= upto <= e <= |s| && SortedRange(s, key, b, upto)
  {
  }

  /** After the exchange nothing is sorted yet, unless this is the last digit. */
  lemma ProgressStart<T>(orig: seq<T>, s: seq<T>, key: T -> nat, p: nat, b: nat, e: nat, h: nat,
                         first: seq<nat>, tail: seq<nat>)
    requires b <= e <= |orig| && High(orig, key, p + 1, b, e, h) && PermutesRange(orig, s, b, e)
    requires Bucketed(s, DigitOf(key, p), first, tail) && Layout(b, e, first, tail)
    ensures Progress(orig, s, key, p, b, e, h, first, tail, b)
  {
    hide PermutesRange, High, Bucketed;
    HighFrame(orig, s, key, p + 1, b, e, h, b, e);
  }

  /** Buckets of the last digit hold equal keys. */
  lemma {:induction false} LastDigit<T>(orig: seq<T>, s: seq<T>, key: T -> nat, b: nat, e: nat, h: nat, first: seq<nat>,
                                        tail: seq<nat>, i: nat)
    requires i < BUCKETS && Progress(orig, s, key, 0, b, e, h, first, tail, b) && |first| == |tail| == BUCKETS
    ensures Progress(orig, s, key, 0, b, e, h, first, tail, tail[i])
  {
    hide High, SortedRange, Progress, PermutesRange;
    if i != 0 {
      LastDigit(orig, s, key, b, e, h, first, tail, i - 1);
    }
    ProgressBounds(orig, s, key, 0, b, e, h, first, tail, b);
    EqualKeysSorted(s, key, first[i], tail[i], h * BUCKETS + i);
    PermutesSelf(s, first[i], tail[i]);
    ProgressStep(orig, s, s, key, 0, b, e, h, first, tail, i);
  }

  /** Sorts bucket i by the next digit. */
  method SortBucket<T>(a: array<T>, key: T -> nat, p: nat, offset: nat, count: nat, ghost h: nat)
    requires offset + count <= a.Length && 0 < p && High(a[..], key, p, offset, offset + count, h)
    modifies a
    ensures SortedRange(a[..], key, offset, offset + count)
    ensures PermutesRange(old(a[..]), a[..], offset, offset + count)
    decreases p, 0
  {
    if count < CMP_SORT_THRESHOLD {
      InsertionSortAscending(a, key, offset, offset + count);
    } else {
      RadixSort32(a, key, offset, offset + count, p - 1, h);
    }
  }

  /** Counts the digits and moves every element to its bucket. */
  method Distribute<T>(a: array<T>, key: T -> nat, b: nat, e: nat, p: nat, ghost h: nat)
    returns (count: seq<nat>, ghost first: seq<nat>, ghost tail: seq<nat>)
    requires b <= e <= a.Length && High(a[..], key, p + 1, b, e, h)
    modifies a
    ensures Progress(old(a[..]), a[..], key, p, b, e, h, first, tail, b) && Layout(b, e, first, tail)
    ensures |count| == BUCKETS && forall i: nat :: i < BUCKETS ==> count[i] == tail[i] - first[i]
  {
    hide Bucket, Buckets, Bounds, Bucketed, PermutesRange, High, Pow256, Digit, Progress;
    var d := DigitOf(key, p);
    ghost var orig := a[..];
    DigitsInRange(orig[b..e], key, p);
    count := CountBuckets(a, d, b, e);
    var heads, tails := PrefixSums(a[b..e], d, b, count);
    first, tail := heads, tails;
    SegmentLayout(orig, d, b, e, first, tail);
    ExchangeBuckets(a, d, b, e, heads, tails);
    ProgressStart(orig, a[..], key, p, b, e, h, first, tail);
  }

  /** Sorts the elements from b to e by the digits p, p - 1, ..., 0. */
  method RadixSort32<T>(a: array<T>, key: T -> nat, b: nat, e: nat, p: nat, ghost h: nat)
    requires b <= e <= a.Length && High(a[..], key, p + 1, b, e, h)
    modifies a
    ensures SortedRange(a[..], key, b, e)
    ensures PermutesRange(old(a[..]), a[..], b, e)
    decreases p, 1
  {
    hide PermutesRange, High, SortedRange, Progress, Layout;
    ghost var orig := a[..];
    var count, first, tail := Distribute(a, key, b, e, p, h);
    LayoutAt(b, e, first, tail, 0);
    if p == 0 {
      LastDigit(orig, a[..], key, b, e, h, first, tail, BUCKETS - 1);
      ProgressEnds(orig, a[..], key, p, b, e, h, first, tail, e);
      return;
    }
    var offset := b;
    for i := 0 to BUCKETS
      invariant offset == if i < BUCKETS then first[i] else e
      invariant Progress(orig, a[..], key, p, b, e, h, first, tail, offset)
    {
      ghost var s := a[..];
      ProgressBounds(orig, s, key, p, b, e, h, first, tail, offset);
      LayoutAt(b, e, first, tail, i);
      if count[i] != 0 {
        SortBucket(a, key, p, offset, count[i], h * BUCKETS + i);
        ProgressStep(orig, s, a[..], key, p, b, e, h, first, tail, i);
        offset := offset + count[i];
      }
    }
    ProgressEnds(orig, a[..], key, p, b, e, h, first, tail, e);
  }

  lemma DigitsInRange<T>(s: seq<T>, key: T -> nat, p: nat)
    ensures forall x :: x in s ==> DigitOf(key, p)(x) < BUCKETS
  {
  }

  /** Sorts an array of 32-bit keys, beginning at the highest byte. */
  method Sort<T>(a: array<T>, key: T -> nat)
    requires forall i :: 0 <= i < a.Length ==> key(a[i]) < 0x1_0000_0000
    modifies a
    ensures SortedRange(a[..], key, 0, a.Length)
    ensures multiset(a[..]) == multiset(old(a[..]))
  {
    HighestByte();
    forall q | 0 <= q < a.Length
      ensures key(a[q]) / Pow256(4) == 0
    {
      assert key(a[q]) < Pow256(4);
    }
    RadixSort32(a, key, 0, a.Length, 3, 0);
  }

  lemma HighestByte()
    ensures Pow256(4) == 0x1_0000_0000
  {
    assert Pow256(2) == 0x1_0000;
  }
}
