/** Parallel least-significant-digit radix sort: every pass is a stable
    counting sort in which the tasks count their own slice of the source and
    then write to places that no other task writes
    (rtbuild/algorithms/parallel_sort.h). */
module RadixSort {
  import opened Common
  import opened InsertionSort
  import opened Partition

  const BUCKETS: nat := 256

  // ----- buckets

  /** The elements of s with digit b, in their order in s. */
  function Bucket<T>(s: seq<T>, d: T -> nat, b: nat): seq<T> {
    Filter(x => d(x) == b, s)
  }

  /** The buckets of all digits below b, one after the other. */
  function Buckets<T>(s: seq<T>, d: T -> nat, b: nat): seq<T> {
    if b == 0 then [] else Buckets(s, d, b - 1) + Bucket(s, d, b - 1)
  }

  /** s sorted by one digit; elements with equal digits keep their order. */
  function StableSort<T>(s: seq<T>, d: T -> nat): seq<T> {
    Buckets(s, d, BUCKETS)
  }

  lemma BucketConcat<T>(s: seq<T>, t: seq<T>, d: T -> nat, b: nat)
    ensures Bucket(s + t, d, b) == Bucket(s, d, b) + Bucket(t, d, b)
  {
    FilterConcat(x => d(x) == b, s, t);
  }

  lemma BucketStep<T>(s: seq<T>, d: T -> nat, b: nat, i: nat)
    requires i < |s|
    ensures Bucket(s[..i + 1], d, b) == Bucket(s[..i], d, b) + if d(s[i]) == b then [s[i]] else []
  {
    assert s[..i + 1][..i] == s[..i];
  }

  lemma {:induction false} BucketPrefix<T>(s: seq<T>, d: T -> nat, b: nat, i: nat)
    requires i <= |s|
    ensures Bucket(s[..i], d, b) <= Bucket(s, d, b)
    decreases |s| - i
  {
    if i < |s| {
      BucketPrefix(s, d, b, i + 1);
      BucketStep(s, d, b, i);
    } else {
      assert s[..i] == s;
    }
  }

  lemma {:induction false} BucketsPrefix<T>(s: seq<T>, d: T -> nat, b: nat, c: nat)
    requires b <= c
    ensures Buckets(s, d, b) <= Buckets(s, d, c)
    decreases c - b
  {
    if b < c {
      BucketsPrefix(s, d, b + 1, c);
    }
  }

  lemma {:induction false} BucketsAppend<T>(s: seq<T>, x: T, d: T -> nat, b: nat)
    ensures multiset(Buckets(s + [x], d, b)) == multiset(Buckets(s, d, b) + if d(x) < b then [x] else [])
  {
    hide Bucket, Buckets;
    if b == 0 {
      BucketsNone(s, d);
      BucketsNone(s + [x], d);
    } else {
      var c := b - 1;
      BucketsAppend(s, x, d, c);
      BucketConcat(s, [x], d, c);
      BucketSingle(x, d, c);
      BucketsNext(s, d, c);
      BucketsNext(s + [x], d, c);
    }
  }

  /** A pass rearranges the array. */
  lemma {:induction false} StableSortPermutes<T>(s: seq<T>, d: T -> nat)
    requires forall x :: x in s ==> d(x) < BUCKETS
    ensures |StableSort(s, d)| == |s|
    ensures multiset(StableSort(s, d)) == multiset(s)
  {
    if s == [] {
      BucketsEmpty(s, d, BUCKETS);
    } else {
      var n := |s| - 1;
      assert s == s[..n] + [s[n]];
      StableSortPermutes(s[..n], d);
      BucketsAppend(s[..n], s[n], d, BUCKETS);
    }
    assert |multiset(StableSort(s, d))| == |multiset(s)|;
  }

  lemma {:induction false} BucketsEmpty<T>(s: seq<T>, d: T -> nat, b: nat)
    requires s == []
    ensures Buckets(s, d, b) == []
  {
    if b != 0 {
      BucketsEmpty(s, d, b - 1);
    }
  }

  // ----- where a pass puts an element

  /** The place of element i in the stable sort. */
  function Position<T>(s: seq<T>, d: T -> nat, i: nat): nat
    requires i < |s|
  {
    |Buckets(s, d, d(s[i]))| + |Bucket(s[..i], d, d(s[i]))|
  }

  lemma PositionHolds<T>(s: seq<T>, d: T -> nat, i: nat)
    requires i < |s| && d(s[i]) < BUCKETS
    ensures Position(s, d, i) < |Buckets(s, d, d(s[i]) + 1)| <= |StableSort(s, d)|
    ensures StableSort(s, d)[Position(s, d, i)] == s[i]
  {
    hide Buckets, Bucket;
    var b := d(s[i]);
    BucketStep(s, d, b, i);
    BucketPrefix(s, d, b, i + 1);
    BucketsNext(s, d, b);
    BucketsPrefix(s, d, b + 1, BUCKETS);
    var p := Position(s, d, i);
    assert StableSort(s, d)[p] == Buckets(s, d, b + 1)[p] == Bucket(s, d, b)[|Bucket(s[..i], d, b)|];
  }

  lemma BucketsNext<T>(s: seq<T>, d: T -> nat, b: nat)
    ensures Buckets(s, d, b + 1) == Buckets(s, d, b) + Bucket(s, d, b)
  {
  }

  /** Elements are ordered by digit and then by their old place. */
  lemma PositionOrder<T>(s: seq<T>, d: T -> nat, i: nat, j: nat)
    requires i < |s| && j < |s| && d(s[i]) < BUCKETS && d(s[j]) < BUCKETS
    requires d(s[i]) < d(s[j]) || (d(s[i]) == d(s[j]) && i < j)
    ensures Position(s, d, i) < Position(s, d, j)
  {
    hide Buckets, Bucket;
    var b := d(s[i]);
    if b < d(s[j]) {
      PositionHolds(s, d, i);
      BucketsPrefix(s, d, b + 1, d(s[j]));
    } else {
      BucketStep(s, d, b, i);
      BucketPrefix(s[..j], d, b, i + 1);
      assert s[..j][..i + 1] == s[..i + 1];
    }
  }

  /** Place k of a bucket is taken by some element of s. */
  lemma {:induction false} BucketIndex<T>(s: seq<T>, d: T -> nat, b: nat, k: nat) returns (i: nat)
    requires k < |Bucket(s, d, b)|
    ensures i < |s| && d(s[i]) == b && |Bucket(s[..i], d, b)| == k
  {
    var n := |s| - 1;
    if k < |Bucket(s[..n], d, b)| {
      i := BucketIndex(s[..n], d, b, k);
      assert s[..n][..i] == s[..i];
    } else {
      i := n;
    }
  }

  /** Every place below the buckets from b on is taken by some element. */
  lemma {:induction false} PositionOnto<T>(s: seq<T>, d: T -> nat, b: nat, q: nat) returns (i: nat)
    requires q < |Buckets(s, d, b)|
    ensures i < |s| && d(s[i]) < b && Position(s, d, i) == q
  {
    if q < |Buckets(s, d, b - 1)| {
      i := PositionOnto(s, d, b - 1, q);
    } else {
      i := BucketIndex(s, d, b - 1, q - |Buckets(s, d, b - 1)|);
    }
  }

  // ----- sorting digit by digit

  function Pow256(p: nat): (m: nat)
    ensures 0 < m
  {
    if p == 0 then 1 else BUCKETS * Pow256(p - 1)
  }

  /** Digit p of a key to base 256. */
  function Digit(key: nat, p: nat): (b: nat)
    ensures b < BUCKETS
  {
    key / Pow256(p) % BUCKETS
  }

  function DigitOf<T>(key: T -> nat, p: nat): T -> nat {
    x => Digit(key(x), p)
  }

  /** Sorted by the lowest p digits of the key. */
  ghost predicate SortedLow<T>(s: seq<T>, key: T -> nat, p: nat) {
    forall i, j :: 0 <= i < j < |s| ==> key(s[i]) % Pow256(p) <= key(s[j]) % Pow256(p)
  }

  ghost predicate Sorted<T>(s: seq<T>, key: T -> nat) {
    forall i, j :: 0 <= i < j < |s| ==> key(s[i]) <= key(s[j])
  }

  /** The order of elements with equal keys is the same in both. */
  ghost predicate SameOrder<T>(s: seq<T>, t: seq<T>, key: T -> nat) {
    forall v :: Bucket(s, key, v) == Bucket(t, key, v)
  }

  lemma LowDigits(k: nat, p: nat)
    ensures k % Pow256(p + 1) == Digit(k, p) * Pow256(p) + k % Pow256(p)
  {
    var m := Pow256(p);
    var q, r := k / m, k % m;
    var q1, r1 := q / BUCKETS, q % BUCKETS;
    assert k == q * m + r && q == q1 * BUCKETS + r1;
    SplitRemainder(k, m, q1, r1, r);
  }

  lemma SplitRemainder(k: nat, m: nat, q1: nat, r1: nat, r: nat)
    requires k == (q1 * BUCKETS + r1) * m + r && r < m && r1 < BUCKETS
    ensures k % (BUCKETS * m) == r1 * m + r
  {
    var n := BUCKETS * m;
    assert k == q1 * n + (r1 * m + r);
    assert r1 * m + r < n by {
      MulMono(r1, BUCKETS - 1, m);
    }
    RemainderUnique(k, n, q1, r1 * m + r);
  }

  lemma RemainderUnique(k: nat, n: nat, q: nat, r: nat)
    requires 0 < n && k == q * n + r && r < n
    ensures k % n == r
  {
    MulDistribute(q, n);
    DivUnique(k, n, q);
    assert k == k / n * n + k % n;
  }

  /** One pass on digit p extends a sort by the lower digits. */
  lemma PassSorts<T>(s: seq<T>, key: T -> nat, p: nat)
    requires SortedLow(s, key, p)
    ensures SortedLow(StableSort(s, DigitOf(key, p)), key, p + 1)
  {
    hide SortedLow, StableSort, Digit;
    var d := DigitOf(key, p);
    var t := StableSort(s, d);
    forall i, j | 0 <= i < j < |t|
      ensures key(t[i]) % Pow256(p + 1) <= key(t[j]) % Pow256(p + 1)
    {
      PassSortsAt(s, key, p, i, j);
    }
    SortedLowIntro(t, key, p + 1);
  }

  lemma SortedLowIntro<T>(t: seq<T>, key: T -> nat, p: nat)
    requires forall i, j :: 0 <= i < j < |t| ==> key(t[i]) % Pow256(p) <= key(t[j]) % Pow256(p)
    ensures SortedLow(t, key, p)
  {
  }

  lemma PassSortsAt<T>(s: seq<T>, key: T -> nat, p: nat, i: nat, j: nat)
    requires SortedLow(s, key, p)
    requires i < j < |StableSort(s, DigitOf(key, p))|
    ensures key(StableSort(s, DigitOf(key, p))[i]) % Pow256(p + 1) <= key(StableSort(s, DigitOf(key, p))[j]) % Pow256(p + 1)
  {
    hide Digit, Bucket, Buckets, Pow256;
    var d := DigitOf(key, p);
    var x := PositionOnto(s, d, BUCKETS, i);
    var y := PositionOnto(s, d, BUCKETS, j);
    PositionHolds(s, d, x);
    PositionHolds(s, d, y);
    if d(s[y]) < d(s[x]) || (d(s[y]) == d(s[x]) && y < x) {
      PositionOrder(s, d, y, x);
      assert false;
    }
    LowDigits(key(s[x]), p);
    LowDigits(key(s[y]), p);
    OrderByDigit(d(s[x]), d(s[y]), Pow256(p), key(s[x]) % Pow256(p), key(s[y]) % Pow256(p));
  }

  lemma OrderByDigit(a: nat, b: nat, m: nat, r: nat, s: nat)
    requires r < m && s < m && (a < b || (a == b && r <= s))
    ensures a * m + r <= b * m + s
  {
    if a < b {
      MulMono(a + 1, b, m);
      MulDistribute(a, m);
    }
  }

  /** A pass keeps the order of elements with equal keys. */
  lemma PassKeepsOrder<T>(s: seq<T>, key: T -> nat, p: nat)
    ensures SameOrder(s, StableSort(s, DigitOf(key, p)), key)
  {
    var d := DigitOf(key, p);
    forall v: nat
      ensures Bucket(s, key, v) == Bucket(StableSort(s, d), key, v)
    {
      BucketOfBuckets(s, key, p, v, BUCKETS);
    }
  }

  lemma {:induction false} BucketOfBuckets<T>(s: seq<T>, key: T -> nat, p: nat, v: nat, b: nat)
    ensures Bucket(Buckets(s, DigitOf(key, p), b), key, v) == if Digit(v, p) < b then Bucket(s, key, v) else []
  {
    hide Digit, Bucket;
    if b == 0 {
      BucketsNone(s, DigitOf(key, p));
      assert Buckets(s, DigitOf(key, p), b)[..0] == [];
      BucketNone(Buckets(s, DigitOf(key, p), b), key);
    } else {
      var d := DigitOf(key, p);
      BucketOfBuckets(s, key, p, v, b - 1);
      BucketConcat(Buckets(s, d, b - 1), Bucket(s, d, b - 1), key, v);
      BucketOfBucket(s, key, p, v, b - 1);
    }
  }

  lemma {:induction false} BucketOfBucket<T>(s: seq<T>, key: T -> nat, p: nat, v: nat, b: nat)
    ensures Bucket(Bucket(s, DigitOf(key, p), b), key, v) == if Digit(v, p) == b then Bucket(s, key, v) else []
  {
    hide Digit;
    if s != [] {
      var n := |s| - 1;
      var d := DigitOf(key, p);
      BucketOfBucket(s[..n], key, p, v, b);
      var one := if d(s[n]) == b then [s[n]] else [];
      BucketConcat(Bucket(s[..n], d, b), one, key, v);
      BucketSingle(s[n], key, v);
    }
  }

  lemma BucketSingle<T>(x: T, d: T -> nat, b: nat)
    ensures Bucket([x], d, b) == if d(x) == b then [x] else []
  {
    FilterUniform(y => d(y) == b, [x], d(x) == b);
  }

  lemma SortedAll<T>(s: seq<T>, key: T -> nat, p: nat)
    requires SortedLow(s, key, p)
    requires forall x :: x in s ==> key(x) < Pow256(p)
    ensures Sorted(s, key)
  {
    hide Pow256;
    forall i, j | 0 <= i < j < |s|
      ensures key(s[i]) <= key(s[j])
    {
      assert s[i] in s && s[j] in s;
      SmallRemainder(key(s[i]), Pow256(p));
      SmallRemainder(key(s[j]), Pow256(p));
    }
  }

  lemma SmallRemainder(k: nat, n: nat)
    requires k < n
    ensures k % n == k
  {
  }

  // ----- the passes

  /** The slice of the source that task t counts and moves. */
  ghost function TaskSlice<T>(s: seq<T>, t: nat, tasks: nat): seq<T>
    requires t < tasks
  {
    TaskSlices(t, |s|, tasks);
    s[TaskStart(t, |s|, tasks)..TaskStart(t + 1, |s|, tasks)]
  }

  /** All counters of task t hold the sizes of the buckets of its slice. */
  ghost predicate Counted<T>(s: seq<T>, d: T -> nat, tasks: nat, t: nat, count: seq<nat>)
    requires t < tasks
  {
    CountsOf(TaskSlice(s, t, tasks), d, count)
  }

  ghost predicate CountsOf<T>(s: seq<T>, d: T -> nat, count: seq<nat>) {
    |count| == BUCKETS && forall b: nat :: b < BUCKETS ==> count[b] == |Bucket(s, d, b)|
  }

  lemma CountsNone<T>(s: seq<T>, d: T -> nat)
    ensures CountsOf(s[..0], d, seq(BUCKETS, _ => 0))
  {
    BucketNone(s, d);
  }

  lemma CountsNext<T>(s: seq<T>, d: T -> nat, i: nat, count: seq<nat>)
    requires i < |s| && CountsOf(s[..i], d, count) && d(s[i]) < BUCKETS
    ensures |count| == BUCKETS && CountsOf(s[..i + 1], d, count[d(s[i]) := count[d(s[i])] + 1])
  {
    hide Bucket;
    OffsetsStep(s, d, i);
  }

  /** Adding up the counters of the tasks before t gives the bucket sizes of
      everything before the slice of task t. */
  lemma {:induction false} CountsBefore<T>(s: seq<T>, d: T -> nat, tasks: nat, t: nat, b: nat)
    requires t < tasks
    ensures TaskStart(0, |s|, tasks) == 0
    ensures TaskStart(t, |s|, tasks) <= TaskStart(t + 1, |s|, tasks) <= |s|
    ensures |Bucket(s[..TaskStart(t + 1, |s|, tasks)], d, b)|
         == |Bucket(s[..TaskStart(t, |s|, tasks)], d, b)| + |Bucket(TaskSlice(s, t, tasks), d, b)|
  {
    hide TaskStart, Bucket;
    TaskSlices(t, |s|, tasks);
    var i, j := TaskStart(t, |s|, tasks), TaskStart(t + 1, |s|, tasks);
    assert s[..j] == s[..i] + s[i..j];
    BucketConcat(s[..i], s[i..j], d, b);
  }

  /** First half of a pass: task t counts the digits of its slice. */
  method CountDigits<T>(src: array<T>, d: T -> nat, t: nat, tasks: nat) returns (count: seq<nat>)
    requires t < tasks
    requires forall x :: x in src[..] ==> d(x) < BUCKETS
    ensures Counted(src[..], d, tasks, t, count)
  {
    hide TaskStart, CountsOf;
    TaskSlices(t, src.Length, tasks);
    var startID, endID := TaskStart(t, src.Length, tasks), TaskStart(t + 1, src.Length, tasks);
    ghost var slice := TaskSlice(src[..], t, tasks);
    count := seq(BUCKETS, _ => 0);
    CountsNone(slice, d);
    for i := startID to endID
      invariant CountsOf(slice[..i - startID], d, count)
    {
      assert slice[i - startID] == src[..][i] == src[i];
      var index := d(src[i]);
      CountsNext(slice, d, i - startID, count);
      count := count[index := count[index] + 1];
    }
    assert slice[..endID - startID] == slice;
  }

  lemma BucketNone<T>(s: seq<T>, d: T -> nat)
    ensures forall b: nat :: Bucket(s[..0], d, b) == []
  {
  }

  /** Adds the counters of the first n tasks to the given values. */
  method AddCounts<T>(ghost s: seq<T>, ghost d: T -> nat, radixCount: seq<seq<nat>>, n: nat, tasks: nat, base: seq<nat>)
    returns (sum: seq<nat>)
    requires n <= tasks == |radixCount| && 0 < tasks && |base| == BUCKETS
    requires forall t: nat :: t < tasks ==> Counted(s, d, tasks, t, radixCount[t])
    ensures TaskStart(n, |s|, tasks) <= |s| && |sum| == BUCKETS
    ensures forall b: nat :: b < BUCKETS ==> sum[b] == base[b] + |Bucket(s[..TaskStart(n, |s|, tasks)], d, b)|
  {
    hide TaskStart, Bucket;
    sum := base;
    TaskSlices(0, |s|, tasks);
    BucketNone(s, d);
    for i := 0 to n
      invariant TaskStart(i, |s|, tasks) <= |s| && |sum| == BUCKETS
      invariant forall b: nat :: b < BUCKETS ==> sum[b] == base[b] + |Bucket(s[..TaskStart(i, |s|, tasks)], d, b)|
    {
      TaskSlices(i, |s|, tasks);
      assert Counted(s, d, tasks, i, radixCount[i]);
      ghost var before := sum;
      for j := 0 to BUCKETS
        invariant |sum| == BUCKETS
        invariant forall b: nat :: b < BUCKETS ==> sum[b] == before[b] + if b < j then radixCount[i][b] else 0
      {
        sum := sum[j := sum[j] + radixCount[i][j]];
      }
      forall b: nat | b < BUCKETS
        ensures sum[b] == base[b] + |Bucket(s[..TaskStart(i + 1, |s|, tasks)], d, b)|
      {
        CountsBefore(s, d, tasks, i, b);
      }
    }
  }

  /** Where task t starts to write in every bucket. */
  method StartOffsets<T>(ghost s: seq<T>, ghost d: T -> nat, radixCount: seq<seq<nat>>, t: nat, tasks: nat)
    returns (offset: seq<nat>)
    requires t < tasks == |radixCount|
    requires forall u: nat :: u < tasks ==> Counted(s, d, tasks, u, radixCount[u])
    ensures TaskStart(t, |s|, tasks) <= |s| && |offset| == BUCKETS
    ensures forall b: nat :: b < BUCKETS ==>
      offset[b] == |Buckets(s, d, b)| + |Bucket(s[..TaskStart(t, |s|, tasks)], d, b)|
  {
    hide TaskStart, Bucket, Counted, Buckets;
    var total := AddCounts(s, d, radixCount, tasks, tasks, seq(BUCKETS, _ => 0));
    TaskSlices(tasks - 1, |s|, tasks);
    assert s[..|s|] == s;
    offset := seq(BUCKETS, _ => 0);
    BucketsNone(s, d);
    for i := 1 to BUCKETS
      invariant |offset| == BUCKETS
      invariant forall b: nat :: b < i ==> offset[b] == |Buckets(s, d, b)|
    {
      BucketsNext(s, d, i - 1);
      offset := offset[i := offset[i - 1] + total[i - 1]];
    }
    offset := AddCounts(s, d, radixCount, t, tasks, offset);
  }

  lemma BucketsNone<T>(s: seq<T>, d: T -> nat)
    ensures Buckets(s, d, 0) == []
  {
  }

  /** The elements of s with an index in done stand at their place in t. */
  ghost predicate Written<T>(s: seq<T>, d: T -> nat, t: seq<T>, done: set<int>)
  {
    && |t| == |s|
    && forall i: nat :: i in done ==> i < |s| && Position(s, d, i) < |s| && t[Position(s, d, i)] == s[i]
  }

  lemma WriteOne<T>(s: seq<T>, d: T -> nat, t: seq<T>, done: set<int>, i: nat)
    requires forall x :: x in s ==> d(x) < BUCKETS
    requires Written(s, d, t, done) && i < |s| && i !in done
    ensures Position(s, d, i) < |s|
    ensures Written(s, d, t[Position(s, d, i) := s[i]], done + {i})
  {
    hide Bucket, Buckets, Position;
    StableSortPermutes(s, d);
    PositionHolds(s, d, i);
    forall j: nat | j in done
      ensures Position(s, d, j) != Position(s, d, i)
    {
      if d(s[i]) < d(s[j]) || (d(s[i]) == d(s[j]) && i < j) {
        PositionOrder(s, d, i, j);
      } else {
        PositionOrder(s, d, j, i);
      }
    }
  }

  /** When all elements are written the destination is the stable sort. */
  lemma WrittenAll<T>(s: seq<T>, d: T -> nat, t: seq<T>, done: set<int>)
    requires forall x :: x in s ==> d(x) < BUCKETS
    requires Written(s, d, t, done) && forall i :: 0 <= i < |s| ==> i in done
    ensures t == StableSort(s, d)
  {
    hide Bucket, Buckets, Position;
    StableSortPermutes(s, d);
    forall q | 0 <= q < |s|
      ensures t[q] == StableSort(s, d)[q]
    {
      var i := PositionOnto(s, d, BUCKETS, q);
      PositionHolds(s, d, i);
      assert i in done;
    }
  }

  lemma OffsetsStep<T>(s: seq<T>, d: T -> nat, i: nat)
    requires i < |s|
    ensures forall b: nat :: |Bucket(s[..i + 1], d, b)| == |Bucket(s[..i], d, b)| + if d(s[i]) == b then 1 else 0
  {
    hide Bucket;
    forall b: nat
      ensures |Bucket(s[..i + 1], d, b)| == |Bucket(s[..i], d, b)| + if d(s[i]) == b then 1 else 0
    {
      BucketStep(s, d, b, i);
    }
  }

  /** Second half of a pass: task t moves its slice to the buckets. */
  method MoveItems<T>(src: array<T>, dst: array<T>, d: T -> nat, radixCount: seq<seq<nat>>, t: nat, tasks: nat,
                      ghost done: set<int>)
    requires src != dst && src.Length == dst.Length && t < tasks == |radixCount|
    requires forall x :: x in src[..] ==> d(x) < BUCKETS
    requires forall u: nat :: u < tasks ==> Counted(src[..], d, tasks, u, radixCount[u])
    requires Written(src[..], d, dst[..], done)
    requires forall i :: i in Interval(TaskStart(t, src.Length, tasks), TaskStart(t + 1, src.Length, tasks)) ==> i !in done
    modifies dst
    ensures Written(src[..], d, dst[..], done + Interval(TaskStart(t, src.Length, tasks), TaskStart(t + 1, src.Length, tasks)))
  {
    hide TaskStart, Bucket, Buckets, Counted, Written;
    ghost var s := src[..];
    TaskSlices(t, src.Length, tasks);
    var startID, endID := TaskStart(t, src.Length, tasks), TaskStart(t + 1, src.Length, tasks);
    var offset := StartOffsets(s, d, radixCount, t, tasks);
    assert done + Interval(startID, startID) == done;
    for i := startID to endID
      invariant src[..] == s && |offset| == BUCKETS
      invariant forall b: nat :: b < BUCKETS ==> offset[b] == |Buckets(s, d, b)| + |Bucket(s[..i], d, b)|
      invariant Written(s, d, dst[..], done + Interval(startID, i))
    {
      var elt := src[i];
      assert elt == s[i] && elt in s;
      var index := d(elt);
      ghost var written := dst[..];
      WriteOne(s, d, written, done + Interval(startID, i), i);
      assert offset[index] == Position(s, d, i);
      assert done + Interval(startID, i) + {i} == done + Interval(startID, i + 1);
      dst[offset[index]] := elt;
      assert dst[..] == written[Position(s, d, i) := s[i]];
      offset := offset[index := offset[index] + 1];
      OffsetsStep(s, d, i);
    }
  }

  class ParallelRadixSort<T> {
    const src: array<T>
    const tmp: array<T>
    const key: T -> nat
    var radixCount: seq<seq<nat>>

    constructor (src: array<T>, tmp: array<T>, key: T -> nat)
      ensures this.src == src && this.tmp == tmp && this.key == key
    {
      this.src, this.tmp, this.key := src, tmp, key;
      radixCount := [];
    }

    /** One pass: all tasks count, then all tasks move, in any order. */
    method RadixIteration(p: nat, from: array<T>, to: array<T>, numTasks: nat)
      requires from != to && from.Length == to.Length && 0 < numTasks
      modifies this`radixCount, to
      ensures to[..] == StableSort(from[..], DigitOf(key, p))
    {
      hide Bucket, Buckets, Counted, Written, StableSort, TaskStart, DoneTasks;
      var d := DigitOf(key, p);
      ghost var s := from[..];
      radixCount := seq(numTasks, _ => []);
      var pending := Tasks(numTasks);
      while pending != {}
        invariant from[..] == s
        invariant |radixCount| == numTasks
        invariant forall t: nat :: t in pending ==> t < numTasks
        invariant forall t: nat :: t < numTasks && t !in pending ==> Counted(s, d, numTasks, t, radixCount[t])
      {
        var taskIndex: nat :| taskIndex in pending;
        var count := CountDigits(from, d, taskIndex, numTasks);
        radixCount := radixCount[taskIndex := count];
        pending := pending - {taskIndex};
      }
      ghost var done, counts := {}, radixCount;
      WrittenNone(s, d, to[..]);
      pending := Tasks(numTasks);
      DoneTasksNone(|s|, numTasks);
      while pending != {}
        invariant from[..] == s
        invariant forall t: nat :: t in pending ==> t < numTasks
        invariant Written(s, d, to[..], done)
        invariant DoneTasks(done, pending, |s|, numTasks)
        invariant radixCount == counts
      {
        var taskIndex: nat :| taskIndex in pending;
        DoneTasksStep(done, pending, |s|, numTasks, taskIndex);
        MoveItems(from, to, d, radixCount, taskIndex, numTasks, done);
        done := done + Interval(TaskStart(taskIndex, |s|, numTasks), TaskStart(taskIndex + 1, |s|, numTasks));
        pending := pending - {taskIndex};
      }
      DoneTasksAll(done, |s|, numTasks);
      WrittenAll(s, d, to[..], done);
    }

    /** Two passes bring the data back to where it came from. */
    method TwoIterations(p: nat, numTasks: nat)
      requires src != tmp && src.Length == tmp.Length && 0 < numTasks
      requires SortedLow(src[..], key, p)
      modifies this`radixCount, src, tmp
      ensures SortedLow(src[..], key, p + 2)
      ensures multiset(src[..]) == multiset(old(src[..]))
      ensures SameOrder(old(src[..]), src[..], key)
    {
      hide StableSort, SortedLow, DigitOf;
      ghost var s := src[..];
      RadixIteration(p, src, tmp, numTasks);
      PassSorts(s, key, p);
      PassKeepsOrder(s, key, p);
      PassPermutes(s, key, p);
      ghost var t := tmp[..];
      RadixIteration(p + 1, tmp, src, numTasks);
      PassSorts(t, key, p + 1);
      PassKeepsOrder(t, key, p + 1);
      PassPermutes(t, key, p + 1);
    }

    /** Keys of 4 or 8 bytes take that many passes; the result ends in src. */
    method RadixSortTasks(numTasks: nat, keyBytes: nat)
      requires src != tmp && src.Length == tmp.Length && 0 < numTasks
      requires keyBytes == 4 || keyBytes == 8
      requires forall x :: x in src[..] ==> key(x) < Pow256(keyBytes)
      modifies this`radixCount, src, tmp
      ensures Sorted(src[..], key)
      ensures multiset(src[..]) == multiset(old(src[..]))
      ensures SameOrder(old(src[..]), src[..], key)
    {
      hide SortedLow, Pow256, Sorted;
      SortedNone(src[..], key);
      TwoIterations(0, numTasks);
      TwoIterations(2, numTasks);
      if keyBytes == 8 {
        TwoIterations(4, numTasks);
        TwoIterations(6, numTasks);
      }
      forall x | x in src[..]
        ensures key(x) < Pow256(keyBytes)
      {
        assert x in multiset(src[..]);
      }
      SortedAll(src[..], key, keyBytes);
    }

    /** Small arrays go to std::sort, for which insertion sort stands here. */
    method Sort(blockSize: nat, threads: nat, keyBytes: nat)
      requires src != tmp && src.Length == tmp.Length && 0 < blockSize && 0 < threads
      requires keyBytes == 4 || keyBytes == 8
      requires forall x :: x in src[..] ==> key(x) < Pow256(keyBytes)
      modifies this`radixCount, src, tmp
      ensures Sorted(src[..], key)
      ensures multiset(src[..]) == multiset(old(src[..]))
    {
      hide SameOrder, Pow256;
      if src.Length <= blockSize {
        InsertionSortAscending(src, key, 0, src.Length);
      } else {
        var blocks := (src.Length + blockSize - 1) / blockSize;
        assert 0 < blocks;
        RadixSortTasks(Min(blocks, Min(threads, MAX_TASKS)), keyBytes);
      }
    }
  }

  lemma WrittenNone<T>(s: seq<T>, d: T -> nat, t: seq<T>)
    requires |t| == |s|
    ensures Written(s, d, t, {})
  {
  }

  lemma SortedNone<T>(s: seq<T>, key: T -> nat)
    ensures SortedLow(s, key, 0)
  {
  }

  lemma PassPermutes<T>(s: seq<T>, key: T -> nat, p: nat)
    ensures multiset(StableSort(s, DigitOf(key, p))) == multiset(s)
  {
    StableSortPermutes(s, DigitOf(key, p));
  }
}
