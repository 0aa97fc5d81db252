/** Insertion sort of a range of an array by key
    (rtbuild/algorithms/parallel_sort.h, insertionsort_ascending). */
module InsertionSort {
  import opened Common
  import opened Partition

  ghost predicate SortedRange<T>(s: seq<T>, key: T -> nat, b: nat, e: nat)
    requires b <= e <= |s|
  {
    forall i, j :: b <= i < j < e ==> key(s[i]) <= key(s[j])
  }

  /** The elements from b to i are sorted, apart from a gap at j whose element
      v is held outside; everything right of the gap is larger than v. */
  ghost predicate Gap<T>(s: seq<T>, key: T -> nat, b: nat, j: nat, i: nat, v: T)
    requires b <= j <= i < |s|
  {
    && (forall x, y :: b <= x < y <= i && x != j && y != j ==> key(s[x]) <= key(s[y]))
    && (forall y :: j < y <= i ==> key(v) < key(s[y]))
  }

  lemma FillGap<T>(s: seq<T>, key: T -> nat, b: nat, j: nat, i: nat, v: T)
    requires b <= j <= i < |s| && Gap(s, key, b, j, i, v)
    requires b < j ==> key(s[j - 1]) <= key(v)
    ensures SortedRange(s[j := v], key, b, i + 1)
  {
    var t := s[j := v];
    forall x, y | b <= x < y < i + 1
      ensures key(t[x]) <= key(t[y])
    {
      if y == j && x < j - 1 {
        assert key(s[x]) <= key(s[j - 1]);
      }
    }
  }

  /** Moving an element into the gap moves the gap. */
  lemma MoveGap<T>(s: seq<T>, orig: seq<T>, key: T -> nat, b: nat, j: nat, i: nat, v: T, e: nat)
    requires b < j <= i < e <= |s| && Gap(s, key, b, j, i, v) && key(v) < key(s[j - 1])
    requires PermutesRange(orig, s[j := v], b, e)
    ensures Gap(s[j := s[j - 1]], key, b, j - 1, i, v)
    ensures PermutesRange(orig, s[j := s[j - 1]][j - 1 := v], b, e)
  {
    var t := s[j := v];
    var u := s[j := s[j - 1]][j - 1 := v];
    assert u == t[j := t[j - 1]][j - 1 := t[j]];
    PermutesSwap(t, u, b, e, j, j - 1);
    PermutesTrans(orig, t, u, b, e, b, e);
  }

  /** Moves the elements larger than v one place to the right. */
  method ShiftLarger<T>(a: array<T>, key: T -> nat, begin: nat, end: nat, i: nat, v: T, ghost orig: seq<T>)
    returns (j: nat)
    requires begin <= i < end <= a.Length && v == a[i]
    requires SortedRange(a[..], key, begin, i)
    requires PermutesRange(orig, a[..], begin, end)
    modifies a
    ensures begin <= j <= i && (begin < j ==> key(a[j - 1]) <= key(v))
    ensures Gap(a[..], key, begin, j, i, v)
    ensures PermutesRange(orig, a[..][j := v], begin, end)
  {
    hide PermutesRange, Gap;
    j := i;
    FirstGap(a[..], key, begin, i, v);
    assert a[..][i := v] == a[..];
    while begin < j && key(v) < key(a[j - 1])
      invariant begin <= j <= i
      invariant Gap(a[..], key, begin, j, i, v)
      invariant PermutesRange(orig, a[..][j := v], begin, end)
    {
      ghost var s := a[..];
      MoveGap(s, orig, key, begin, j, i, v, end);
      a[j] := a[j - 1];
      assert a[..] == s[j := s[j - 1]];
      j := j - 1;
    }
  }

  lemma FirstGap<T>(s: seq<T>, key: T -> nat, b: nat, i: nat, v: T)
    requires b <= i < |s| && SortedRange(s, key, b, i)
    ensures Gap(s, key, b, i, i, v)
  {
  }

  method InsertionSortAscending<T>(a: array<T>, key: T -> nat, begin: nat, end: nat)
    requires begin <= end <= a.Length
    modifies a
    ensures SortedRange(a[..], key, begin, end)
    ensures PermutesRange(old(a[..]), a[..], begin, end)
  {
    hide PermutesRange, Gap, SortedRange;
    PermutesSelf(a[..], begin, end);
    SortedStart(a[..], key, begin, Min(begin + 1, end));
    var i := begin + 1;
    while i < end
      invariant begin + 1 <= i
      invariant SortedRange(a[..], key, begin, Min(i, end))
      invariant PermutesRange(old(a[..]), a[..], begin, end)
    {
      var v := a[i];
      var j := ShiftLarger(a, key, begin, end, i, v, old(a[..]));
      FillGap(a[..], key, begin, j, i, v);
      ghost var s := a[..];
      a[j] := v;
      assert a[..] == s[j := v];
      i := i + 1;
    }
  }

  lemma SortedStart<T>(s: seq<T>, key: T -> nat, b: nat, e: nat)
    requires b <= e <= |s| && e <= b + 1
    ensures SortedRange(s, key, b, e)
  {
  }
}
