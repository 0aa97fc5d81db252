/** Choosing a split: binning of centroids, the two sweeps over the bins and the
    partition by the chosen bin (rtbuild/builders/heuristic_binning.h and
    rtbuild/builders/heuristic_binning_array_aligned.h:105-175). */
module Binning {
  import opened Common
  import opened Geometry
  import opened Bvh
  import opened Partition
  import opened ParallelPartition
  import opened Hulls

  const BINS: nat := 32
  const PARALLEL_THRESHOLD: nat := 3072
  const PARALLEL_PARTITION_BLOCK_SIZE: nat := 128

  /** Extents up to this length count as zero. */
  const EPS: real := 0.0000000000000000000000000000000001

  /** Twice the centre of a box. */
  function Center2(b: Box): Vec3 {
    if b.Empty? then Vec3(0.0, 0.0, 0.0) else Vec3(b.lo.x + b.hi.x, b.lo.y + b.hi.y, b.lo.z + b.hi.z)
  }

  /** Equally far from both faces. */
  lemma CenterIsMiddle(b: Box, d: nat)
    requires b.Box?
    ensures Axis(Center2(b), d) - 2.0 * Axis(b.lo, d) == 2.0 * Axis(b.hi, d) - Axis(Center2(b), d)
  {
  }

  // ----- the mapping of centroids to bins

  datatype Mapping = Mapping(num: nat, ofs: Vec3, scale: Vec3) {
    predicate Invalid(d: nat) {
      Axis(scale, d) == 0.0
    }
  }

  /** Four bins and one more for every 20 references, at most 32. */
  function BinCount(n: nat): (num: nat)
    ensures 4 <= num <= BINS
  {
    Min(BINS, (4.0 + 0.05 * n as real).Floor)
  }

  /** There are m bins from 20 (m - 4) references on. */
  lemma BinCountIs(n: nat, m: nat)
    requires 4 <= m <= BINS
    ensures m <= BinCount(n) <==> 20 * (m - 4) <= n
  {
    var x := 4.0 + 0.05 * n as real;
    assert m <= x.Floor <==> m as real <= x;
  }

  function Scale(num: nat, extent: real): real {
    if extent > EPS then 0.99 * num as real / extent else 0.0
  }

  function NewMapping(n: nat, cent: Box): Mapping
    requires cent.Box?
  {
    var num := BinCount(n);
    Mapping(num, cent.lo, Vec3(Scale(num, cent.hi.x - cent.lo.x), Scale(num, cent.hi.y - cent.lo.y), Scale(num, cent.hi.z - cent.lo.z)))
  }

  /** Position of a centroid in bin widths. */
  function Along(c: real, ofs: real, scale: real): real {
    (c - ofs) * scale
  }

  /** The bin of a reference. */
  function Bin(k: Mapping, p: PrimRef, d: nat): int {
    Along(Axis(Center2(p.bounds), d), Axis(k.ofs, d), Axis(k.scale, d)).Floor
  }

  /** The boxes of the centroids of the references. */
  ghost predicate CentroidBox(s: seq<PrimRef>, cent: Box) {
    && s != [] && cent.Box?
    && (forall p, d: nat :: p in s && d < 3 ==> Axis(cent.lo, d) <= Axis(Center2(p.bounds), d) <= Axis(cent.hi, d))
    && (forall d: nat :: d < 3 ==> EndAt(s, d, Axis(cent.lo, d)) && EndAt(s, d, Axis(cent.hi, d)))
  }

  /** Some centroid has this coordinate. */
  ghost predicate EndAt(s: seq<PrimRef>, d: nat, v: real) {
    exists p :: p in s && Axis(Center2(p.bounds), d) == v
  }

  lemma ScaledFits(c: real, lo: real, hi: real, num: nat)
    requires lo <= c <= hi && 4 <= num
    ensures 0.0 <= Along(c, lo, Scale(num, hi - lo)) <= 0.99 * num as real
    ensures c == lo ==> Along(c, lo, Scale(num, hi - lo)) == 0.0
    ensures c == hi && EPS < hi - lo ==> Along(c, lo, Scale(num, hi - lo)) == 0.99 * num as real
  {
    if EPS < hi - lo {
      Fraction(c - lo, hi - lo, 0.99 * num as real);
    }
  }

  lemma Fraction(a: real, b: real, n: real)
    requires 0.0 <= a <= b && 0.0 < b && 0.0 <= n
    ensures 0.0 <= a * (n / b) <= n
    ensures a == b ==> a * (n / b) == n
  {
    var q := n / b;
    assert q * b == n;
    assert a * q <= b * q;
  }

  lemma AxisOfMapping(n: nat, cent: Box, d: nat)
    requires cent.Box? && d < 3
    ensures Axis(NewMapping(n, cent).ofs, d) == Axis(cent.lo, d)
    ensures Axis(NewMapping(n, cent).scale, d) == Scale(BinCount(n), Axis(cent.hi, d) - Axis(cent.lo, d))
  {
    hide Scale;
  }

  /** No clamping is needed: bins are below 0.99 num + 1. */
  lemma BinInRange(s: seq<PrimRef>, cent: Box, p: PrimRef, d: nat, n: nat)
    requires CentroidBox(s, cent) && cent.Box? && p in s && d < 3
    ensures 0 <= Bin(NewMapping(n, cent), p, d) < BinCount(n)
    ensures Axis(Center2(p.bounds), d) == Axis(cent.lo, d) ==> Bin(NewMapping(n, cent), p, d) == 0
    ensures Axis(Center2(p.bounds), d) == Axis(cent.hi, d) && !NewMapping(n, cent).Invalid(d) ==> 3 <= Bin(NewMapping(n, cent), p, d)
  {
    hide Scale, NewMapping, BinCount, Center2, Along, Axis, CentroidBox;
    AxisOfMapping(n, cent, d);
    CentroidBounds(s, cent, p, d);
    var c, lo, hi := Axis(Center2(p.bounds), d), Axis(cent.lo, d), Axis(cent.hi, d);
    ScaledFits(c, lo, hi, BinCount(n));
    ScaleZero(BinCount(n), hi - lo);
    FloorFits(Along(c, lo, Scale(BinCount(n), hi - lo)), BinCount(n));
  }

  /** The bins are even: from the lower end of the centroids on, each one takes
      the hundredth part of a hundred 99ths of the extent over their number. */
  lemma BinIs(s: seq<PrimRef>, cent: Box, p: PrimRef, d: nat, n: nat, b: int)
    requires CentroidBox(s, cent) && cent.Box? && p in s && d < 3 && EPS < Axis(cent.hi, d) - Axis(cent.lo, d)
    ensures var c, lo, hi, num := Axis(Center2(p.bounds), d), Axis(cent.lo, d), Axis(cent.hi, d), BinCount(n);
      Bin(NewMapping(n, cent), p, d) == b <==>
        b as real * (hi - lo) <= 0.99 * num as real * (c - lo) < (b + 1) as real * (hi - lo)
  {
    hide Scale, NewMapping, BinCount, Center2, Along, Axis, CentroidBox;
    AxisOfMapping(n, cent, d);
    var c, lo, hi := Axis(Center2(p.bounds), d), Axis(cent.lo, d), Axis(cent.hi, d);
    AlongIs(c, lo, hi, BinCount(n), b as real);
    AlongIs(c, lo, hi, BinCount(n), (b + 1) as real);
  }

  lemma AlongIs(c: real, lo: real, hi: real, num: nat, b: real)
    requires EPS < hi - lo
    ensures b <= Along(c, lo, Scale(num, hi - lo)) <==> b * (hi - lo) <= 0.99 * num as real * (c - lo)
  {
    var w, x, q := hi - lo, 0.99 * num as real, 0.99 * num as real / (hi - lo);
    assert q * w == x;
    OverWidth(c - lo, q, w, b);
  }

  lemma OverWidth(a: real, q: real, w: real, b: real)
    requires 0.0 < w
    ensures b <= a * q <==> b * w <= q * w * a
  {
    assert q * w * a == (a * q) * w;
    if b <= a * q {
      assert (a * q - b) * w >= 0.0;
    } else {
      assert (b - a * q) * w > 0.0;
    }
  }

  lemma CentroidBounds(s: seq<PrimRef>, cent: Box, p: PrimRef, d: nat)
    requires CentroidBox(s, cent) && p in s && d < 3
    ensures cent.Box? && Axis(cent.lo, d) <= Axis(Center2(p.bounds), d) <= Axis(cent.hi, d)
  {
    hide Axis, Center2;
  }

  lemma FloorFits(x: real, num: nat)
    requires 0.0 <= x <= 0.99 * num as real && 4 <= num
    ensures 0 <= x.Floor < num
    ensures x == 0.99 * num as real ==> 3 <= x.Floor
  {
  }

  lemma ScaleZero(num: nat, extent: real)
    requires 4 <= num
    ensures Scale(num, extent) == 0.0 <==> extent <= EPS
  {
    if EPS < extent {
      var q := 0.99 * num as real / extent;
      assert q * extent == 0.99 * num as real;
    }
  }

  // ----- tallies

  datatype Cell = Cell(bounds: Box, count: nat)

  const NONE: Cell := Cell(Empty, 0)

  function Merge(a: Cell, b: Cell): Cell {
    Cell(Extend(a.bounds, b.bounds), a.count + b.count)
  }

  lemma MergeLaws(a: Cell, b: Cell, c: Cell)
    ensures Merge(Merge(a, b), c) == Merge(a, Merge(b, c)) == Merge(Merge(a, c), b)
    ensures Merge(a, b) == Merge(b, a) && Merge(a, NONE) == a == Merge(NONE, a)
  {
    ExtendLaws(a.bounds, b.bounds, c.bounds);
  }

  /** Adds a reference whose bin lies in the range. */
  function Adder(k: Mapping, d: nat, lo: int, hi: int): (Cell, PrimRef) -> Cell {
    (c: Cell, p: PrimRef) => if lo <= Bin(k, p, d) < hi then Merge(c, Cell(p.bounds, 1)) else c
  }

  /** Box and number of the references with bins from lo to hi. */
  function Tally(k: Mapping, s: seq<PrimRef>, d: nat, lo: int, hi: int): Cell {
    Fold(Adder(k, d, lo, hi), NONE, s)
  }

  lemma TallyAppend(k: Mapping, s: seq<PrimRef>, p: PrimRef, d: nat, lo: int, hi: int)
    ensures Tally(k, s + [p], d, lo, hi)
      == if lo <= Bin(k, p, d) < hi then Merge(Tally(k, s, d, lo, hi), Cell(p.bounds, 1)) else Tally(k, s, d, lo, hi)
  {
    hide Merge, Bin;
    FoldAppend(Adder(k, d, lo, hi), NONE, s, p);
  }

  lemma {:induction false} TallyConcat(k: Mapping, s: seq<PrimRef>, t: seq<PrimRef>, d: nat, lo: int, hi: int)
    ensures Tally(k, s + t, d, lo, hi) == Merge(Tally(k, s, d, lo, hi), Tally(k, t, d, lo, hi))
  {
    hide Merge, Bin, Tally;
    TallyNone(k, d, lo, hi);
    if t == [] {
      assert s + t == s;
      MergeLaws(Tally(k, s, d, lo, hi), NONE, NONE);
    } else {
      var n := |t| - 1;
      TallyConcat(k, s, t[..n], d, lo, hi);
      assert s + t == s + t[..n] + [t[n]] && t == t[..n] + [t[n]];
      TallyAppend(k, s + t[..n], t[n], d, lo, hi);
      TallyAppend(k, t[..n], t[n], d, lo, hi);
      MergeLaws(Tally(k, s, d, lo, hi), Tally(k, t[..n], d, lo, hi), Cell(t[n].bounds, 1));
    }
  }

  lemma TallyNone(k: Mapping, d: nat, lo: int, hi: int)
    ensures Tally(k, [], d, lo, hi) == NONE
  {
  }

  /** Neighbouring ranges of bins add up. */
  lemma {:induction false} TallyRange(k: Mapping, s: seq<PrimRef>, d: nat, lo: int, mid: int, hi: int)
    requires lo <= mid <= hi
    ensures Tally(k, s, d, lo, hi) == Merge(Tally(k, s, d, lo, mid), Tally(k, s, d, mid, hi))
  {
    hide Merge, Bin, Tally;
    if s == [] {
      TallyNone(k, d, lo, hi);
      TallyNone(k, d, lo, mid);
      TallyNone(k, d, mid, hi);
      MergeLaws(NONE, NONE, NONE);
    } else {
      var n := |s| - 1;
      var p := s[n];
      assert s == s[..n] + [p];
      TallyRange(k, s[..n], d, lo, mid, hi);
      TallyAppend(k, s[..n], p, d, lo, hi);
      TallyAppend(k, s[..n], p, d, lo, mid);
      TallyAppend(k, s[..n], p, d, mid, hi);
      MergeLaws(Tally(k, s[..n], d, lo, mid), Tally(k, s[..n], d, mid, hi), Cell(p.bounds, 1));
    }
  }

  lemma TallyPermutation(k: Mapping, s: seq<PrimRef>, t: seq<PrimRef>, d: nat, lo: int, hi: int)
    requires multiset(s) == multiset(t)
    ensures Tally(k, s, d, lo, hi) == Tally(k, t, d, lo, hi)
  {
    var f := Adder(k, d, lo, hi);
    forall v, x, y
      ensures f(f(v, x), y) == f(f(v, y), x)
    {
      MergeLaws(v, Cell(x.bounds, 1), Cell(y.bounds, 1));
    }
    FoldPermutation(f, NONE, s, t);
  }

  /** The range is empty exactly when no reference falls into it. */
  lemma {:induction false} TallyCount(k: Mapping, s: seq<PrimRef>, d: nat, lo: int, hi: int)
    requires forall p :: p in s ==> p.bounds.Box?
    ensures Tally(k, s, d, lo, hi).bounds.Empty? <==> Tally(k, s, d, lo, hi).count == 0
    ensures Tally(k, s, d, lo, hi).count == 0 <==> forall p :: p in s ==> !(lo <= Bin(k, p, d) < hi)
    ensures Tally(k, s, d, lo, hi).count <= |s|
    ensures (forall p :: p in s ==> lo <= Bin(k, p, d) < hi) ==> Tally(k, s, d, lo, hi).count == |s|
  {
    hide Bin, Tally;
    if s == [] {
      TallyNone(k, d, lo, hi);
    } else {
      var n := |s| - 1;
      assert s == s[..n] + [s[n]];
      TallyCount(k, s[..n], d, lo, hi);
      TallyAppend(k, s[..n], s[n], d, lo, hi);
    }
  }

  /** A single bin. */
  function BinTally(k: Mapping, s: seq<PrimRef>, d: nat, b: nat): Cell {
    Tally(k, s, d, b, b + 1)
  }

  // ----- binning an array

  ghost predicate InRange(k: Mapping, s: seq<PrimRef>) {
    k.num <= BINS && forall p, d: nat :: p in s && d < 3 ==> 0 <= Bin(k, p, d) < k.num
  }

  class BinInfo {
    const cells: array2<Cell>

    constructor ()
      ensures fresh(cells) && cells.Length0 == BINS && cells.Length1 == 3
      ensures forall b: nat, d: nat :: b < BINS && d < 3 ==> cells[b, d] == NONE
    {
      cells := new Cell[BINS, 3]((_, _) => NONE);
    }

    /** Every bin holds box and number of its references of s. */
    ghost predicate Holds(k: Mapping, s: seq<PrimRef>)
      reads cells
    {
      && cells.Length0 == BINS && cells.Length1 == 3
      && forall b: nat, d: nat :: b < BINS && d < 3 ==> cells[b, d] == BinTally(k, s, d, b)
    }

    /** Adds one reference to its bin in every dimension. */
    method Add(k: Mapping, p: PrimRef, ghost s: seq<PrimRef>)
      requires Holds(k, s) && InRange(k, [p])
      modifies cells
      ensures Holds(k, s + [p])
    {
      hide Bin, Tally, Merge;
      for d := 0 to 3
        invariant cells.Length0 == BINS && cells.Length1 == 3
        invariant forall b: nat, e: nat :: b < BINS && e < 3 ==> cells[b, e] == BinTally(k, if e < d then s + [p] else s, e, b)
      {
        var bin := Bin(k, p, d);
        BinOf(k, p, d);
        var b0 := Min(Max(bin, 0), k.num - 1);
        forall b: nat | b < BINS
          ensures BinTally(k, s + [p], d, b)
            == if b == b0 then Merge(BinTally(k, s, d, b), Cell(p.bounds, 1)) else BinTally(k, s, d, b)
        {
          TallyAppend(k, s, p, d, b, b + 1);
        }
        cells[b0, d] := Merge(cells[b0, d], Cell(p.bounds, 1));
      }
    }

    /** Bins a range, two references at a time. */
    method BinRange(k: Mapping, prims: array<PrimRef>, begin: nat, end: nat, ghost s: seq<PrimRef>)
      requires begin <= end <= prims.Length && Holds(k, s) && InRange(k, prims[begin..end])
      modifies cells
      ensures Holds(k, s + prims[begin..end])
    {
      hide Bin, Tally, Holds, InRange;
      if end == begin {
        assert s + prims[begin..end] == s;
        return;
      }
      var i := begin;
      assert s + prims[begin..begin] == s;
      while i < end - 1
        invariant begin <= i <= end && Holds(k, s + prims[begin..i])
      {
        InRangeOne(k, prims[begin..end], i - begin);
        InRangeOne(k, prims[begin..end], i + 1 - begin);
        Add(k, prims[i], s + prims[begin..i]);
        assert s + prims[begin..i] + [prims[i]] == s + prims[begin..i + 1];
        Add(k, prims[i + 1], s + prims[begin..i + 1]);
        assert s + prims[begin..i + 1] + [prims[i + 1]] == s + prims[begin..i + 2];
        i := i + 2;
      }
      if i < end {
        InRangeOne(k, prims[begin..end], i - begin);
        Add(k, prims[i], s + prims[begin..i]);
        assert s + prims[begin..i] + [prims[i]] == s + prims[begin..i + 1];
      }
    }

    /** Adds the bins of another range. */
    method MergeWith(other: BinInfo, numBins: nat, ghost k: Mapping, ghost s: seq<PrimRef>, ghost t: seq<PrimRef>)
      requires other.cells != cells && Holds(k, s) && other.Holds(k, t) && InRange(k, t) && numBins == k.num
      modifies cells
      ensures Holds(k, s + t)
    {
      hide Bin, Tally, Merge, InRange;
      InRangeBins(k, t);
      for i := 0 to numBins
        invariant cells.Length0 == BINS && cells.Length1 == 3 && other.Holds(k, t)
        invariant forall b: nat, e: nat :: b < BINS && e < 3 ==> cells[b, e] == BinTally(k, if b < i then s + t else s, e, b)
      {
        TallyConcat(k, s, t, 0, i, i + 1);
        TallyConcat(k, s, t, 1, i, i + 1);
        TallyConcat(k, s, t, 2, i, i + 1);
        cells[i, 0] := Merge(cells[i, 0], other.cells[i, 0]);
        cells[i, 1] := Merge(cells[i, 1], other.cells[i, 1]);
        cells[i, 2] := Merge(cells[i, 2], other.cells[i, 2]);
      }
      forall b: nat, e: nat | b < BINS && e < 3
        ensures cells[b, e] == BinTally(k, s + t, e, b)
      {
        TallyConcat(k, s, t, e, b, b + 1);
        if k.num <= b {
          TallyBeyond(k, t, e, b);
          MergeLaws(BinTally(k, s, e, b), NONE, NONE);
        }
      }
    }
  }

  lemma BinOf(k: Mapping, p: PrimRef, d: nat)
    requires InRange(k, [p]) && d < 3
    ensures 0 <= Bin(k, p, d) < k.num <= BINS
  {
    hide Bin;
    assert p in [p];
  }

  lemma InRangeOne(k: Mapping, s: seq<PrimRef>, i: nat)
    requires InRange(k, s) && i < |s|
    ensures InRange(k, [s[i]])
  {
    hide Bin;
  }

  lemma InRangeBins(k: Mapping, s: seq<PrimRef>)
    requires InRange(k, s)
    ensures k.num <= BINS
  {
  }

  lemma {:induction false} TallyBeyond(k: Mapping, s: seq<PrimRef>, d: nat, b: nat)
    requires InRange(k, s) && d < 3 && k.num <= b
    ensures BinTally(k, s, d, b) == NONE
  {
    hide Bin, Tally, Merge;
    if s == [] {
      TallyNone(k, d, b, b + 1);
    } else {
      var n := |s| - 1;
      assert s == s[..n] + [s[n]];
      TallyBeyond(k, s[..n], d, b);
      TallyAppend(k, s[..n], s[n], d, b, b + 1);
      assert s[n] in s;
    }
  }

  /** Binning by parallel reduction: the range is cut anywhere, any number of
      times, and the parts are merged; the result is that of serial binning. */
  method BinParallel(k: Mapping, prims: array<PrimRef>, begin: nat, end: nat) returns (info: BinInfo)
    requires begin <= end <= prims.Length && InRange(k, prims[begin..end])
    ensures fresh(info) && fresh(info.cells) && info.Holds(k, prims[begin..end])
    decreases end - begin
  {
    hide Bin, Tally, InRange;
    var mid: nat := *;
    if begin < mid < end {
      InRangePart(k, prims[begin..end], mid - begin);
      assert prims[begin..end][..mid - begin] == prims[begin..mid] && prims[begin..end][mid - begin..] == prims[mid..end];
      var left := BinParallel(k, prims, begin, mid);
      var right := BinParallel(k, prims, mid, end);
      left.MergeWith(right, k.num, k, prims[begin..mid], prims[mid..end]);
      assert prims[begin..mid] + prims[mid..end] == prims[begin..end];
      info := left;
    } else {
      info := new BinInfo();
      TalliesNone(k);
      info.BinRange(k, prims, begin, end, []);
      assert [] + prims[begin..end] == prims[begin..end];
    }
  }

  lemma TalliesNone(k: Mapping)
    ensures forall b: nat, d: nat :: b < BINS && d < 3 ==> BinTally(k, [], d, b) == NONE
  {
  }

  lemma InRangePart(k: Mapping, s: seq<PrimRef>, i: nat)
    requires InRange(k, s) && i <= |s|
    ensures InRange(k, s[..i]) && InRange(k, s[i..])
  {
    hide Bin;
  }

  // ----- the best split

  /** Number of blocks of the given size. */
  function Blocks(count: nat, blockSize: nat): nat
    requires 1 <= blockSize
  {
    (count + blockSize - 1) / blockSize
  }

  /** Surface area heuristic of two sides; undefined when a side is empty, as an
      infinite area times zero. */
  function SahOf(l: Cell, r: Cell, blockSize: nat): Option<real>
    requires 1 <= blockSize
  {
    if l.bounds.Empty? || r.bounds.Empty? then None
    else Some(HalfArea(l.bounds) * Blocks(l.count, blockSize) as real + HalfArea(r.bounds) * Blocks(r.count, blockSize) as real)
  }

  /** The cost of splitting s at a bin, straight from the references. */
  function Cost(k: Mapping, s: seq<PrimRef>, d: nat, pos: nat, blockSize: nat): Option<real>
    requires 1 <= blockSize
  {
    SahOf(Tally(k, s, d, 0, pos), Tally(k, s, d, pos, k.num), blockSize)
  }

  datatype Best = Best(sah: Option<real>, pos: nat)

  /** The first cheapest of the positions before n; position 0 is no split. */
  ghost predicate Cheapest(k: Mapping, s: seq<PrimRef>, d: nat, blockSize: nat, n: nat, best: Best)
    requires 1 <= blockSize
  {
    && (best.sah.Some? <==> best.pos != 0)
    && (best.pos != 0 ==> 1 <= best.pos < n && Cost(k, s, d, best.pos, blockSize) == best.sah)
    && (forall pos: nat :: 1 <= pos < n ==> Beaten(Cost(k, s, d, pos, blockSize), best.sah))
    && (forall pos: nat :: 1 <= pos < best.pos ==> Cost(k, s, d, pos, blockSize) != best.sah)
  }

  /** c is not below the best cost. */
  predicate Beaten(c: Option<real>, best: Option<real>) {
    c.Some? ==> best.Some? && best.value <= c.value
  }

  /** Right sweep: box and count of the bins from i on. */
  method SweepRight(info: BinInfo, k: Mapping, d: nat, ghost s: seq<PrimRef>) returns (right: array<Cell>)
    requires info.Holds(k, s) && 2 <= k.num <= BINS && d < 3
    ensures fresh(right) && right.Length == k.num
    ensures forall i: nat :: 1 <= i < k.num ==> right[i] == Tally(k, s, d, i, k.num)
  {
    hide Tally, Merge;
    right := new Cell[k.num](_ => NONE);
    var c := NONE;
    var i := k.num - 1;
    TallyNothing(k, s, d, k.num);
    while i > 0
      invariant i < k.num && info.Holds(k, s) && right.Length == k.num
      invariant c == Tally(k, s, d, i + 1, k.num)
      invariant forall j: nat :: i < j < k.num ==> right[j] == Tally(k, s, d, j, k.num)
    {
      TallyRange(k, s, d, i, i + 1, k.num);
      assert info.cells[i, d] == BinTally(k, s, d, i);
      MergeLaws(c, info.cells[i, d], NONE);
      c := Merge(c, info.cells[i, d]);
      right[i] := c;
      i := i - 1;
    }
  }

  lemma {:induction false} TallyNothing(k: Mapping, s: seq<PrimRef>, d: nat, b: nat)
    ensures Tally(k, s, d, b, b) == NONE
  {
    hide Tally, Bin, Merge;
    if s == [] {
      TallyNone(k, d, b, b);
    } else {
      var n := |s| - 1;
      assert s == s[..n] + [s[n]];
      TallyNothing(k, s[..n], d, b);
      TallyAppend(k, s[..n], s[n], d, b, b);
    }
  }

  /** Left sweep of one dimension: the first cheapest position. */
  method SweepLeft(info: BinInfo, k: Mapping, d: nat, blockSize: nat, right: array<Cell>, ghost s: seq<PrimRef>) returns (best: Best)
    requires info.Holds(k, s) && 2 <= k.num <= BINS && d < 3 && 1 <= blockSize
    requires right.Length == k.num && forall i: nat :: 1 <= i < k.num ==> right[i] == Tally(k, s, d, i, k.num)
    ensures Cheapest(k, s, d, blockSize, k.num, best)
  {
    hide Tally, Merge, SahOf;
    best := Best(None, 0);
    var c := NONE;
    TallyNothing(k, s, d, 0);
    for i := 1 to k.num
      invariant c == Tally(k, s, d, 0, i - 1)
      invariant Cheapest(k, s, d, blockSize, i, best)
    {
      TallyRange(k, s, d, 0, i - 1, i);
      assert info.cells[i - 1, d] == BinTally(k, s, d, i - 1);
      c := Merge(c, info.cells[i - 1, d]);
      var sah := SahOf(c, right[i], blockSize);
      assert sah == Cost(k, s, d, i, blockSize);
      if sah.Some? && (best.sah.None? || sah.value < best.sah.value) {
        best := Best(sah, i);
      }
    }
  }

  datatype BinSplit = NoSplit | BinSplit(sah: real, dim: nat, pos: nat)

  /** No position of the valid dimensions before n is cheaper, nor an earlier one
      as cheap. */
  ghost predicate Optimal(k: Mapping, s: seq<PrimRef>, blockSize: nat, n: nat, split: BinSplit)
    requires 1 <= blockSize
  {
    && (split.BinSplit? ==> split.dim < n && !k.Invalid(split.dim) && 1 <= split.pos < k.num)
    && (split.BinSplit? ==> Cost(k, s, split.dim, split.pos, blockSize) == Some(split.sah))
    && (forall d: nat, pos: nat :: d < n && !k.Invalid(d) && 1 <= pos < k.num ==>
          Beaten(Cost(k, s, d, pos, blockSize), if split.BinSplit? then Some(split.sah) else None))
    && (split.BinSplit? ==> forall d: nat, pos: nat :: !k.Invalid(d) && 1 <= pos < k.num && Earlier(d, pos, split) ==>
          Cost(k, s, d, pos, blockSize) != Some(split.sah))
  }

  /** Positions are compared in this order, dimension by dimension. */
  predicate Earlier(d: nat, pos: nat, split: BinSplit)
    requires split.BinSplit?
  {
    d < split.dim || (d == split.dim && pos < split.pos)
  }

  /** The cheapest split over all positions of all dimensions of extent. */
  method BestBlockSize(info: BinInfo, k: Mapping, blockSize: nat, ghost s: seq<PrimRef>) returns (split: BinSplit)
    requires info.Holds(k, s) && 2 <= k.num <= BINS && 1 <= blockSize
    ensures Optimal(k, s, blockSize, 3, split)
  {
    hide Cost, Cheapest;
    split := NoSplit;
    for dim := 0 to 3
      invariant info.Holds(k, s) && Optimal(k, s, blockSize, dim, split)
    {
      var right := SweepRight(info, k, dim, s);
      var best := SweepLeft(info, k, dim, blockSize, right, s);
      CheapestFacts(k, s, dim, blockSize, k.num, best);
      if !k.Invalid(dim) {
        if best.pos != 0 && (split.NoSplit? || best.sah.value < split.sah) {
          split := BinSplit(best.sah.value, dim, best.pos);
        }
      }
    }
  }

  lemma CheapestFacts(k: Mapping, s: seq<PrimRef>, d: nat, blockSize: nat, n: nat, best: Best)
    requires 1 <= blockSize && Cheapest(k, s, d, blockSize, n, best)
    ensures best.sah.Some? <==> best.pos != 0
    ensures best.pos != 0 ==> 1 <= best.pos < n && Cost(k, s, d, best.pos, blockSize) == best.sah
    ensures forall pos: nat :: 1 <= pos < n ==> Beaten(Cost(k, s, d, pos, blockSize), best.sah)
    ensures forall pos: nat :: 1 <= pos < best.pos ==> Cost(k, s, d, pos, blockSize) != best.sah
  {
    hide Cost;
  }

  /** Both sides of a split of finite cost hold references. */
  lemma CostSides(k: Mapping, s: seq<PrimRef>, d: nat, pos: nat, blockSize: nat)
    requires 1 <= blockSize && forall p :: p in s ==> p.bounds.Box?
    ensures Cost(k, s, d, pos, blockSize).Some? <==>
            (exists p :: p in s && 0 <= Bin(k, p, d) < pos) && (exists p :: p in s && pos <= Bin(k, p, d) < k.num)
  {
    hide Tally, Bin;
    TallyCount(k, s, d, 0, pos);
    TallyCount(k, s, d, pos, k.num);
  }

  /** A split is found exactly when the centroids have extent in some dimension. */
  lemma SplitExists(s: seq<PrimRef>, cent: Box, blockSize: nat, split: BinSplit)
    requires CentroidBox(s, cent) && cent.Box? && 1 <= blockSize && forall p :: p in s ==> p.bounds.Box?
    requires Optimal(NewMapping(|s|, cent), s, blockSize, 3, split)
    ensures split.BinSplit? <==> exists d: nat :: d < 3 && EPS < Axis(cent.hi, d) - Axis(cent.lo, d)
  {
    hide NewMapping, Axis, Center2, Bin, Cost, Scale, BinCount;
    var k := NewMapping(|s|, cent);
    forall d: nat | d < 3
      ensures k.Invalid(d) <==> Axis(cent.hi, d) - Axis(cent.lo, d) <= EPS
      ensures !k.Invalid(d) ==> Cost(k, s, d, 1, blockSize).Some?
    {
      AxisOfMapping(|s|, cent, d);
      ScaleZero(BinCount(|s|), Axis(cent.hi, d) - Axis(cent.lo, d));
      if !k.Invalid(d) {
        ExtentSplits(s, cent, d, blockSize);
      }
    }
    NumOfMapping(|s|, cent);
    if d: nat :| d < 3 && !k.Invalid(d) {
      assert Beaten(Cost(k, s, d, 1, blockSize), if split.BinSplit? then Some(split.sah) else None);
    }
  }

  lemma NumOfMapping(n: nat, cent: Box)
    requires cent.Box?
    ensures NewMapping(n, cent).num == BinCount(n)
  {
  }

  lemma ExtentSplits(s: seq<PrimRef>, cent: Box, d: nat, blockSize: nat)
    requires CentroidBox(s, cent) && cent.Box? && d < 3 && 1 <= blockSize && forall p :: p in s ==> p.bounds.Box?
    requires !NewMapping(|s|, cent).Invalid(d)
    ensures Cost(NewMapping(|s|, cent), s, d, 1, blockSize).Some?
  {
    hide NewMapping, Axis, Center2, Bin, Cost, Scale, BinCount;
    var k := NewMapping(|s|, cent);
    var p :| p in s && Axis(Center2(p.bounds), d) == Axis(cent.lo, d);
    var q :| q in s && Axis(Center2(q.bounds), d) == Axis(cent.hi, d);
    BinInRange(s, cent, p, d, |s|);
    BinInRange(s, cent, q, d, |s|);
    NumOfMapping(|s|, cent);
    CostSides(k, s, d, 1, blockSize);
  }

  // ----- binning and partitioning

  lemma AllInRange(s: seq<PrimRef>, cent: Box)
    requires CentroidBox(s, cent) && cent.Box?
    ensures InRange(NewMapping(|s|, cent), s)
  {
    hide NewMapping, Axis, Center2, Bin, Scale, CentroidBox;
    NumOfMapping(|s|, cent);
    forall p, d: nat | p in s && d < 3
      ensures 0 <= Bin(NewMapping(|s|, cent), p, d) < BinCount(|s|)
    {
      BinInRange(s, cent, p, d, |s|);
    }
  }

  // ----- the box of the centroids

  /** The box of the centroids of a range. */
  method CentroidBoxOf(prims: array<PrimRef>, begin: nat, end: nat) returns (cent: Box)
    requires begin < end <= prims.Length
    ensures CentroidBox(prims[begin..end], cent) && cent.Box?
  {
    hide CentroidBox, Center2;
    var c := Center2(prims[begin].bounds);
    cent := Box(c, c);
    CentroidOne(prims[begin..end]);
    assert prims[begin..begin + 1] == prims[begin..end][..1];
    for i := begin + 1 to end
      invariant cent.Box? && CentroidBox(prims[begin..i], cent)
    {
      var d := Center2(prims[i].bounds);
      CentroidMore(prims[begin..i], cent, prims[i]);
      assert prims[begin..i + 1] == prims[begin..i] + [prims[i]];
      cent := Extend(cent, Box(d, d));
    }
  }

  lemma CentroidOne(s: seq<PrimRef>)
    requires s != []
    ensures CentroidBox(s[..1], Box(Center2(s[0].bounds), Center2(s[0].bounds)))
  {
    assert s[0] in s[..1];
  }

  lemma CentroidMore(s: seq<PrimRef>, cent: Box, p: PrimRef)
    requires CentroidBox(s, cent) && cent.Box?
    ensures var c := Extend(cent, Box(Center2(p.bounds), Center2(p.bounds)));
      c.Box? && CentroidBox(s + [p], c)
  {
    hide Center2, Axis, CentroidBox, Extend;
    var v := Center2(p.bounds);
    var c := Extend(cent, Box(v, v));
    ExtendAxes(cent, v);
    forall q, d: nat | q in s + [p] && d < 3
      ensures Axis(c.lo, d) <= Axis(Center2(q.bounds), d) <= Axis(c.hi, d)
    {
      if q in s {
        CentroidBounds(s, cent, q, d);
      }
    }
    forall d: nat | d < 3
      ensures exists q :: q in s + [p] && Axis(Center2(q.bounds), d) == Axis(c.lo, d)
      ensures exists q :: q in s + [p] && Axis(Center2(q.bounds), d) == Axis(c.hi, d)
    {
      var q, q1 := CentroidEnds(s, cent, d);
      assert p in s + [p] && q in s + [p] && q1 in s + [p];
    }
    CentroidIf(s + [p], c);
  }

  lemma ExtendAxes(cent: Box, v: Vec3)
    requires cent.Box?
    ensures var c := Extend(cent, Box(v, v));
      c.Box? && forall d: nat :: d < 3 ==>
        Axis(c.lo, d) == MinR(Axis(cent.lo, d), Axis(v, d)) && Axis(c.hi, d) == MaxR(Axis(cent.hi, d), Axis(v, d))
  {
  }

  lemma CentroidEnds(s: seq<PrimRef>, cent: Box, d: nat) returns (p: PrimRef, q: PrimRef)
    requires CentroidBox(s, cent) && d < 3
    ensures cent.Box? && p in s && q in s
    ensures Axis(Center2(p.bounds), d) == Axis(cent.lo, d) && Axis(Center2(q.bounds), d) == Axis(cent.hi, d)
  {
    hide Center2, Axis;
    assert EndAt(s, d, Axis(cent.lo, d)) && EndAt(s, d, Axis(cent.hi, d));
    p :| p in s && Axis(Center2(p.bounds), d) == Axis(cent.lo, d);
    q :| q in s && Axis(Center2(q.bounds), d) == Axis(cent.hi, d);
  }

  lemma CentroidIf(s: seq<PrimRef>, cent: Box)
    requires s != [] && cent.Box?
    requires forall p, d: nat :: p in s && d < 3 ==> Axis(cent.lo, d) <= Axis(Center2(p.bounds), d) <= Axis(cent.hi, d)
    requires forall d: nat :: d < 3 ==> EndAt(s, d, Axis(cent.lo, d)) && EndAt(s, d, Axis(cent.hi, d))
    ensures CentroidBox(s, cent)
  {
  }
}
