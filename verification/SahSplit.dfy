/** What the surface area heuristic chooses, in terms of the references on both
    sides (rtbuild/builders/heuristic_binning.h:403-460 and
    rtbuild/builders/heuristic_binning_array_aligned.h:105-175). */
module SahSplit {
  import opened Common
  import opened Geometry
  import opened Bvh
  import opened Partition
  import opened ParallelPartition
  import opened Hulls
  import opened Binning

  // ----- the cost of a side

  /** Every block of references, the last one possibly smaller, is charged with
      half the surface of the side's box. */
  function SideCost(b: Box, count: nat, blockSize: nat): real
    requires 1 <= blockSize
    decreases count
  {
    if count == 0 then 0.0
    else HalfArea(b) + SideCost(b, if count <= blockSize then 0 else count - blockSize, blockSize)
  }

  /** Both sides of a cut. */
  function SidesCost(ls: seq<PrimRef>, rs: seq<PrimRef>, blockSize: nat): real
    requires 1 <= blockSize
  {
    SideCost(Hull(ls), |ls|, blockSize) + SideCost(Hull(rs), |rs|, blockSize)
  }

  lemma {:induction false} SideCostIs(b: Box, count: nat, blockSize: nat)
    requires 1 <= blockSize
    ensures SideCost(b, count, blockSize) == HalfArea(b) * Blocks(count, blockSize) as real
    decreases count
  {
    hide HalfArea;
    BlocksStep(count, blockSize);
    if count != 0 {
      SideCostIs(b, if count <= blockSize then 0 else count - blockSize, blockSize);
    }
  }

  lemma BlocksStep(count: nat, blockSize: nat)
    requires 1 <= blockSize
    ensures Blocks(0, blockSize) == 0
    ensures 0 < count <= blockSize ==> Blocks(count, blockSize) == 1
    ensures blockSize < count ==> Blocks(count, blockSize) == Blocks(count - blockSize, blockSize) + 1
  {
    if count <= blockSize {
      if 0 < count {
        DivUnique(count + blockSize - 1, blockSize, 1);
      }
      DivUnique(blockSize - 1, blockSize, 0);
    } else {
      var q := DivFloor(count - 1, blockSize);
      DivUnique(count + blockSize - 1, blockSize, q + 1);
    }
  }

  /** The cost that the sweeps compute is that of both sides. */
  lemma SahIsSides(l: Cell, r: Cell, blockSize: nat)
    requires 1 <= blockSize
    ensures SahOf(l, r, blockSize).Some? ==>
      SahOf(l, r, blockSize).value == SideCost(l.bounds, l.count, blockSize) + SideCost(r.bounds, r.count, blockSize)
  {
    hide HalfArea, Blocks;
    SideCostIs(l.bounds, l.count, blockSize);
    SideCostIs(r.bounds, r.count, blockSize);
  }

  // ----- the sides of a bin boundary

  /** The references whose bins lie in the range. */
  function InBins(k: Mapping, s: seq<PrimRef>, d: nat, lo: int, hi: int): seq<PrimRef> {
    Filter((p: PrimRef) => lo <= Bin(k, p, d) < hi, s)
  }

  lemma {:induction false} TallyIs(k: Mapping, s: seq<PrimRef>, d: nat, lo: int, hi: int)
    ensures Tally(k, s, d, lo, hi) == Cell(Hull(InBins(k, s, d, lo, hi)), |InBins(k, s, d, lo, hi)|)
  {
    hide Bin, Tally, Hull, Extend;
    if s == [] {
      TallyNone(k, d, lo, hi);
      HullNone();
    } else {
      var n := |s| - 1;
      assert s == s[..n] + [s[n]];
      TallyIs(k, s[..n], d, lo, hi);
      TallyAppend(k, s[..n], s[n], d, lo, hi);
      var w := InBins(k, s[..n], d, lo, hi);
      HullAppend(w, s[n]);
      if lo <= Bin(k, s[n], d) < hi {
        assert InBins(k, s, d, lo, hi) == w + [s[n]];
      } else {
        assert InBins(k, s, d, lo, hi) == w + [] == w;
      }
    }
  }

  /** Bin boundary pos of dimension d is a candidate: the centroids have extent,
      and neither side is empty. */
  ghost predicate Candidate(k: Mapping, s: seq<PrimRef>, d: nat, pos: nat) {
    && d < 3 && !k.Invalid(d) && 1 <= pos < k.num
    && InBins(k, s, d, 0, pos) != [] && InBins(k, s, d, pos, k.num) != []
  }

  /** The cost of a candidate. */
  function CutCost(k: Mapping, s: seq<PrimRef>, d: nat, pos: nat, blockSize: nat): real
    requires 1 <= blockSize
  {
    SidesCost(InBins(k, s, d, 0, pos), InBins(k, s, d, pos, k.num), blockSize)
  }

  lemma CostIs(k: Mapping, s: seq<PrimRef>, d: nat, pos: nat, blockSize: nat)
    requires 1 <= blockSize && forall p :: p in s ==> p.bounds.Box?
    requires d < 3 && !k.Invalid(d) && 1 <= pos < k.num
    ensures Cost(k, s, d, pos, blockSize).Some? <==> Candidate(k, s, d, pos)
    ensures Candidate(k, s, d, pos) ==> Cost(k, s, d, pos, blockSize) == Some(CutCost(k, s, d, pos, blockSize))
  {
    hide Tally, InBins, Hull, SideCost, Mapping.Invalid, Bin;
    TallyIs(k, s, d, 0, pos);
    TallyIs(k, s, d, pos, k.num);
    TallyCount(k, s, d, 0, pos);
    TallyCount(k, s, d, pos, k.num);
    SahIsSides(Tally(k, s, d, 0, pos), Tally(k, s, d, pos, k.num), blockSize);
  }

  /** The cut at (d, pos) costs no more than any candidate, and less than every
      earlier one. */
  ghost predicate CheapestCut(k: Mapping, s: seq<PrimRef>, d: nat, pos: nat, blockSize: nat)
    requires 1 <= blockSize
  {
    && Candidate(k, s, d, pos)
    && forall e: nat, q: nat :: Candidate(k, s, e, q) ==>
         && CutCost(k, s, d, pos, blockSize) <= CutCost(k, s, e, q, blockSize)
         && (e < d || (e == d && q < pos) ==> CutCost(k, s, d, pos, blockSize) < CutCost(k, s, e, q, blockSize))
  }

  lemma OptimalIs(k: Mapping, s: seq<PrimRef>, blockSize: nat, split: BinSplit)
    requires 1 <= blockSize && Optimal(k, s, blockSize, 3, split) && forall p :: p in s ==> p.bounds.Box?
    ensures split.BinSplit? ==> CheapestCut(k, s, split.dim, split.pos, blockSize)
    ensures split.NoSplit? ==> forall e: nat, q: nat :: !Candidate(k, s, e, q)
  {
    hide Cost, CutCost, InBins, Mapping.Invalid;
    forall e: nat, q: nat | Candidate(k, s, e, q)
      ensures split.BinSplit? && Cost(k, s, e, q, blockSize) == Some(CutCost(k, s, e, q, blockSize))
      ensures split.sah <= CutCost(k, s, e, q, blockSize) && (Earlier(e, q, split) ==> split.sah < CutCost(k, s, e, q, blockSize))
    {
      CostIs(k, s, e, q, blockSize);
      assert Beaten(Cost(k, s, e, q, blockSize), if split.BinSplit? then Some(split.sah) else None);
    }
    if split.BinSplit? {
      CostIs(k, s, split.dim, split.pos, blockSize);
    }
  }

  // ----- binning and partitioning

  /** find_block_size followed by split: the array is cut where both sides cost
      least, at the first such bin boundary, and neither side is empty; without
      extent in any dimension it is left alone. */
  method FindAndSplit(prims: array<PrimRef>, begin: nat, end: nat, cent: Box, blockSize: nat) returns (split: BinSplit, mid: nat)
    requires begin < end <= prims.Length && 1 <= blockSize
    requires CentroidBox(prims[begin..end], cent) && cent.Box? && forall p :: p in prims[begin..end] ==> p.bounds.Box?
    modifies prims
    ensures PermutesRange(old(prims[..]), prims[..], begin, end)
    ensures split.BinSplit? <==> exists d: nat :: d < 3 && EPS < Axis(cent.hi, d) - Axis(cent.lo, d)
    ensures split.NoSplit? ==> prims[..] == old(prims[..])
    ensures split.BinSplit? ==> begin < mid < end
    ensures split.BinSplit? ==> CheapestCut(NewMapping(end - begin, cent), old(prims[begin..end]), split.dim, split.pos, blockSize)
    ensures split.BinSplit? ==>
      forall i :: begin <= i < end ==> (Bin(NewMapping(end - begin, cent), prims[i], split.dim) < split.pos <==> i < mid)
  {
    hide CentroidBox, Optimal, InRange, Axis, Tally, Bin, NewMapping, PermutesRange, Fold, FoldBack, CheapestCut, Candidate;
    ghost var s := prims[begin..end];
    var k := NewMapping(end - begin, cent);
    NumOfMapping(end - begin, cent);
    AllInRange(s, cent);
    var info := BinParallel(k, prims, begin, end);
    split := BestBlockSize(info, k, blockSize, s);
    SplitExists(s, cent, blockSize, split);
    OptimalIs(k, s, blockSize, split);
    mid := begin;
    PermutesSelf(prims[..], begin, end);
    if split.BinSplit? {
      ghost var s0 := prims[..];
      var isLeft: PrimRef -> bool := p => Bin(k, p, split.dim) < split.pos;
      var lbox, rbox;
      if end - begin < PARALLEL_THRESHOLD {
        mid, lbox, rbox := SerialPartitioning(Job(isLeft, Grow, begin, end), prims, Empty, Empty);
      } else {
        var threads: nat :| 0 < threads;
        GrowMerges();
        mid, lbox, rbox := ParallelPartitioning(Job(isLeft, Grow, begin, end), prims, Empty, Extend, Empty, Empty,
                                                PARALLEL_PARTITION_BLOCK_SIZE, threads);
      }
      SplitSizes(k, s0, prims[..], begin, mid, end, split, isLeft, blockSize);
    }
  }

  lemma SplitSizes(k: Mapping, s0: seq<PrimRef>, s: seq<PrimRef>, begin: nat, mid: nat, end: nat, split: BinSplit,
                   isLeft: PrimRef -> bool, blockSize: nat)
    requires PermutesRange(s0, s, begin, end) && Split(s, isLeft, begin, mid, end)
    requires split.BinSplit? && 1 <= blockSize && Optimal(k, s0[begin..end], blockSize, 3, split)
    requires forall p :: isLeft(p) <==> Bin(k, p, split.dim) < split.pos
    requires InRange(k, s0[begin..end]) && forall p :: p in s0[begin..end] ==> p.bounds.Box?
    ensures begin < mid < end
    ensures mid - begin == Tally(k, s0[begin..end], split.dim, 0, split.pos).count
    ensures forall i :: begin <= i < end ==> (Bin(k, s[i], split.dim) < split.pos <==> i < mid)
  {
    hide Bin, Tally, Cost, PermutesRange;
    var d, pos := split.dim, split.pos;
    PermutesSlice(s0, s, begin, end);
    PermutesLength(s0, s, begin, end);
    TallyPermutation(k, s0[begin..end], s[begin..end], d, 0, pos);
    CostSides(k, s0[begin..end], d, pos, blockSize);
    TallyCount(k, s0[begin..end], d, 0, pos);
    assert s[begin..end] == s[begin..mid] + s[mid..end];
    forall p | p in s[begin..end]
      ensures p.bounds.Box? && 0 <= Bin(k, p, d)
    {
      assert p in multiset(s0[begin..end]);
    }
    TallyConcat(k, s[begin..mid], s[mid..end], d, 0, pos);
    TallyCount(k, s[begin..mid], d, 0, pos);
    TallyCount(k, s[mid..end], d, 0, pos);
    RightSide(k, s0, s, begin, mid, end, d, pos);
  }

  lemma RightSide(k: Mapping, s0: seq<PrimRef>, s: seq<PrimRef>, begin: nat, mid: nat, end: nat, d: nat, pos: nat)
    requires begin <= mid <= end <= |s| == |s0| && multiset(s0[begin..end]) == multiset(s[begin..end])
    requires exists p :: p in s0[begin..end] && pos <= Bin(k, p, d) < k.num
    requires forall i :: begin <= i < mid ==> Bin(k, s[i], d) < pos
    ensures mid < end
  {
    var p :| p in s0[begin..end] && pos <= Bin(k, p, d) < k.num;
    assert p in multiset(s[begin..end]);
    var i :| 0 <= i < end - begin && s[begin..end][i] == p;
    assert s[begin + i] == p;
  }

  // ----- what a split of a range is

  /** Cutting s at the boundary gives the sides ls and rs. */
  ghost predicate CutInto(k: Mapping, s: seq<PrimRef>, d: nat, pos: nat, ls: seq<PrimRef>, rs: seq<PrimRef>) {
    && multiset(ls + rs) == multiset(s)
    && (forall p :: p in ls ==> Bin(k, p, d) < pos) && (forall p :: p in rs ==> pos <= Bin(k, p, d))
  }

  /** s was split into ls and rs: at the cheapest bin boundary of its centroids,
      or in the middle when they have no extent. */
  ghost predicate SplitChosen(s: seq<PrimRef>, ls: seq<PrimRef>, rs: seq<PrimRef>, blockSize: nat)
    requires 1 <= blockSize
  {
    exists cent: Box :: ChosenBy(s, ls, rs, blockSize, cent)
  }

  ghost predicate ChosenBy(s: seq<PrimRef>, ls: seq<PrimRef>, rs: seq<PrimRef>, blockSize: nat, cent: Box)
    requires 1 <= blockSize
  {
    && CentroidBox(s, cent) && cent.Box?
    && if exists d: nat :: d < 3 && EPS < Axis(cent.hi, d) - Axis(cent.lo, d) then
         exists d: nat, pos: nat :: BestCut(NewMapping(|s|, cent), s, ls, rs, blockSize, d, pos)
       else ls == s[..|s| / 2] && rs == s[|s| / 2..]
  }

  ghost predicate BestCut(k: Mapping, s: seq<PrimRef>, ls: seq<PrimRef>, rs: seq<PrimRef>, blockSize: nat, d: nat, pos: nat)
    requires 1 <= blockSize
  {
    CheapestCut(k, s, d, pos, blockSize) && CutInto(k, s, d, pos, ls, rs)
  }

  lemma ChosenByBins(s: seq<PrimRef>, t: seq<PrimRef>, begin: nat, mid: nat, end: nat, blockSize: nat, cent: Box, split: BinSplit)
    requires PermutesRange(s, t, begin, end) && begin < mid < end && 1 <= blockSize && split.BinSplit?
    requires CentroidBox(s[begin..end], cent) && cent.Box? && exists d: nat :: d < 3 && EPS < Axis(cent.hi, d) - Axis(cent.lo, d)
    requires CheapestCut(NewMapping(end - begin, cent), s[begin..end], split.dim, split.pos, blockSize)
    requires forall i :: begin <= i < end ==> (Bin(NewMapping(end - begin, cent), t[i], split.dim) < split.pos <==> i < mid)
    ensures SplitChosen(s[begin..end], t[begin..mid], t[mid..end], blockSize)
  {
    hide CentroidBox, CheapestCut, Bin, NewMapping, Axis;
    PermutesSlice(s, t, begin, end);
    assert t[begin..end] == t[begin..mid] + t[mid..end];
    assert BestCut(NewMapping(end - begin, cent), s[begin..end], t[begin..mid], t[mid..end], blockSize, split.dim, split.pos);
    assert ChosenBy(s[begin..end], t[begin..mid], t[mid..end], blockSize, cent);
  }

  lemma ChosenMiddle(s: seq<PrimRef>, blockSize: nat, cent: Box)
    requires 1 <= blockSize && CentroidBox(s, cent) && cent.Box?
    requires !exists d: nat :: d < 3 && EPS < Axis(cent.hi, d) - Axis(cent.lo, d)
    ensures SplitChosen(s, s[..|s| / 2], s[|s| / 2..], blockSize)
  {
    hide CentroidBox, Axis;
    assert ChosenBy(s, s[..|s| / 2], s[|s| / 2..], blockSize, cent);
  }
}
