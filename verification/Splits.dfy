/** The ways the builder splits a record in two and picks the record to split
    (rtbuild/qbvh6_builder_sah.h:529-636 and
    rtbuild/builders/heuristic_binning_array_aligned.h:49-75). */
module Splits {
  import opened Common
  import opened Geometry
  import opened Bvh
  import opened Partition
  import opened Records
  import opened Depth
  import opened Hulls
  import opened Binning
  import opened SahSplit
  import opened Decisions

  /** The least box around the references of a range. */
  method RangeBounds(prims: array<PrimRef>, b: nat, e: nat) returns (box: Box)
    requires b <= e <= prims.Length
    ensures box == Hull(prims[b..e])
    ensures forall q :: b <= q < e ==> Subset(prims[q].bounds, box)
    ensures forall other: Box :: (forall q :: b <= q < e ==> Subset(prims[q].bounds, other)) ==> Subset(box, other)
  {
    hide Subset, Extend, Hull;
    box := Empty;
    HullNone();
    assert prims[b..b] == [];
    for i := b to e
      invariant box == Hull(prims[b..i])
    {
      assert prims[b..i + 1] == prims[b..i] + [prims[i]];
      HullAppend(prims[b..i], prims[i]);
      box := Extend(box, prims[i].bounds);
    }
    RangeHull(prims[..], b, e);
  }

  lemma RangeHull(s: seq<PrimRef>, b: nat, e: nat)
    requires b <= e <= |s|
    ensures forall q :: b <= q < e ==> Subset(s[q].bounds, Hull(s[b..e]))
    ensures forall other: Box :: (forall q :: b <= q < e ==> Subset(s[q].bounds, other)) ==> Subset(Hull(s[b..e]), other)
  {
    hide Subset, Hull;
    forall q | b <= q < e
      ensures Subset(s[q].bounds, Hull(s[b..e]))
    {
      HullCovers(s[b..e], q - b);
    }
    forall other: Box | forall q :: b <= q < e ==> Subset(s[q].bounds, other)
      ensures Subset(Hull(s[b..e]), other)
    {
      HullLeast(s[b..e], other);
    }
  }

  /** Splits in the middle without looking at the references. */
  method FallbackSplit(sc: Scene, prims: array<PrimRef>, depth: nat, best: nat, cs: seq<Record>) returns (ds: seq<Record>)
    requires best < |cs| && ValidRecord(sc, prims[..], cs[best]) && 2 <= cs[best].Size()
    ensures SplitAt(sc, prims[..], cs, best, ds)
    ensures Sizes(ds) == Halve(Sizes(cs), best)
    ensures var p := Slice(prims[..], cs[best]);
      Slice(prims[..], ds[best]) == p[..|p| / 2] && Slice(prims[..], ds[|cs|]) == p[|p| / 2..]
    ensures ds[best].depth == ds[|cs|].depth == depth + 1 && ds[best].ty == ds[|cs|].ty == cs[best].ty
  {
    hide ValidRecord, Hull, Subset, Slice;
    var r := cs[best];
    RecordBounds(sc, prims[..], r);
    var center := (r.begin + r.end) / 2;
    MiddleSize(r.begin, r.end);
    var lbox := RangeBounds(prims, r.begin, center);
    var rbox := RangeBounds(prims, center, r.end);
    var left := Record(depth + 1, r.begin, center, lbox, r.ty);
    var right := Record(depth + 1, center, r.end, rbox, r.ty);
    PartValid(sc, prims[..], r, left);
    PartValid(sc, prims[..], r, right);
    HalfSlices(prims[..], r, left, right);
    ds := cs[best := left] + [right];
    assert ds[best] == left && ds[|cs|] == right;
  }

  lemma HalfSlices(s: seq<PrimRef>, r: Record, left: Record, right: Record)
    requires r.begin <= r.end <= |s| && left.begin == r.begin && left.end == right.begin == (r.begin + r.end) / 2 && right.end == r.end
    ensures var p := Slice(s, r);
      Slice(s, left) == p[..|p| / 2] && Slice(s, right) == p[|p| / 2..]
  {
    var p := Slice(s, r);
    assert left.end == r.begin + |p| / 2;
    assert s[r.begin..r.end][..|p| / 2] == s[r.begin..r.begin + |p| / 2];
    assert s[r.begin..r.end][|p| / 2..] == s[r.begin + |p| / 2..r.end];
  }

  lemma MiddleSize(b: nat, e: nat)
    requires b + 2 <= e
    ensures b < (b + e) / 2 < e && (b + e) / 2 - b == (e - b) / 2
  {
  }

  /** Splits at the cheapest bin boundary, or in the middle when the centroids
      have no extent. */
  method SAHSplit(sc: Scene, prims: array<PrimRef>, depth: nat, blockSize: nat, best: nat, cs: seq<Record>) returns (ds: seq<Record>)
    requires best < |cs| && ValidRecord(sc, prims[..], cs[best]) && 2 <= cs[best].Size() && 1 <= blockSize
    modifies prims
    ensures PermutesRange(old(prims[..]), prims[..], cs[best].begin, cs[best].end)
    ensures SplitAt(sc, prims[..], cs, best, ds)
    ensures ds[best].depth == ds[|cs|].depth == depth + 1 && ds[best].ty == ds[|cs|].ty == cs[best].ty
    ensures SplitChosen(old(Slice(prims[..], cs[best])), Slice(prims[..], ds[best]), Slice(prims[..], ds[|cs|]), blockSize)
  {
    hide PermutesRange, ValidRecord, Hull, CentroidBox, CheapestCut, Bin, SplitChosen, NewMapping, Axis;
    var r := cs[best];
    RecordBounds(sc, prims[..], r);
    ghost var s := prims[..];
    RangeBoxes(sc, s, r);
    var cent := CentroidBoxOf(prims, r.begin, r.end);
    var split, mid := FindAndSplit(prims, r.begin, r.end, cent, blockSize);
    ValidPermute(sc, s, prims[..], r);
    if split.BinSplit? {
      ChosenByBins(s, prims[..], r.begin, mid, r.end, blockSize, cent, split);
      var lbox := RangeBounds(prims, r.begin, mid);
      var rbox := RangeBounds(prims, mid, r.end);
      var left := Record(depth + 1, r.begin, mid, lbox, r.ty);
      var right := Record(depth + 1, mid, r.end, rbox, r.ty);
      PartValid(sc, prims[..], r, left);
      PartValid(sc, prims[..], r, right);
      ds := cs[best := left] + [right];
    } else {
      ChosenMiddle(s[r.begin..r.end], blockSize, cent);
      ds := FallbackSplit(sc, prims, depth, best, cs);
      assert Slice(s, r) == s[r.begin..r.end];
    }
  }

  lemma RangeBoxes(sc: Scene, s: seq<PrimRef>, r: Record)
    requires ValidRecord(sc, s, r)
    ensures r.end <= |s| && forall p :: p in s[r.begin..r.end] ==> p.bounds.Box?
  {
    forall p | p in s[r.begin..r.end]
      ensures p.bounds.Box?
    {
      var i :| 0 <= i < r.end - r.begin && s[r.begin..r.end][i] == p;
      assert Fits(sc, r, s[r.begin + i]);
    }
  }

  /** All references of the range have the type of the first one. */
  method SharedType(sc: Scene, prims: array<PrimRef>, b: nat, e: nat) returns (ty: Option<PType>)
    requires b < e <= prims.Length
    ensures ty.Some? ==> forall q :: b <= q < e ==> sc.typeOf(prims[q].geomID) == ty.value
    ensures ty.None? ==> exists q :: b <= q < e && sc.typeOf(prims[q].geomID) != sc.typeOf(prims[b].geomID)
    ensures ty == CommonType(sc, prims[b..e])
  {
    var equalTy := true;
    var rtype := sc.typeOf(prims[b].geomID);
    for i := b + 1 to e
      invariant equalTy <==> forall q :: b <= q < i ==> sc.typeOf(prims[q].geomID) == rtype
    {
      equalTy := equalTy && rtype == sc.typeOf(prims[i].geomID);
    }
    ty := if equalTy then Some(rtype) else None;
    CommonTypeIs(sc, prims[..], b, e);
  }

  lemma CommonTypeIs(sc: Scene, s: seq<PrimRef>, b: nat, e: nat)
    requires b < e <= |s|
    ensures CommonType(sc, s[b..e])
      == if forall q :: b <= q < e ==> sc.typeOf(s[q].geomID) == sc.typeOf(s[b].geomID) then Some(sc.typeOf(s[b].geomID)) else None
  {
    var t := s[b..e];
    forall q | b <= q < e
      ensures t[q - b] == s[q] && s[q] in t
    {
      assert t[q - b] in t;
    }
  }

  /** References of more than one type. */
  ghost predicate Mixed(sc: Scene, s: seq<PrimRef>, b: nat, e: nat)
  {
    b < e <= |s| && exists q :: b <= q < e && sc.typeOf(s[q].geomID) != sc.typeOf(s[b].geomID)
  }

  /** No reference of the range has a type of the set. */
  ghost predicate Avoids(sc: Scene, s: seq<PrimRef>, b: nat, e: nat, seen: set<PType>)
  {
    b <= e <= |s| && forall q :: b <= q < e ==> sc.typeOf(s[q].geomID) !in seen
  }

  /** Moves the references of one type to the left. */
  method TypeSplit(sc: Scene, prims: array<PrimRef>, depth: nat, best: nat, cs: seq<Record>, ghost seen: set<PType>)
    returns (ds: seq<Record>)
    requires best < |cs| && ValidRecord(sc, prims[..], cs[best]) && cs[best].ty.None?
    requires Mixed(sc, prims[..], cs[best].begin, cs[best].end)
    requires Avoids(sc, prims[..], cs[best].begin, cs[best].end, seen)
    modifies prims
    ensures PermutesRange(old(prims[..]), prims[..], cs[best].begin, cs[best].end)
    ensures SplitAt(sc, prims[..], cs, best, ds)
    ensures ds[best].depth == ds[|cs|].depth == depth + 1 && ds[best].ty.Some? && ds[best].ty.value !in seen
    ensures ds[best].ty.value == sc.typeOf(old(prims[cs[best].begin]).geomID)
    ensures ds[|cs|].ty.None? ==> Mixed(sc, prims[..], ds[|cs|].begin, ds[|cs|].end)
    ensures Avoids(sc, prims[..], ds[|cs|].begin, ds[|cs|].end, seen + {ds[best].ty.value})
    ensures ds[|cs|].ty == CommonType(sc, Slice(prims[..], ds[|cs|]))
    ensures forall p :: p in Slice(prims[..], ds[|cs|]) ==> Some(sc.typeOf(p.geomID)) != ds[best].ty
  {
    hide PermutesRange, ValidRecord, Split, Fold, FoldBack, Mixed, Avoids;
    var r := cs[best];
    RecordBounds(sc, prims[..], r);
    var ty := sc.typeOf(prims[r.begin].geomID);
    FirstAvoids(sc, prims[..], r.begin, r.end, seen);
    var isLeft: PrimRef -> bool := (p: PrimRef) => ty == sc.typeOf(p.geomID);
    var mid, lbox, rbox := SerialPartitioning(Job(isLeft, Grow, r.begin, r.end), prims, Empty, Empty);
    ValidPermute(sc, old(prims[..]), prims[..], r);
    SplitBounds(prims[..], isLeft, r.begin, mid, r.end);
    TypeSides(sc, old(prims[..]), prims[..], r, mid, ty, isLeft, seen);
    var rtype := SharedType(sc, prims, mid, r.end);
    var left := Record(depth + 1, r.begin, mid, lbox, Some(ty));
    var right := Record(depth + 1, mid, r.end, rbox, rtype);
    TypedSidesValid(sc, prims[..], r, left, right);
    ds := cs[best := left] + [right];
    MixedRight(sc, prims[..], right);
    OthersAvoid(sc, prims[..], right, seen + {ty}, ty);
  }

  lemma OthersAvoid(sc: Scene, s: seq<PrimRef>, r: Record, seen: set<PType>, ty: PType)
    requires Avoids(sc, s, r.begin, r.end, seen) && ty in seen
    ensures forall p :: p in Slice(s, r) ==> sc.typeOf(p.geomID) != ty
  {
  }

  lemma MixedRight(sc: Scene, s: seq<PrimRef>, r: Record)
    requires r.begin < r.end <= |s|
    requires r.ty.None? ==> exists q :: r.begin <= q < r.end && sc.typeOf(s[q].geomID) != sc.typeOf(s[r.begin].geomID)
    ensures r.ty.None? ==> Mixed(sc, s, r.begin, r.end)
  {
  }

  lemma FirstAvoids(sc: Scene, s: seq<PrimRef>, b: nat, e: nat, seen: set<PType>)
    requires Avoids(sc, s, b, e, seen) && b < e
    ensures sc.typeOf(s[b].geomID) !in seen
  {
  }

  lemma TypeSides(sc: Scene, s: seq<PrimRef>, t: seq<PrimRef>, r: Record, mid: nat, ty: PType, isLeft: PrimRef -> bool,
                  seen: set<PType>)
    requires PermutesRange(s, t, r.begin, r.end) && Split(t, isLeft, r.begin, mid, r.end)
    requires Mixed(sc, s, r.begin, r.end) && Avoids(sc, s, r.begin, r.end, seen)
    requires ty == sc.typeOf(s[r.begin].geomID) && forall p: PrimRef :: isLeft(p) <==> ty == sc.typeOf(p.geomID)
    ensures r.begin < mid < r.end
    ensures forall q :: r.begin <= q < mid ==> sc.typeOf(t[q].geomID) == ty
    ensures Avoids(sc, t, mid, r.end, seen + {ty})
  {
    hide PermutesRange;
    PermutesLength(s, t, r.begin, r.end);
    TypeLeft(sc, s, t, r, mid, ty);
    TypeRight(sc, s, t, r, mid, ty);
    PermutesAll(s, t, r.begin, r.end, (p: PrimRef) => sc.typeOf(p.geomID) !in seen);
  }

  lemma TypeLeft(sc: Scene, s: seq<PrimRef>, t: seq<PrimRef>, r: Record, mid: nat, ty: PType)
    requires PermutesRange(s, t, r.begin, r.end) && r.begin <= mid <= r.end && r.begin < r.end
    requires ty == sc.typeOf(s[r.begin].geomID)
    requires forall q :: mid <= q < r.end ==> ty != sc.typeOf(t[q].geomID)
    ensures r.begin < mid
  {
    if mid == r.begin {
      PermutesSym(s, t, r.begin, r.end);
      PermutesAll(t, s, r.begin, r.end, (p: PrimRef) => ty != sc.typeOf(p.geomID));
      assert false;
    }
  }

  lemma TypeRight(sc: Scene, s: seq<PrimRef>, t: seq<PrimRef>, r: Record, mid: nat, ty: PType)
    requires PermutesRange(s, t, r.begin, r.end) && r.begin <= mid <= r.end
    requires Mixed(sc, s, r.begin, r.end) && ty == sc.typeOf(s[r.begin].geomID)
    requires forall q :: r.begin <= q < mid ==> ty == sc.typeOf(t[q].geomID)
    ensures mid < r.end
  {
    if mid == r.end {
      PermutesSym(s, t, r.begin, r.end);
      PermutesAll(t, s, r.begin, r.end, (p: PrimRef) => ty == sc.typeOf(p.geomID));
      assert false;
    }
  }

  lemma PermutesSym<T>(s: seq<T>, t: seq<T>, b: nat, e: nat)
    requires PermutesRange(s, t, b, e)
    ensures PermutesRange(t, s, b, e)
  {
  }

  lemma TypedSidesValid(sc: Scene, s: seq<PrimRef>, r: Record, left: Record, right: Record)
    requires ValidRecord(sc, s, r) && r.begin == left.begin < left.end == right.begin < right.end == r.end
    requires left.bounds == Fold(Grow, Empty, s[left.begin..left.end])
    requires right.bounds == FoldBack(Grow, Empty, s[right.begin..right.end])
    requires left.ty.Some? && forall q :: left.begin <= q < left.end ==> sc.typeOf(s[q].geomID) == left.ty.value
    requires right.ty.Some? ==> forall q :: right.begin <= q < right.end ==> sc.typeOf(s[q].geomID) == right.ty.value
    ensures ValidRecord(sc, s, left) && ValidRecord(sc, s, right)
  {
    hide Hull, Fold, FoldBack, ValidRecord;
    RecordBounds(sc, s, r);
    HullBack(s[right.begin..right.end]);
    HullFold(s[left.begin..left.end]);
    PartValid(sc, s, r, left);
    PartValid(sc, s, r, right);
  }

  lemma HullFold(s: seq<PrimRef>)
    ensures Fold(Grow, Empty, s) == Hull(s)
  {
  }

  // ----- picking the child to split

  method FindChildWithMostPrimitives(cs: seq<Record>, leafThreshold: nat) returns (best: Option<nat>)
    requires cs != []
    ensures best.Some? <==> exists i: nat :: i < |cs| && cs[i].Size() > leafThreshold
    ensures best.Some? ==> best.value == FirstLargest(Sizes(cs))
    ensures best.Some? ==> cs[best.value].Size() > leafThreshold
  {
    var bestSize := 0;
    best := None;
    for i := 0 to |cs|
      invariant best.None? ==> bestSize == 0 && forall j: nat :: j < i ==> cs[j].Size() <= leafThreshold
      invariant best.Some? ==> best.value < i && bestSize == cs[best.value].Size() > leafThreshold
      invariant best.Some? ==> forall j: nat :: j < i ==> cs[j].Size() <= bestSize
      invariant best.Some? ==> forall j: nat :: j < best.value ==> cs[j].Size() < bestSize
    {
      if cs[i].Size() > leafThreshold {
        if cs[i].Size() > bestSize {
          bestSize := cs[i].Size();
          best := Some(i);
        }
      }
    }
    if best.Some? {
      var f := FirstLargest(Sizes(cs));
      assert Sizes(cs)[f] == cs[f].Size() && Sizes(cs)[best.value] == cs[best.value].Size();
      assert cs[f].Size() == bestSize;
    }
  }

  method FindChildWithLargestArea(cs: seq<Record>, leafThreshold: nat) returns (best: Option<nat>)
    ensures best.Some? <==> exists i: nat :: i < |cs| && cs[i].Size() > leafThreshold
    ensures best.Some? ==> best.value < |cs| && cs[best.value].Size() > leafThreshold
    ensures best.Some? ==> forall i: nat :: i < |cs| && cs[i].Size() > leafThreshold ==>
      && HalfArea(cs[i].bounds) <= HalfArea(cs[best.value].bounds)
      && (i < best.value ==> HalfArea(cs[i].bounds) < HalfArea(cs[best.value].bounds))
  {
    hide HalfArea;
    var bestArea: Option<real> := None;
    best := None;
    for i := 0 to |cs|
      invariant bestArea.Some? <==> best.Some?
      invariant best.None? ==> forall j: nat :: j < i ==> cs[j].Size() <= leafThreshold
      invariant best.Some? ==> best.value < i && cs[best.value].Size() > leafThreshold
      invariant best.Some? ==> bestArea.value == HalfArea(cs[best.value].bounds)
      invariant best.Some? ==> forall j: nat :: j < i && cs[j].Size() > leafThreshold ==>
        HalfArea(cs[j].bounds) <= bestArea.value && (j < best.value ==> HalfArea(cs[j].bounds) < bestArea.value)
    {
      if cs[i].Size() > leafThreshold {
        var area := HalfArea(cs[i].bounds);
        if bestArea.None? || area > bestArea.value {
          bestArea := Some(area);
          best := Some(i);
        }
      }
    }
  }

  method FindChildWithNonEqualTypes(cs: seq<Record>) returns (best: Option<nat>)
    ensures best.Some? <==> exists i: nat :: i < |cs| && cs[i].ty.None?
    ensures best.Some? ==> best.value < |cs| && cs[best.value].ty.None?
    ensures best.Some? ==> forall i: nat :: i < best.value ==> cs[i].ty.Some?
  {
    best := None;
    for i := 0 to |cs|
      invariant forall j: nat :: j < i ==> cs[j].ty.Some?
    {
      if cs[i].ty.None? {
        return Some(i);
      }
    }
  }
}
