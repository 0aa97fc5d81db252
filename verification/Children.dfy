/** Filling the child list of a node: the split loops of createFatLeaf,
    createLargeLeaf and createInternalNode
    (rtbuild/qbvh6_builder_sah.h:654-702, 735-747, 792-819). */
module Children {
  import opened Common
  import opened Geometry
  import opened Bvh
  import opened Partition
  import opened Records
  import opened Depth
  import opened Splits
  import opened SahSplit
  import opened Hulls
  import opened Decisions

  // ----- the references of the children

  /** Splitting a record divides its part and leaves the others. */
  lemma PartsDivide(sc: Scene, s: seq<PrimRef>, t: seq<PrimRef>, b: nat, e: nat, cs: seq<Record>, i: nat, ds: seq<Record>)
    requires Group(sc, s, b, e, cs) && SplitAt(sc, t, cs, i, ds) && PermutesRange(s, t, cs[i].begin, cs[i].end)
    ensures Divides(PartsOf(s, cs), i, PartsOf(t, ds))
  {
    hide ValidRecord, PermutesRange, Slice, Family;
    FamilyPermute(s, t, b, e, cs, i);
    var ps, qs := PartsOf(s, cs), PartsOf(t, ds);
    forall j: nat | j < |ds|
      ensures qs[j] == (ps[i := qs[i]] + [qs[|ps|]])[j]
    {
      assert j < |cs| && j != i ==> ds[j] == cs[j];
    }
    assert qs == ps[i := qs[i]] + [qs[|ps|]];
  }

  lemma SizesAreCounts(sc: Scene, s: seq<PrimRef>, b: nat, e: nat, cs: seq<Record>)
    requires Group(sc, s, b, e, cs)
    ensures Counts(PartsOf(s, cs)) == Sizes(cs)
  {
    hide ValidRecord, Gather;
  }

  lemma BoxesAreHulls(sc: Scene, s: seq<PrimRef>, b: nat, e: nat, cs: seq<Record>, i: nat)
    requires Group(sc, s, b, e, cs) && i < |cs|
    ensures HalfArea(cs[i].bounds) == PartArea(PartsOf(s, cs)[i]) && |PartsOf(s, cs)[i].prims| == cs[i].Size()
  {
    hide Family, Hull, HalfArea;
  }

  /** The child that is picked has the largest box. */
  lemma AreaFound(sc: Scene, s: seq<PrimRef>, b: nat, e: nat, cs: seq<Record>, leaf: nat, best: nat)
    requires Group(sc, s, b, e, cs) && best < |cs| && leaf < cs[best].Size()
    requires forall i: nat :: i < |cs| && cs[i].Size() > leaf ==>
      && HalfArea(cs[i].bounds) <= HalfArea(cs[best].bounds) && (i < best ==> HalfArea(cs[i].bounds) < HalfArea(cs[best].bounds))
    ensures LargestArea(leaf, PartsOf(s, cs), best)
  {
    hide Group, HalfArea, PartArea;
    forall i: nat | i < |cs|
      ensures HalfArea(cs[i].bounds) == PartArea(PartsOf(s, cs)[i]) && |PartsOf(s, cs)[i].prims| == cs[i].Size()
    {
      BoxesAreHulls(sc, s, b, e, cs, i);
    }
  }

  // ----- single references and halves

  /** Every record of the list satisfies one level below depth with type ty. */
  ghost predicate OneBelow(cs: seq<Record>, depth: nat, ty: Option<PType>) {
    forall i: nat :: i < |cs| ==> cs[i].depth == depth + 1 && cs[i].ty == ty
  }

  lemma GroupMember(sc: Scene, s: seq<PrimRef>, b: nat, e: nat, cs: seq<Record>, i: nat)
    requires Group(sc, s, b, e, cs) && i < |cs|
    ensures ValidRecord(sc, s, cs[i]) && b <= cs[i].begin < cs[i].end <= e <= |s|
  {
    hide ValidRecord, Gather;
  }

  lemma GroupSize(sc: Scene, s: seq<PrimRef>, b: nat, e: nat, cs: seq<Record>, m: nat)
    requires Group(sc, s, b, e, cs) && forall i: nat :: i < |cs| ==> cs[i].Size() <= m
    ensures |cs| <= e - b <= |cs| * m
  {
    FamilySize(s, b, e, cs, m);
  }

  /** One reference per child. */
  method OnePerChild(sc: Scene, prims: array<PrimRef>, r: Record) returns (cs: seq<Record>)
    requires ValidRecord(sc, prims[..], r)
    ensures Group(sc, prims[..], r.begin, r.end, cs) && |cs| == r.Size()
    ensures OneBelow(cs, r.depth, r.ty) && forall i: nat :: i < |cs| ==> cs[i].Size() == 1
    ensures PartsOf(prims[..], cs) == Singles(Part(Slice(prims[..], r), r.ty))
  {
    hide Group, ValidRecord, Hull;
    RecordBounds(sc, prims[..], r);
    cs := [];
    GroupNone(sc, prims[..], r.begin);
    for j := r.begin to r.end
      invariant |cs| == j - r.begin && Group(sc, prims[..], r.begin, j, cs)
      invariant OneBelow(cs, r.depth, r.ty) && forall i: nat :: i < |cs| ==> cs[i].Size() == 1 && cs[i].begin == r.begin + i
    {
      var c := Record(r.depth + 1, j, j + 1, Extend(Empty, prims[j].bounds), r.ty);
      assert prims[j..j + 1] == [prims[j]];
      HullOne(prims[j]);
      PartValid(sc, prims[..], r, c);
      GroupAppend(sc, prims[..], r.begin, j, cs, c);
      cs := cs + [c];
    }
    SinglesOf(prims[..], r, cs);
  }

  lemma SinglesOf(s: seq<PrimRef>, r: Record, cs: seq<Record>)
    requires r.begin < r.end <= |s| && |cs| == r.Size()
    requires forall i: nat :: i < |cs| ==> cs[i].begin == r.begin + i && cs[i].Size() == 1 && cs[i].ty == r.ty
    ensures PartsOf(s, cs) == Singles(Part(Slice(s, r), r.ty))
  {
    hide Slice;
    var p := Part(Slice(s, r), r.ty);
    forall i: nat | i < |cs|
      ensures PartsOf(s, cs)[i] == Singles(p)[i]
    {
      SingleSlice(s, r, cs[i], i);
    }
  }

  lemma SingleSlice(s: seq<PrimRef>, r: Record, c: Record, i: nat)
    requires r.begin < r.end <= |s| && i < r.Size() && c.begin == r.begin + i && c.Size() == 1
    ensures i < |Slice(s, r)| && Slice(s, c) == [Slice(s, r)[i]]
  {
    assert c.end == r.begin + i + 1;
    assert s[r.begin..r.end][i] == s[r.begin + i];
    assert s[c.begin..c.end] == [s[r.begin + i]];
  }

  lemma GroupNone(sc: Scene, s: seq<PrimRef>, b: nat)
    requires b <= |s|
    ensures Group(sc, s, b, b, [])
  {
  }

  lemma GroupAppend(sc: Scene, s: seq<PrimRef>, b: nat, e: nat, cs: seq<Record>, c: Record)
    requires Group(sc, s, b, e, cs) && ValidRecord(sc, s, c) && c.begin == e
    ensures Group(sc, s, b, c.end, cs + [c])
  {
    hide Family, ValidRecord;
    RecordBounds(sc, s, c);
    FamilyAppend(s, b, e, cs, c);
  }

  lemma FamilyAppend(s: seq<PrimRef>, b: nat, e: nat, cs: seq<Record>, c: Record)
    requires Family(s, b, e, cs) && c.begin == e && c.begin < c.end <= |s|
    ensures Family(s, b, c.end, cs + [c])
  {
    hide Gather, Slice;
    var cs1 := cs + [c];
    GatherAppend(s, cs, c);
    SliceConcat(s, b, e, c);
    forall i: nat, j: nat | i < |cs1| && j < |cs1| && i != j
      ensures Apart(cs1[i], cs1[j])
    {
      if i < |cs| && j < |cs| {
        assert Apart(cs[i], cs[j]);
      }
    }
  }

  lemma SliceConcat(s: seq<PrimRef>, b: nat, e: nat, c: Record)
    requires b <= e == c.begin <= c.end <= |s|
    ensures multiset(s[b..c.end]) == multiset(s[b..e]) + multiset(Slice(s, c))
  {
    assert s[b..c.end] == s[b..e] + s[e..c.end];
  }

  /** Always splits the largest child above the threshold in the middle. */
  method HalveLargest(sc: Scene, prims: array<PrimRef>, r: Record, threshold: nat) returns (cs: seq<Record>)
    requires ValidRecord(sc, prims[..], r) && 1 <= threshold < r.Size()
    ensures Group(sc, prims[..], r.begin, r.end, cs) && 2 <= |cs| && OneBelow(cs, r.depth, r.ty)
    ensures Sizes(cs) == Spread([r.Size()], threshold)
    ensures PartsOf(prims[..], cs) == SpreadParts([Part(Slice(prims[..], r), r.ty)], threshold)
  {
    hide Group, ValidRecord, Halve, FirstLargest, SpreadParts;
    cs := [r];
    GroupOne(sc, prims[..], r);
    PartsOne(prims[..], r);
    assert Sizes(cs) == [r.Size()];
    while |cs| < BVH_WIDTH
      invariant 1 <= |cs| && Group(sc, prims[..], r.begin, r.end, cs)
      invariant if |cs| == 1 then cs == [r] else OneBelow(cs, r.depth, r.ty)
      invariant Spread(Sizes(cs), threshold) == Spread([r.Size()], threshold)
      invariant SpreadParts(PartsOf(prims[..], cs), threshold) == SpreadParts([Part(Slice(prims[..], r), r.ty)], threshold)
      decreases BVH_WIDTH - |cs|
    {
      var best := FindChildWithMostPrimitives(cs, threshold);
      if best.None? {
        break;
      }
      GroupMember(sc, prims[..], r.begin, r.end, cs, best.value);
      var ds := FallbackSplit(sc, prims, r.depth, best.value, cs);
      PermutesSelf(prims[..], cs[best.value].begin, cs[best.value].end);
      GroupSplit(sc, prims[..], prims[..], r.begin, r.end, cs, best.value, ds);
      BelowSplit(cs, r, best.value, ds);
      SpreadStep(Sizes(cs), threshold);
      HalvesStep(sc, prims[..], r.begin, r.end, cs, best.value, ds, threshold);
      cs := ds;
    }
    SpreadEnd(Sizes(cs), threshold);
    HalvesEnd(sc, prims[..], r.begin, r.end, cs, threshold);
  }

  lemma HalvesStep(sc: Scene, s: seq<PrimRef>, b: nat, e: nat, cs: seq<Record>, i: nat, ds: seq<Record>, leaf: nat)
    requires Group(sc, s, b, e, cs) && SplitAt(sc, s, cs, i, ds) && |cs| < BVH_WIDTH
    requires i == FirstLargest(Sizes(cs)) && leaf < cs[i].Size() && ds[i].ty == ds[|cs|].ty == cs[i].ty
    requires var p := Slice(s, cs[i]); Slice(s, ds[i]) == p[..|p| / 2] && Slice(s, ds[|cs|]) == p[|p| / 2..]
    ensures SpreadParts(PartsOf(s, cs), leaf) == SpreadParts(PartsOf(s, ds), leaf)
  {
    hide Group, ValidRecord, FirstLargest, Slice;
    SizesAreCounts(sc, s, b, e, cs);
    var ps, qs := PartsOf(s, cs), PartsOf(s, ds);
    forall j: nat | j < |ds|
      ensures qs[j] == HalveParts(ps, i)[j]
    {
      assert j < |cs| && j != i ==> ds[j] == cs[j];
    }
    assert qs == HalveParts(ps, i);
  }

  lemma HalvesEnd(sc: Scene, s: seq<PrimRef>, b: nat, e: nat, cs: seq<Record>, leaf: nat)
    requires Group(sc, s, b, e, cs) && cs != []
    requires BVH_WIDTH <= |cs| || forall i: nat :: i < |cs| ==> cs[i].Size() <= leaf
    ensures SpreadParts(PartsOf(s, cs), leaf) == PartsOf(s, cs)
  {
    hide Group, Slice;
    SizesAreCounts(sc, s, b, e, cs);
    assert Sizes(cs)[FirstLargest(Sizes(cs))] == cs[FirstLargest(Sizes(cs))].Size();
  }

  lemma SpreadStep(z: seq<nat>, leaf: nat)
    requires z != [] && |z| < BVH_WIDTH && z[FirstLargest(z)] > leaf
    ensures Spread(z, leaf) == Spread(Halve(z, FirstLargest(z)), leaf)
  {
  }

  lemma SpreadEnd(z: seq<nat>, leaf: nat)
    requires z != [] && (BVH_WIDTH <= |z| || forall i: nat :: i < |z| ==> z[i] <= leaf)
    ensures Spread(z, leaf) == z
  {
  }

  lemma BelowSplit(cs: seq<Record>, r: Record, i: nat, ds: seq<Record>)
    requires i < |cs| && |ds| == |cs| + 1 && ds == cs[i := ds[i]] + [ds[|cs|]]
    requires if |cs| == 1 then cs == [r] else OneBelow(cs, r.depth, r.ty)
    requires ds[i].depth == ds[|cs|].depth == r.depth + 1 && ds[i].ty == ds[|cs|].ty == cs[i].ty
    ensures OneBelow(ds, r.depth, r.ty)
  {
  }

  /** The SAH splits of a fat leaf, down to single references. */
  method SplitLargest(sc: Scene, prims: array<PrimRef>, r: Record) returns (cs: seq<Record>)
    requires ValidRecord(sc, prims[..], r) && BVH_WIDTH < r.Size()
    modifies prims
    ensures PermutesRange(old(prims[..]), prims[..], r.begin, r.end)
    ensures Group(sc, prims[..], r.begin, r.end, cs) && |cs| == BVH_WIDTH && OneBelow(cs, r.depth, r.ty)
    ensures Reaches(CountStep(), [Part(old(Slice(prims[..], r)), r.ty)], PartsOf(prims[..], cs))
  {
    hide Group, ValidRecord, PermutesRange, FirstLargest, Reaches, CountStep, SplitChosen, Slice;
    ghost var start := [Part(Slice(prims[..], r), r.ty)];
    cs := [r];
    GroupOne(sc, prims[..], r);
    PartsOne(prims[..], r);
    ReachesSelf(CountStep(), start);
    RecordBounds(sc, prims[..], r);
    PermutesSelf(prims[..], r.begin, r.end);
    while |cs| < BVH_WIDTH
      invariant 1 <= |cs| <= BVH_WIDTH && Group(sc, prims[..], r.begin, r.end, cs)
      invariant if |cs| == 1 then cs == [r] else OneBelow(cs, r.depth, r.ty)
      invariant PermutesRange(old(prims[..]), prims[..], r.begin, r.end)
      invariant Reaches(CountStep(), start, PartsOf(prims[..], cs))
      decreases BVH_WIDTH - |cs|
    {
      var best := FindChildWithMostPrimitives(cs, 1);
      if best.None? {
        GroupSize(sc, prims[..], r.begin, r.end, cs, 1);
        assert false;
      }
      GroupMember(sc, prims[..], r.begin, r.end, cs, best.value);
      ghost var s := prims[..];
      var ds := SAHSplit(sc, prims, r.depth, 1, best.value, cs);
      CountSplit(sc, s, prims[..], r, cs, best.value, ds);
      ReachesNext(CountStep(), start, PartsOf(s, cs), PartsOf(prims[..], ds));
      GroupSplit(sc, s, prims[..], r.begin, r.end, cs, best.value, ds);
      PermutesTrans(old(prims[..]), s, prims[..], r.begin, r.end, r.begin, r.end);
      BelowSplit(cs, r, best.value, ds);
      cs := ds;
    }
  }

  lemma CountSplit(sc: Scene, s: seq<PrimRef>, t: seq<PrimRef>, r: Record, cs: seq<Record>, i: nat, ds: seq<Record>)
    requires Group(sc, s, r.begin, r.end, cs) && SplitAt(sc, t, cs, i, ds) && PermutesRange(s, t, cs[i].begin, cs[i].end)
    requires |cs| < BVH_WIDTH && i == FirstLargest(Sizes(cs)) && 1 < cs[i].Size() && ds[i].ty == ds[|cs|].ty == cs[i].ty
    requires SplitChosen(Slice(s, cs[i]), Slice(t, ds[i]), Slice(t, ds[|cs|]), 1)
    ensures CountStep()(PartsOf(s, cs), PartsOf(t, ds))
  {
    hide Group, ValidRecord, PermutesRange, FirstLargest, SplitChosen, Slice, Divides;
    PartsDivide(sc, s, t, r.begin, r.end, cs, i, ds);
    SizesAreCounts(sc, s, r.begin, r.end, cs);
    assert Counts(PartsOf(s, cs))[i] == cs[i].Size();
    assert CountStepAt(PartsOf(s, cs), i, PartsOf(t, ds));
  }

  /** The children of a fat leaf have at most three references each. */
  method FatLeafChildren(sc: Scene, prims: array<PrimRef>, r: Record) returns (cs: seq<Record>)
    requires ValidRecord(sc, prims[..], r) && r.Size() <= 9
    modifies prims
    ensures PermutesRange(old(prims[..]), prims[..], r.begin, r.end)
    ensures Group(sc, prims[..], r.begin, r.end, cs) && 1 <= |cs| <= BVH_WIDTH
    ensures forall i: nat :: i < |cs| ==> 1 <= cs[i].Size() <= 3
    ensures FatParts(Part(old(Slice(prims[..], r)), r.ty), PartsOf(prims[..], cs))
  {
    hide Group, ValidRecord, PermutesRange, FirstLargest, OneBelow, Spread, Reaches, CountStep, SpreadParts, FatPartsVia, FatParts;
    RecordBounds(sc, prims[..], r);
    ghost var p := Part(Slice(prims[..], r), r.ty);
    if r.Size() <= BVH_WIDTH {
      PermutesSelf(prims[..], r.begin, r.end);
      cs := OnePerChild(sc, prims, r);
      SinglesFat(p);
    } else {
      cs := SplitLargest(sc, prims, r);
      ghost var qs := PartsOf(prims[..], cs);
      ValidPermute(sc, old(prims[..]), prims[..], r);
      SizesAreCounts(sc, prims[..], r.begin, r.end, cs);
      PermutesSlice(old(prims[..]), prims[..], r.begin, r.end);
      var best := FindChildWithMostPrimitives(cs, 1);
      if best.Some? && cs[best.value].Size() > 3 {
        assert |qs[best.value].prims| == Counts(qs)[best.value] == Sizes(cs)[best.value];
        cs := HalveLargest(sc, prims, r, 1);
        SpreadLimits(r.Size(), 1);
        HalvedFat(p, qs, Slice(prims[..], r));
      } else {
        SplitFat(p, qs);
      }
      forall i: nat | i < |cs|
        ensures 1 <= cs[i].Size() <= 3
      {
        GroupMember(sc, prims[..], r.begin, r.end, cs, i);
        assert cs[i].Size() == Sizes(cs)[i];
      }
    }
  }

  lemma SinglesFat(p: Part)
    requires |p.prims| <= BVH_WIDTH
    ensures FatParts(p, Singles(p))
  {
  }

  lemma SplitFat(p: Part, qs: seq<Part>)
    requires BVH_WIDTH < |p.prims| && Reaches(CountStep(), [p], qs) && |qs| == BVH_WIDTH
    requires forall i: nat :: i < |qs| ==> |qs[i].prims| <= 3
    ensures FatParts(p, qs)
  {
    hide Reaches, CountStep;
    assert FatPartsVia(p, qs, qs);
  }

  lemma HalvedFat(p: Part, qs: seq<Part>, t: seq<PrimRef>)
    requires BVH_WIDTH < |p.prims| && Reaches(CountStep(), [p], qs) && |qs| == BVH_WIDTH
    requires (exists i: nat :: i < |qs| && 3 < |qs[i].prims|) && multiset(t) == multiset(p.prims)
    ensures FatParts(p, SpreadParts([Part(t, p.ty)], 1))
  {
    hide Reaches, CountStep, SpreadParts;
    assert FatPartsVia(p, qs, SpreadParts([Part(t, p.ty)], 1));
  }

  // ----- children of an internal node

  /** All records but the last have a known type, and the types seen so far are
      those of the others. */
  ghost predicate TypesSeen(sc: Scene, s: seq<PrimRef>, cs: seq<Record>, seen: set<PType>) {
    && cs != [] && |seen| == |cs| - 1
    && (forall i: nat :: i < |cs| - 1 ==> cs[i].ty.Some?)
    && var c := cs[|cs| - 1];
       && Avoids(sc, s, c.begin, c.end, seen)
       && (c.ty.None? ==> Mixed(sc, s, c.begin, c.end))
  }

  /** There are four types: only the last of at most three records is mixed. */
  lemma FourTypes(sc: Scene, s: seq<PrimRef>, cs: seq<Record>, seen: set<PType>)
    requires TypesSeen(sc, s, cs, seen) && cs[|cs| - 1].ty.None?
    ensures |cs| < 4
  {
    var c := cs[|cs| - 1];
    var q :| c.begin <= q < c.end && sc.typeOf(s[q].geomID) != sc.typeOf(s[c.begin].geomID);
    var others := seen + {sc.typeOf(s[q].geomID), sc.typeOf(s[c.begin].geomID)};
    assert |others| == |seen| + 2 by {
      assert others == seen + {sc.typeOf(s[q].geomID)} + {sc.typeOf(s[c.begin].geomID)};
    }
    var all := {Triangle, Quad, Procedural, Instance};
    forall ty | ty in others
      ensures ty in all
    {
      AnyType(ty);
    }
    SubsetCard(others, all);
  }

  lemma AnyType(ty: PType)
    ensures ty in {Triangle, Quad, Procedural, Instance}
  {
    match ty
    case Triangle =>
    case Quad =>
    case Procedural =>
    case Instance =>
  }

  lemma {:induction false} SubsetCard<T>(a: set<T>, b: set<T>)
    requires a <= b
    ensures |a| <= |b|
  {
    if a != {} {
      var x :| x in a;
      SubsetCard(a - {x}, b - {x});
    }
  }

  /** Separates the types of a mixed record, one after the other. */
  method SplitTypes(sc: Scene, prims: array<PrimRef>, r: Record) returns (cs: seq<Record>)
    requires ValidRecord(sc, prims[..], r) && r.ty.None? && Mixed(sc, prims[..], r.begin, r.end)
    modifies prims
    ensures PermutesRange(old(prims[..]), prims[..], r.begin, r.end)
    ensures Group(sc, prims[..], r.begin, r.end, cs) && 2 <= |cs| <= 4
    ensures forall i: nat :: i < |cs| ==> cs[i].depth == r.depth + 1 && cs[i].ty.Some?
    ensures Reaches(TypeStep(sc), [Part(old(Slice(prims[..], r)), r.ty)], PartsOf(prims[..], cs))
  {
    hide Group, ValidRecord, PermutesRange, Mixed, Avoids, TypesSeen, Reaches, TypeStep, Slice;
    ghost var start := [Part(Slice(prims[..], r), r.ty)];
    cs := [r];
    GroupOne(sc, prims[..], r);
    PartsOne(prims[..], r);
    ReachesSelf(TypeStep(sc), start);
    RecordBounds(sc, prims[..], r);
    PermutesSelf(prims[..], r.begin, r.end);
    ghost var seen: set<PType> := {};
    TypesSeenNone(sc, prims[..], r);
    while |cs| < BVH_WIDTH
      invariant 1 <= |cs| <= 4 && Group(sc, prims[..], r.begin, r.end, cs)
      invariant if |cs| == 1 then cs == [r] else forall i: nat :: i < |cs| ==> cs[i].depth == r.depth + 1
      invariant TypesSeen(sc, prims[..], cs, seen)
      invariant Reaches(TypeStep(sc), start, PartsOf(prims[..], cs))
      invariant PermutesRange(old(prims[..]), prims[..], r.begin, r.end)
      decreases BVH_WIDTH - |cs|
    {
      var best := FindChildWithNonEqualTypes(cs);
      if best.None? {
        break;
      }
      TypesSeenLast(sc, prims[..], cs, seen, best.value);
      GroupMember(sc, prims[..], r.begin, r.end, cs, best.value);
      ghost var s := prims[..];
      var ds := TypeSplit(sc, prims, r.depth, best.value, cs, seen);
      TypesSeenStep(sc, s, prims[..], cs, ds, seen);
      seen := seen + {ds[best.value].ty.value};
      TypeSplitStep(sc, s, prims[..], r, cs, best.value, ds);
      ReachesNext(TypeStep(sc), start, PartsOf(s, cs), PartsOf(prims[..], ds));
      GroupSplit(sc, s, prims[..], r.begin, r.end, cs, best.value, ds);
      PermutesTrans(old(prims[..]), s, prims[..], r.begin, r.end, r.begin, r.end);
      cs := ds;
    }
  }

  lemma TypeSplitStep(sc: Scene, s: seq<PrimRef>, t: seq<PrimRef>, r: Record, cs: seq<Record>, i: nat, ds: seq<Record>)
    requires Group(sc, s, r.begin, r.end, cs) && SplitAt(sc, t, cs, i, ds) && PermutesRange(s, t, cs[i].begin, cs[i].end)
    requires |cs| < BVH_WIDTH && cs[i].ty.None? && forall j: nat :: j < i ==> cs[j].ty.Some?
    requires |s| == |t| && cs[i].begin < cs[i].end <= |s|
    requires ds[i].ty == Some(sc.typeOf(s[cs[i].begin].geomID)) && ds[|cs|].ty == CommonType(sc, Slice(t, ds[|cs|]))
    requires forall p :: p in Slice(t, ds[|cs|]) ==> Some(sc.typeOf(p.geomID)) != ds[i].ty
    ensures TypeStep(sc)(PartsOf(s, cs), PartsOf(t, ds))
  {
    hide Group, ValidRecord, PermutesRange, Divides, CommonType;
    PartsDivide(sc, s, t, r.begin, r.end, cs, i, ds);
    PermutesSlice(s, t, cs[i].begin, cs[i].end);
    SplitSlices(t, cs[i], ds[i], ds[|cs|]);
    LeftType(sc, t, ds[i]);
    assert TypeStepAt(sc, PartsOf(s, cs), i, PartsOf(t, ds));
  }

  lemma SplitSlices(t: seq<PrimRef>, c: Record, l: Record, r: Record)
    requires l.begin == c.begin < l.end == r.begin < r.end == c.end <= |t|
    ensures Slice(t, l) + Slice(t, r) == t[c.begin..c.end] == Slice(t, c)
  {
  }

  lemma LeftType(sc: Scene, t: seq<PrimRef>, l: Record)
    requires ValidRecord(sc, t, l) && l.ty.Some?
    ensures forall p :: p in Slice(t, l) ==> sc.typeOf(p.geomID) == l.ty.value
  {
    hide Hull;
    forall p | p in Slice(t, l)
      ensures sc.typeOf(p.geomID) == l.ty.value
    {
      SliceFits(sc, t, l, p);
    }
  }

  lemma TypesSeenNone(sc: Scene, s: seq<PrimRef>, r: Record)
    requires r.begin < r.end <= |s| && Mixed(sc, s, r.begin, r.end)
    ensures TypesSeen(sc, s, [r], {})
  {
  }

  lemma TypesSeenLast(sc: Scene, s: seq<PrimRef>, cs: seq<Record>, seen: set<PType>, i: nat)
    requires TypesSeen(sc, s, cs, seen) && i < |cs| && cs[i].ty.None?
    ensures i == |cs| - 1 && |cs| < 4
    ensures Mixed(sc, s, cs[i].begin, cs[i].end) && Avoids(sc, s, cs[i].begin, cs[i].end, seen)
  {
    hide Mixed, Avoids;
    FourTypes(sc, s, cs, seen);
  }

  lemma TypesSeenStep(sc: Scene, s: seq<PrimRef>, t: seq<PrimRef>, cs: seq<Record>, ds: seq<Record>, seen: set<PType>)
    requires TypesSeen(sc, s, cs, seen)
    requires |ds| == |cs| + 1 && ds == cs[|cs| - 1 := ds[|cs| - 1]] + [ds[|cs|]]
    requires ds[|cs| - 1].ty.Some? && ds[|cs| - 1].ty.value !in seen
    requires ds[|cs|].ty.None? ==> Mixed(sc, t, ds[|cs|].begin, ds[|cs|].end)
    requires Avoids(sc, t, ds[|cs|].begin, ds[|cs|].end, seen + {ds[|cs| - 1].ty.value})
    ensures TypesSeen(sc, t, ds, seen + {ds[|cs| - 1].ty.value})
  {
    hide Mixed, Avoids;
    forall i: nat | i < |ds| - 1
      ensures ds[i].ty.Some?
    {
      assert i < |cs| - 1 ==> ds[i] == cs[i];
    }
  }

  /** Either all types are known or all are that of the record. */
  ghost predicate TypesKept(r: Record, cs: seq<Record>, typed: bool) {
    forall i: nat :: i < |cs| ==> if typed then cs[i].ty.Some? else cs[i].ty == r.ty
  }

  ghost predicate Levels(r: Record, cs: seq<Record>) {
    if |cs| == 1 then cs == [r] else forall i: nat :: i < |cs| ==> cs[i].depth == r.depth + 1
  }

  /** Splits the child with the largest box until there are six children or only
      leaves. */
  method SplitLargestArea(sc: Scene, prims: array<PrimRef>, r: Record, cs0: seq<Record>, ghost typed: bool)
    returns (cs: seq<Record>)
    requires ValidRecord(sc, prims[..], r)
    requires Group(sc, prims[..], r.begin, r.end, cs0) && 1 <= |cs0| <= BVH_WIDTH && Levels(r, cs0) && TypesKept(r, cs0, typed)
    modifies prims
    ensures PermutesRange(old(prims[..]), prims[..], r.begin, r.end)
    ensures Group(sc, prims[..], r.begin, r.end, cs) && |cs0| <= |cs| <= BVH_WIDTH && Levels(r, cs) && TypesKept(r, cs, typed)
    ensures |cs| < BVH_WIDTH ==> forall i: nat :: i < |cs| ==> cs[i].Size() <= LeafSize(r.ty)
    ensures Reaches(AreaStep(LeafSize(r.ty)), old(PartsOf(prims[..], cs0)), PartsOf(prims[..], cs))
    ensures Full(LeafSize(r.ty), PartsOf(prims[..], cs))
  {
    hide Group, ValidRecord, PermutesRange, HalfArea, Levels, TypesKept, Reaches, AreaStep, SplitChosen, Slice, Full;
    ghost var start := PartsOf(prims[..], cs0);
    ReachesSelf(AreaStep(LeafSize(r.ty)), start);
    cs := cs0;
    RecordBounds(sc, prims[..], r);
    PermutesSelf(prims[..], r.begin, r.end);
    while |cs| < BVH_WIDTH
      invariant |cs0| <= |cs| <= BVH_WIDTH && Group(sc, prims[..], r.begin, r.end, cs)
      invariant Levels(r, cs) && TypesKept(r, cs, typed)
      invariant PermutesRange(old(prims[..]), prims[..], r.begin, r.end)
      invariant Reaches(AreaStep(LeafSize(r.ty)), start, PartsOf(prims[..], cs))
      decreases BVH_WIDTH - |cs|
    {
      var best := FindChildWithLargestArea(cs, LeafSize(r.ty));
      if best.None? {
        break;
      }
      GroupMember(sc, prims[..], r.begin, r.end, cs, best.value);
      ghost var s := prims[..];
      AreaFound(sc, s, r.begin, r.end, cs, LeafSize(r.ty), best.value);
      var ds := SAHSplit(sc, prims, r.depth, SAH_BLOCK_SIZE, best.value, cs);
      AreaSplit(sc, s, prims[..], r, cs, best.value, ds, LeafSize(r.ty));
      ReachesNext(AreaStep(LeafSize(r.ty)), start, PartsOf(s, cs), PartsOf(prims[..], ds));
      GroupSplit(sc, s, prims[..], r.begin, r.end, cs, best.value, ds);
      PermutesTrans(old(prims[..]), s, prims[..], r.begin, r.end, r.begin, r.end);
      LevelsSplit(r, cs, best.value, ds, typed);
      cs := ds;
    }
    NowFull(sc, prims[..], r, cs, LeafSize(r.ty));
  }

  lemma AreaSplit(sc: Scene, s: seq<PrimRef>, t: seq<PrimRef>, r: Record, cs: seq<Record>, i: nat, ds: seq<Record>, leaf: nat)
    requires Group(sc, s, r.begin, r.end, cs) && SplitAt(sc, t, cs, i, ds) && PermutesRange(s, t, cs[i].begin, cs[i].end)
    requires |cs| < BVH_WIDTH && LargestArea(leaf, PartsOf(s, cs), i) && ds[i].ty == ds[|cs|].ty == cs[i].ty
    requires SplitChosen(Slice(s, cs[i]), Slice(t, ds[i]), Slice(t, ds[|cs|]), SAH_BLOCK_SIZE)
    ensures AreaStep(leaf)(PartsOf(s, cs), PartsOf(t, ds))
  {
    hide Group, ValidRecord, PermutesRange, SplitChosen, Slice, Divides, LargestArea;
    PartsDivide(sc, s, t, r.begin, r.end, cs, i, ds);
    assert AreaStepAt(leaf, PartsOf(s, cs), i, PartsOf(t, ds));
  }

  lemma NowFull(sc: Scene, s: seq<PrimRef>, r: Record, cs: seq<Record>, leaf: nat)
    requires Group(sc, s, r.begin, r.end, cs) && |cs| <= BVH_WIDTH
    requires |cs| < BVH_WIDTH ==> forall i: nat :: i < |cs| ==> cs[i].Size() <= leaf
    ensures Full(leaf, PartsOf(s, cs))
  {
    hide Group, Slice;
    SizesAreCounts(sc, s, r.begin, r.end, cs);
    forall i: nat | i < |cs|
      ensures |PartsOf(s, cs)[i].prims| == cs[i].Size()
    {
      assert Counts(PartsOf(s, cs))[i] == Sizes(cs)[i];
    }
  }

  lemma LevelsSplit(r: Record, cs: seq<Record>, i: nat, ds: seq<Record>, typed: bool)
    requires i < |cs| && |ds| == |cs| + 1 && ds == cs[i := ds[i]] + [ds[|cs|]]
    requires Levels(r, cs) && TypesKept(r, cs, typed)
    requires ds[i].depth == ds[|cs|].depth == r.depth + 1 && ds[i].ty == ds[|cs|].ty == cs[i].ty
    ensures Levels(r, ds) && TypesKept(r, ds, typed)
  {
  }

  // ----- what the recursion may rely on

  /** A record that becomes a single fat leaf. */
  predicate LeafRecord(c: Record) {
    c.ty.Some? && c.Size() <= LeafSize(c.ty)
  }

  /** Records that cannot run into the depth limit. */
  predicate DepthOK(c: Record) {
    && c.Size() <= Capacity(6, MAX_DEPTH - MIN_LARGE_LEAF_LEVELS + 1)
    && (c.depth <= MAX_DEPTH - MIN_LARGE_LEAF_LEVELS
        || (c.depth == MAX_DEPTH - MIN_LARGE_LEAF_LEVELS + 1 && c.ty.Some?))
  }

  /** Six children, or at most five fat leaves that need few nodes. */
  ghost predicate Worthwhile(sc: Scene, r: Record, cs: seq<Record>) {
    && 1 <= |cs| <= BVH_WIDTH
    && (|cs| < BVH_WIDTH ==> (7 <= r.Size() || (sc.only.None? && 2 <= |cs| <= r.Size())) && forall i: nat :: i < |cs| ==> LeafRecord(cs[i]))
  }

  /** std::sort of the children by a key: equal ones in any order. */
  method SortChildren(ghost sc: Scene, ghost s: seq<PrimRef>, ghost r: Record, cs0: seq<Record>, key: Record -> real)
    returns (cs: seq<Record>)
    requires Group(sc, s, r.begin, r.end, cs0)
    ensures Group(sc, s, r.begin, r.end, cs) && multiset(cs) == multiset(cs0) && Ascending(key, cs, |cs|)
  {
    hide Group, Ascending;
    cs := cs0;
    AscendingNone(key, cs);
    for i := 0 to |cs0|
      invariant |cs| == |cs0| && Group(sc, s, r.begin, r.end, cs) && multiset(cs) == multiset(cs0)
      invariant Ascending(key, cs, i)
    {
      ghost var least := LeastFrom(key, cs, i);
      var j: nat :| i <= j < |cs| && forall l: nat :: i <= l < |cs| ==> key(cs[j]) <= key(cs[l]);
      GroupSwap(sc, s, r.begin, r.end, cs, i, j);
      AscendingMore(key, cs, i, j);
      cs := cs[i := cs[j]][j := cs[i]];
    }
  }

  /** The first n children are in order, and none of the others comes before. */
  ghost predicate Ascending(key: Record -> real, cs: seq<Record>, n: nat) {
    n <= |cs| && forall k: nat, l: nat :: k < n && k < l < |cs| ==> key(cs[k]) <= key(cs[l])
  }

  lemma AscendingNone(key: Record -> real, cs: seq<Record>)
    ensures Ascending(key, cs, 0)
  {
  }

  lemma AscendingMore(key: Record -> real, cs: seq<Record>, i: nat, j: nat)
    requires Ascending(key, cs, i) && i <= j < |cs| && forall l: nat :: i <= l < |cs| ==> key(cs[j]) <= key(cs[l])
    ensures Ascending(key, cs[i := cs[j]][j := cs[i]], i + 1)
  {
  }

  lemma LeastFrom(key: Record -> real, cs: seq<Record>, i: nat) returns (j: nat)
    requires i < |cs|
    ensures i <= j < |cs| && forall l: nat :: i <= l < |cs| ==> key(cs[j]) <= key(cs[l])
  {
    j := i;
    for k := i + 1 to |cs|
      invariant i <= j < k && forall l: nat :: i <= l < k ==> key(cs[j]) <= key(cs[l])
    {
      if key(cs[k]) < key(cs[j]) {
        j := k;
      }
    }
  }

  /** std::less of records, and the order of fat leaves. */
  function SizeKey(): Record -> real {
    (c: Record) => c.Size() as real
  }

  function AreaKey(): Record -> real {
    (c: Record) => -HalfArea(c.bounds)
  }

  lemma SameRecords(cs: seq<Record>, ds: seq<Record>, i: nat) returns (j: nat)
    requires multiset(cs) == multiset(ds) && i < |ds|
    ensures j < |cs| && cs[j] == ds[i]
  {
    assert ds[i] in multiset(cs);
    j :| 0 <= j < |cs| && cs[j] == ds[i];
  }

  lemma WorthwhileSorted(sc: Scene, r: Record, cs: seq<Record>, ds: seq<Record>)
    requires multiset(cs) == multiset(ds) && Worthwhile(sc, r, cs)
    ensures Worthwhile(sc, r, ds)
  {
    hide LeafRecord;
    assert |cs| == |multiset(cs)| == |multiset(ds)| == |ds|;
    forall i: nat | i < |ds| && |ds| < BVH_WIDTH
      ensures LeafRecord(ds[i])
    {
      var j := SameRecords(cs, ds, i);
    }
  }

  /** The children of an inner node: types first, then the SAH. */
  method InternalChildren(sc: Scene, prims: array<PrimRef>, r: Record, typeSplit: bool) returns (cs: seq<Record>)
    requires ValidRecord(sc, prims[..], r)
    requires if typeSplit then r.ty.None? && Mixed(sc, prims[..], r.begin, r.end)
             else 7 <= r.Size() && (r.ty.None? ==> TYPE_SPLIT_SIZE < r.Size())
    modifies prims
    ensures PermutesRange(old(prims[..]), prims[..], r.begin, r.end)
    ensures Group(sc, prims[..], r.begin, r.end, cs) && Worthwhile(sc, r, cs)
    ensures |cs| == 1 ==> cs[0] == r && r.Size() <= LeafSize(r.ty)
    ensures 1 < |cs| ==> forall i: nat :: i < |cs| ==> cs[i].depth == r.depth + 1
    ensures DepthOK(r) && (typeSplit || r.depth < MAX_DEPTH - MIN_LARGE_LEAF_LEVELS) ==> forall i: nat :: i < |cs| ==> DepthOK(cs[i])
    ensures NodeParts(sc, Part(old(Slice(prims[..], r)), r.ty), typeSplit, PartsOf(prims[..], cs))
  {
    hide Group, ValidRecord, PermutesRange, Levels, TypesKept, Worthwhile, DepthOK, Mixed, NodeParts, Reaches, AreaStep, TypeStep, Full,
      Ascending, Slice;
    ghost var p := Part(Slice(prims[..], r), r.ty);
    if typeSplit {
      MixedScene(sc, prims[..], r);
      cs := SplitTypes(sc, prims, r);
      ValidPermute(sc, old(prims[..]), prims[..], r);
    } else {
      cs := [r];
      GroupOne(sc, prims[..], r);
      RecordBounds(sc, prims[..], r);
      PermutesSelf(prims[..], r.begin, r.end);
    }
    FirstLevels(r, cs, typeSplit);
    ghost var s := prims[..];
    ghost var ms := PartsOf(s, cs);
    PartsOne(s, r);
    cs := SplitLargestArea(sc, prims, r, cs, typeSplit);
    ValidPermute(sc, s, prims[..], r);
    PermutesTrans(old(prims[..]), s, prims[..], r.begin, r.end, r.begin, r.end);
    ChildrenWorthwhile(sc, prims[..], r, cs, typeSplit);
    ChildrenDepth(sc, prims[..], r, cs, typeSplit);
    ghost var ds := cs;
    cs := SortChildren(sc, prims[..], r, cs, SizeKey());
    WorthwhileSorted(sc, r, ds, cs);
    DepthSorted(r, ds, cs);
    LevelsSorted(r, ds, cs);
    SortedBySize(sc, prims[..], r, ds, cs);
    assert NodePartsVia(sc, p, typeSplit, ms, PartsOf(prims[..], ds), PartsOf(prims[..], cs));
    NodePartsIf(sc, p, typeSplit, ms, PartsOf(prims[..], ds), PartsOf(prims[..], cs));
  }

  lemma NodePartsIf(sc: Scene, p: Part, typed: bool, ms: seq<Part>, qs: seq<Part>, ks: seq<Part>)
    requires NodePartsVia(sc, p, typed, ms, qs, ks)
    ensures NodeParts(sc, p, typed, ks)
  {
    hide NodePartsVia;
  }

  lemma LevelsSorted(r: Record, cs: seq<Record>, ds: seq<Record>)
    requires Levels(r, cs) && multiset(cs) == multiset(ds)
    ensures 1 < |ds| ==> forall i: nat :: i < |ds| ==> ds[i].depth == r.depth + 1
  {
    assert |cs| == |multiset(cs)| == |multiset(ds)| == |ds|;
    if 1 < |ds| {
      forall i: nat | i < |ds|
        ensures ds[i].depth == r.depth + 1
      {
        var j := SameRecords(cs, ds, i);
      }
    }
  }

  lemma SortedBySize(sc: Scene, s: seq<PrimRef>, r: Record, cs: seq<Record>, ds: seq<Record>)
    requires Group(sc, s, r.begin, r.end, ds) && multiset(cs) == multiset(ds) && Ascending(SizeKey(), ds, |ds|)
    ensures BySize(PartsOf(s, cs), PartsOf(s, ds))
  {
    hide Group, Slice;
    PartsPermute(s, cs, ds);
    SizesAreCounts(sc, s, r.begin, r.end, ds);
    var ks := PartsOf(s, ds);
    forall i: nat, j: nat | i < j < |ks|
      ensures |ks[i].prims| <= |ks[j].prims|
    {
      assert Counts(ks)[i] == Sizes(ds)[i] && Counts(ks)[j] == Sizes(ds)[j];
      assert SizeKey()(ds[i]) <= SizeKey()(ds[j]);
    }
  }

  lemma PartsPermute(s: seq<PrimRef>, cs: seq<Record>, ds: seq<Record>)
    requires multiset(cs) == multiset(ds)
    ensures multiset(PartsOf(s, cs)) == multiset(PartsOf(s, ds))
  {
    hide Slice;
    var f := (c: Record) => Part(Slice(s, c), c.ty);
    MapPermutation(f, cs, ds);
    assert PartsOf(s, cs) == Map(f, cs) && PartsOf(s, ds) == Map(f, ds);
  }

  lemma MixedScene(sc: Scene, s: seq<PrimRef>, r: Record)
    requires ValidRecord(sc, s, r) && Mixed(sc, s, r.begin, r.end)
    ensures sc.only.None?
  {
    assert Fits(sc, r, s[r.begin]);
    var q :| r.begin <= q < r.end && sc.typeOf(s[q].geomID) != sc.typeOf(s[r.begin].geomID);
    assert Fits(sc, r, s[q]);
  }

  lemma FirstLevels(r: Record, cs: seq<Record>, typed: bool)
    requires if typed then 2 <= |cs| && forall i: nat :: i < |cs| ==> cs[i].depth == r.depth + 1 && cs[i].ty.Some?
             else cs == [r]
    ensures Levels(r, cs) && TypesKept(r, cs, typed)
  {
  }

  lemma ChildrenWorthwhile(sc: Scene, s: seq<PrimRef>, r: Record, cs: seq<Record>, typed: bool)
    requires ValidRecord(sc, s, r)
    requires Group(sc, s, r.begin, r.end, cs) && 1 <= |cs| <= BVH_WIDTH && Levels(r, cs) && TypesKept(r, cs, typed)
    requires |cs| < BVH_WIDTH ==> forall i: nat :: i < |cs| ==> cs[i].Size() <= LeafSize(r.ty)
    requires if typed then 2 <= |cs| && r.ty.None? && sc.only.None? else 7 <= r.Size() && (r.ty.None? ==> TYPE_SPLIT_SIZE < r.Size())
    ensures Worthwhile(sc, r, cs)
    ensures |cs| == 1 ==> cs[0] == r && r.Size() <= LeafSize(r.ty)
  {
    hide Group, ValidRecord;
    RecordBounds(sc, s, r);
    if |cs| < BVH_WIDTH {
      GroupSize(sc, s, r.begin, r.end, cs, LeafSize(r.ty));
      MulMono(|cs|, 5, LeafSize(r.ty));
    }
  }

  lemma ChildrenDepth(sc: Scene, s: seq<PrimRef>, r: Record, cs: seq<Record>, typed: bool)
    requires Group(sc, s, r.begin, r.end, cs) && 1 <= |cs| && Levels(r, cs) && TypesKept(r, cs, typed)
    requires ValidRecord(sc, s, r)
    ensures DepthOK(r) && (typed || r.depth < MAX_DEPTH - MIN_LARGE_LEAF_LEVELS) && (typed ==> r.ty.None? && 2 <= |cs|) ==>
              forall i: nat :: i < |cs| ==> DepthOK(cs[i])
  {
    hide Group, ValidRecord;
    RecordBounds(sc, s, r);
    forall i: nat | i < |cs|
      ensures cs[i].Size() <= r.Size()
    {
      GroupMember(sc, s, r.begin, r.end, cs, i);
    }
  }

  lemma DepthSorted(r: Record, cs: seq<Record>, ds: seq<Record>)
    requires multiset(cs) == multiset(ds)
    ensures (forall i: nat :: i < |cs| ==> DepthOK(cs[i])) ==> forall i: nat :: i < |ds| ==> DepthOK(ds[i])
    ensures |ds| == |cs| && (|cs| == 1 ==> ds == cs)
  {
    hide DepthOK;
    assert |cs| == |multiset(cs)| == |multiset(ds)| == |ds|;
    if forall i: nat :: i < |cs| ==> DepthOK(cs[i]) {
      forall i: nat | i < |ds|
        ensures DepthOK(ds[i])
      {
        var j := SameRecords(cs, ds, i);
      }
    }
    if |cs| == 1 {
      var j := SameRecords(cs, ds, 0);
    }
  }
}
