/** Build records and the families of disjoint subranges that the split loops
    of the builder maintain (rtbuild/qbvh6_builder_sah.h:179-222). */
module Records {
  import opened Common
  import opened Geometry
  import opened Bvh
  import opened Partition
  import opened PrimLeafDesc
  import opened Hulls

  const MAX_DEPTH: nat := 27
  const MIN_LARGE_LEAF_LEVELS: nat := 8
  const SAH_BLOCK_SIZE: nat := 6
  const TYPE_SPLIT_SIZE: nat := 128
  const SINGLE_THREAD_THRESHOLD: nat := 1024
  const BVH_WIDTH: nat := 6

  /** Types and masks of the geometries; `only` is the type of a one-type scene. */
  datatype Scene = Scene(typeOf: nat -> PType, masks: Masks, only: Option<PType>)

  function LeafSize(ty: Option<PType>): (n: nat)
    ensures n == if ty in {Some(Triangle), Some(Quad)} then 9 else 6
  {
    match ty
    case Some(Triangle) => 9
    case Some(Quad) => 9
    case _ => 6
  }

  /** A range of references; ty is None while the types may differ. */
  datatype Record = Record(depth: nat, begin: nat, end: nat, bounds: Box, ty: Option<PType>) {
    function Size(): nat {
      if begin <= end then end - begin else 0
    }
  }

  ghost predicate Fits(sc: Scene, r: Record, p: PrimRef) {
    && Proper(p.bounds) && Subset(p.bounds, r.bounds)
    && (r.ty.Some? ==> sc.typeOf(p.geomID) == r.ty.value)
    && (sc.only.Some? ==> sc.typeOf(p.geomID) == sc.only.value)
    && p.geomID < sc.masks.count
  }

  /** The record has the least box of its references. */
  ghost predicate ValidRecord(sc: Scene, s: seq<PrimRef>, r: Record) {
    && r.begin < r.end <= |s| && r.bounds == Hull(s[r.begin..r.end])
    && forall q :: r.begin <= q < r.end ==> Fits(sc, r, s[q])
  }

  function Slice(s: seq<PrimRef>, r: Record): (t: seq<PrimRef>)
    ensures r.begin <= r.end <= |s| ==> |t| == r.Size()
  {
    if r.begin <= r.end <= |s| then s[r.begin..r.end] else []
  }

  lemma SliceFits(sc: Scene, s: seq<PrimRef>, r: Record, p: PrimRef)
    requires ValidRecord(sc, s, r) && p in Slice(s, r)
    ensures Fits(sc, r, p)
  {
  }

  /** Some reference cannot be stored in a leaf of its type. */
  ghost predicate Unstorable(sc: Scene, s: seq<PrimRef>) {
    exists p :: p in s && TooLarge(sc.typeOf, p)
  }

  lemma UnstorableIn(sc: Scene, s: seq<PrimRef>, t: seq<PrimRef>)
    requires Unstorable(sc, s) && forall p :: p in s ==> p in t
    ensures Unstorable(sc, t)
  {
    var p :| p in s && TooLarge(sc.typeOf, p);
    assert p in t;
  }

  lemma UnstorablePermute(sc: Scene, s: seq<PrimRef>, t: seq<PrimRef>)
    requires Unstorable(sc, s) && multiset(s) == multiset(t)
    ensures Unstorable(sc, t)
  {
    forall p | p in s
      ensures p in t
    {
      assert p in multiset(t);
    }
    UnstorableIn(sc, s, t);
  }

  lemma RecordBounds(sc: Scene, s: seq<PrimRef>, r: Record)
    requires ValidRecord(sc, s, r)
    ensures r.begin < r.end <= |s| && Proper(r.bounds)
  {
    assert Fits(sc, r, s[r.begin]);
  }

  lemma BoundsAreHull(sc: Scene, s: seq<PrimRef>, r: Record)
    requires ValidRecord(sc, s, r)
    ensures r.bounds == Hull(Slice(s, r))
  {
    hide Hull;
  }

  // ----- families of records

  ghost predicate Apart(a: Record, b: Record) {
    a.end <= b.begin || b.end <= a.begin
  }

  function Gather(s: seq<PrimRef>, cs: seq<Record>): seq<PrimRef> {
    if cs == [] then [] else Gather(s, cs[..|cs| - 1]) + Slice(s, cs[|cs| - 1])
  }

  /** The records are disjoint parts of the range that together hold it. */
  ghost predicate Family(s: seq<PrimRef>, b: nat, e: nat, cs: seq<Record>) {
    && b <= e <= |s|
    && (forall i: nat :: i < |cs| ==> b <= cs[i].begin < cs[i].end <= e)
    && (forall i: nat, j: nat :: i < |cs| && j < |cs| && i != j ==> Apart(cs[i], cs[j]))
    && multiset(Gather(s, cs)) == multiset(s[b..e])
  }

  lemma {:induction false} GatherUpdate(s: seq<PrimRef>, cs: seq<Record>, i: nat, x: Record)
    requires i < |cs|
    ensures multiset(Gather(s, cs[i := x])) + multiset(Slice(s, cs[i])) == multiset(Gather(s, cs)) + multiset(Slice(s, x))
  {
    hide Slice;
    var n := |cs| - 1;
    if i == n {
      assert cs[i := x][..n] == cs[..n];
    } else {
      GatherUpdate(s, cs[..n], i, x);
      assert cs[i := x] == cs[..n][i := x] + [cs[n]] && cs == cs[..n] + [cs[n]];
      GatherAppend(s, cs[..n][i := x], cs[n]);
      GatherAppend(s, cs[..n], cs[n]);
      AddBoth(multiset(Gather(s, cs[..n][i := x])), multiset(Slice(s, cs[i])), multiset(Gather(s, cs[..n])),
              multiset(Slice(s, x)), multiset(Slice(s, cs[n])));
    }
  }

  lemma AddBoth<T>(a: multiset<T>, x: multiset<T>, b: multiset<T>, y: multiset<T>, z: multiset<T>)
    requires a + x == b + y
    ensures a + z + x == b + z + y
  {
    forall k: T
      ensures (a + z + x)[k] == (b + z + y)[k]
    {
      assert (a + x)[k] == (b + y)[k];
    }
  }

  lemma GatherAppend(s: seq<PrimRef>, cs: seq<Record>, x: Record)
    ensures Gather(s, cs + [x]) == Gather(s, cs) + Slice(s, x)
  {
    assert (cs + [x])[..|cs|] == cs;
  }

  lemma {:induction false} GatherFrame(s: seq<PrimRef>, t: seq<PrimRef>, cs: seq<Record>)
    requires forall i: nat :: i < |cs| ==> multiset(Slice(s, cs[i])) == multiset(Slice(t, cs[i]))
    ensures multiset(Gather(s, cs)) == multiset(Gather(t, cs))
  {
    hide Slice;
    if cs != [] {
      GatherFrame(s, t, cs[..|cs| - 1]);
    }
  }

  lemma FamilyOne(s: seq<PrimRef>, r: Record)
    requires r.begin < r.end <= |s|
    ensures Family(s, r.begin, r.end, [r])
  {
    GatherAppend(s, [], r);
    assert [] + [r] == [r];
  }

  lemma SliceSplit(s: seq<PrimRef>, c: Record, l: Record, r: Record)
    requires l.begin == c.begin < l.end == r.begin < r.end == c.end <= |s|
    ensures Slice(s, c) == Slice(s, l) + Slice(s, r)
  {
  }

  lemma FamilySplit(s: seq<PrimRef>, b: nat, e: nat, cs: seq<Record>, i: nat, l: Record, r: Record)
    requires Family(s, b, e, cs) && i < |cs|
    requires l.begin == cs[i].begin < l.end == r.begin < r.end == cs[i].end
    ensures Family(s, b, e, cs[i := l] + [r])
  {
    hide Gather, Slice, Apart;
    GatherUpdate(s, cs, i, l);
    GatherAppend(s, cs[i := l], r);
    SliceSplit(s, cs[i], l, r);
    SplitCount(multiset(Gather(s, cs[i := l])), multiset(Slice(s, cs[i])), multiset(Gather(s, cs)),
               multiset(Slice(s, l)), multiset(Slice(s, r)));
    SplitApart(cs, i, l, r);
  }

  lemma SplitCount<T>(g1: multiset<T>, c: multiset<T>, g: multiset<T>, l: multiset<T>, r: multiset<T>)
    requires g1 + c == g + l && c == l + r
    ensures g1 + r == g
  {
    forall k: T
      ensures (g1 + r)[k] == g[k]
    {
      assert (g1 + c)[k] == (g + l)[k];
    }
  }

  lemma SplitApart(cs: seq<Record>, i: nat, l: Record, r: Record)
    requires forall i: nat, j: nat :: i < |cs| && j < |cs| && i != j ==> Apart(cs[i], cs[j])
    requires i < |cs| && l.begin == cs[i].begin < l.end == r.begin < r.end == cs[i].end
    ensures var ds := cs[i := l] + [r];
      forall i: nat, j: nat :: i < |ds| && j < |ds| && i != j ==> Apart(ds[i], ds[j])
  {
    var ds := cs[i := l] + [r];
    forall k: nat, j: nat | k < |ds| && j < |ds| && k != j
      ensures Apart(ds[k], ds[j])
    {
      var k1, j1 := if k < |cs| then k else i, if j < |cs| then j else i;
      assert k1 != j1 ==> Apart(cs[k1], cs[j1]);
    }
  }

  /** Rearranging references inside one record keeps the family. */
  lemma FamilyPermute(s: seq<PrimRef>, t: seq<PrimRef>, b: nat, e: nat, cs: seq<Record>, i: nat)
    requires Family(s, b, e, cs) && i < |cs| && PermutesRange(s, t, cs[i].begin, cs[i].end)
    ensures Family(t, b, e, cs) && PermutesRange(s, t, b, e)
    ensures forall j: nat :: j < |cs| && j != i ==> Slice(t, cs[j]) == Slice(s, cs[j])
  {
    hide Gather;
    PermutesSlice(s, t, cs[i].begin, cs[i].end);
    forall j: nat | j < |cs| && j != i
      ensures Slice(t, cs[j]) == Slice(s, cs[j])
    {
      SliceOutside(s, t, cs[i], cs[j]);
    }
    GatherFrame(s, t, cs);
    PermutesSelf(s, b, e);
    PermutesTrans(s, s, t, b, e, cs[i].begin, cs[i].end);
    PermutesSlice(s, t, b, e);
  }

  lemma SliceOutside(s: seq<PrimRef>, t: seq<PrimRef>, c: Record, d: Record)
    requires PermutesRange(s, t, c.begin, c.end) && Apart(c, d)
    ensures Slice(t, d) == Slice(s, d)
  {
    PermutesLength(s, t, c.begin, c.end);
    if d.begin <= d.end <= |s| {
      forall q | d.begin <= q < d.end
        ensures t[q] == s[q]
      {
        PermutesOutside(s, t, c.begin, c.end, q);
      }
    }
  }

  lemma FamilySwap(s: seq<PrimRef>, b: nat, e: nat, cs: seq<Record>, i: nat, j: nat)
    requires Family(s, b, e, cs) && i < |cs| && j < |cs|
    ensures Family(s, b, e, cs[i := cs[j]][j := cs[i]])
  {
    hide Gather, Slice, Apart;
    var ds := cs[i := cs[j]];
    GatherUpdate(s, cs, i, cs[j]);
    GatherUpdate(s, ds, j, cs[i]);
    SwapCount(multiset(Gather(s, cs)), multiset(Gather(s, ds)), multiset(Gather(s, ds[j := cs[i]])),
              multiset(Slice(s, cs[i])), multiset(Slice(s, cs[j])));
    SwapApart(cs, i, j);
  }

  lemma SwapCount<T>(g: multiset<T>, g1: multiset<T>, g2: multiset<T>, x: multiset<T>, y: multiset<T>)
    requires g1 + x == g + y && g2 + y == g1 + x
    ensures g2 == g
  {
    forall k: T
      ensures g2[k] == g[k]
    {
      assert (g1 + x)[k] == (g + y)[k] && (g2 + y)[k] == (g1 + x)[k];
    }
  }

  lemma SwapApart(cs: seq<Record>, i: nat, j: nat)
    requires forall i: nat, j: nat :: i < |cs| && j < |cs| && i != j ==> Apart(cs[i], cs[j])
    requires i < |cs| && j < |cs|
    ensures var ds := cs[i := cs[j]][j := cs[i]];
      forall i: nat, j: nat :: i < |ds| && j < |ds| && i != j ==> Apart(ds[i], ds[j])
  {
    var ds := cs[i := cs[j]][j := cs[i]];
    forall k: nat, l: nat | k < |ds| && l < |ds| && k != l
      ensures Apart(ds[k], ds[l])
    {
      var k1 := if k == i then j else if k == j then i else k;
      var l1 := if l == i then j else if l == j then i else l;
      assert Apart(cs[k1], cs[l1]);
    }
  }

  /** A family of records of at most m references each. */
  lemma {:induction false} GatherSize(s: seq<PrimRef>, cs: seq<Record>, m: nat)
    requires forall i: nat :: i < |cs| ==> cs[i].begin < cs[i].end <= |s| && cs[i].Size() <= m
    ensures |cs| <= |Gather(s, cs)| <= |cs| * m
  {
    if cs != [] {
      var n := |cs| - 1;
      GatherSize(s, cs[..n], m);
      MulDistribute(n, m);
    }
  }

  lemma FamilySize(s: seq<PrimRef>, b: nat, e: nat, cs: seq<Record>, m: nat)
    requires Family(s, b, e, cs)
    requires forall i: nat :: i < |cs| ==> cs[i].Size() <= m
    ensures |cs| <= e - b <= |cs| * m
  {
    GatherSize(s, cs, m);
    assert |multiset(Gather(s, cs))| == |multiset(s[b..e])|;
  }

  /** Every part of a family of two or more is smaller than the range. */
  lemma PartSmaller(s: seq<PrimRef>, b: nat, e: nat, cs: seq<Record>, i: nat)
    requires Family(s, b, e, cs) && i < |cs| && 2 <= |cs|
    ensures cs[i].Size() < e - b
  {
    hide Gather;
    var j := if i == 0 then 1 else 0;
    assert Apart(cs[i], cs[j]);
  }

  // ----- families of valid records

  ghost predicate Group(sc: Scene, s: seq<PrimRef>, b: nat, e: nat, cs: seq<Record>) {
    Family(s, b, e, cs) && forall i: nat :: i < |cs| ==> ValidRecord(sc, s, cs[i])
  }

  lemma ValidFrame(sc: Scene, s: seq<PrimRef>, t: seq<PrimRef>, r: Record)
    requires ValidRecord(sc, s, r) && |t| == |s| && Slice(t, r) == Slice(s, r)
    ensures ValidRecord(sc, t, r)
  {
    hide Hull;
    forall q | r.begin <= q < r.end
      ensures Fits(sc, r, t[q])
    {
      assert t[q] == Slice(t, r)[q - r.begin] == Slice(s, r)[q - r.begin] == s[q];
    }
  }

  lemma ValidPermute(sc: Scene, s: seq<PrimRef>, t: seq<PrimRef>, r: Record)
    requires ValidRecord(sc, s, r) && PermutesRange(s, t, r.begin, r.end)
    ensures ValidRecord(sc, t, r)
  {
    hide Hull, PermutesRange, Fits;
    PermutesLength(s, t, r.begin, r.end);
    PermutesAll(s, t, r.begin, r.end, p => Fits(sc, r, p));
    PermutesSlice(s, t, r.begin, r.end);
    HullPermutes(s[r.begin..r.end], t[r.begin..r.end]);
  }

  /** A part of a record with its own box and possibly a known type. */
  lemma PartValid(sc: Scene, s: seq<PrimRef>, r: Record, c: Record)
    requires ValidRecord(sc, s, r) && r.begin <= c.begin < c.end <= r.end
    requires c.bounds == Hull(s[c.begin..c.end])
    requires c.ty == r.ty || (c.ty.Some? && forall q :: c.begin <= q < c.end ==> sc.typeOf(s[q].geomID) == c.ty.value)
      || c.ty.None?
    ensures ValidRecord(sc, s, c)
  {
    hide Hull, Subset, Proper;
    forall q | c.begin <= q < c.end
      ensures Fits(sc, c, s[q])
    {
      assert Fits(sc, r, s[q]);
      HullCovers(s[c.begin..c.end], q - c.begin);
    }
  }

  /** ds is cs with record i replaced by two neighbouring parts. */
  ghost predicate SplitAt(sc: Scene, s: seq<PrimRef>, cs: seq<Record>, i: nat, ds: seq<Record>)
  {
    && i < |cs| && |ds| == |cs| + 1
    && ds == cs[i := ds[i]] + [ds[|cs|]]
    && ds[i].begin == cs[i].begin < ds[i].end == ds[|cs|].begin < ds[|cs|].end == cs[i].end
    && ValidRecord(sc, s, ds[i]) && ValidRecord(sc, s, ds[|cs|])
  }

  /** Rearranging a record and splitting it keeps a group of records. */
  lemma GroupSplit(sc: Scene, s: seq<PrimRef>, t: seq<PrimRef>, b: nat, e: nat, cs: seq<Record>, i: nat, ds: seq<Record>)
    requires Group(sc, s, b, e, cs) && SplitAt(sc, t, cs, i, ds)
    requires PermutesRange(s, t, cs[i].begin, cs[i].end)
    ensures Group(sc, t, b, e, ds) && PermutesRange(s, t, b, e)
  {
    hide Family, PermutesRange, ValidRecord, Slice;
    FamilyPermute(s, t, b, e, cs, i);
    PermutesLength(s, t, b, e);
    FamilySplit(t, b, e, cs, i, ds[i], ds[|cs|]);
    forall j: nat | j < |ds|
      ensures ValidRecord(sc, t, ds[j])
    {
      if j < |cs| && j != i {
        ValidFrame(sc, s, t, cs[j]);
      }
    }
  }

  lemma GroupSwap(sc: Scene, s: seq<PrimRef>, b: nat, e: nat, cs: seq<Record>, i: nat, j: nat)
    requires Group(sc, s, b, e, cs) && i < |cs| && j < |cs|
    ensures Group(sc, s, b, e, cs[i := cs[j]][j := cs[i]])
  {
    hide Family, ValidRecord;
    FamilySwap(s, b, e, cs, i, j);
  }

  lemma GroupOne(sc: Scene, s: seq<PrimRef>, r: Record)
    requires ValidRecord(sc, s, r)
    ensures Group(sc, s, r.begin, r.end, [r])
  {
    FamilyOne(s, r);
  }

  function Sizes(cs: seq<Record>): (z: seq<nat>)
    ensures |z| == |cs| && forall i: nat :: i < |cs| ==> z[i] == cs[i].Size()
  {
    seq(|cs|, i requires 0 <= i < |cs| => cs[i].Size())
  }
}
