/** A whole build and what it promises: the hierarchy read back, the node and
    memory bounds, the depth bound (rtbuild/qbvh6_builder_sah.h:165-172,
    864-869, 1128-1145, 1194-1208). */
module Build {
  import opened Common
  import opened Geometry
  import opened PrimLeafDesc
  import opened QNode
  import opened Bvh
  import opened Partition
  import opened Records
  import opened Depth
  import opened Splits
  import opened Children
  import opened Subtrees
  import opened LeafWriter
  import opened Phases
  import opened Builder
  import opened Decisions
  import opened Hulls
  import opened SizeEstimate

  /** The header takes two blocks, the root node follows. */
  const ROOT: nat := 2

  ghost predicate Input(sc: Scene, s: seq<PrimRef>) {
    forall p :: p in s ==>
      Proper(p.bounds) && (sc.only.Some? ==> sc.typeOf(p.geomID) == sc.only.value) && p.geomID < sc.masks.count
  }

  /** The record of the root: type unknown, depth 1. */
  function RootRecord(n: nat, bounds: Box): Record {
    Record(1, 0, n, bounds, None)
  }

  /** Five times the bytes a build of n references may need. */
  function RootNeed(sc: Scene, n: nat): int {
    5 * 192 + 64 * (5 * PerRef(sc) * n + NodeRate(sc) * n - 6)
  }

  /** A node that nothing hangs off. */
  predicate EmptyAt(m: seq<Block>, addr: nat) {
    && addr < |m| && m[addr].NodeBlock? && m[addr].node.WellFormed()
    && forall i: nat :: i < NUM_CHILDREN ==> !m[addr].node.ValidChild(i)
  }

  /** The memory holds a tree over exactly these references. */
  ghost predicate Hierarchy(sc: Scene, all: seq<PrimRef>, m: seq<Block>, hi: nat, t: Tree, mask: bv8) {
    && t.addr == ROOT && Encodes(m, sc.masks, t) && Within(t, ROOT + 1, hi) && Typed(sc.typeOf, t)
    && multiset(Leaves(t)) == multiset(all) && mask == MaskOf(sc.masks, all)
    && 5 * Nodes(t) + 1 <= NodeRate(sc) * |all|
    && (|all| <= 6 && sc.only.Some? ==> Nodes(t) == 1)
  }

  method CreateEmptyNode(mem: array<Block>, addr: nat)
    requires addr < mem.Length
    modifies mem
    ensures EmptyAt(mem[..], addr)
  {
    mem[addr] := NodeBlock(Node(NODE_TYPE_INTERNAL, 0, 0, Vec3(0.0, 0.0, 0.0), 0, 0, 0,
      [InvalidChild, InvalidChild, InvalidChild, InvalidChild, InvalidChild, InvalidChild]));
  }

  /** Builds over all references; node memory ends after `end` bytes. */
  method Build(sc: Scene, prims: array<PrimRef>, mem: array<Block>, end: nat) returns (out: Outcome, used: nat, ghost t: Tree)
    requires Input(sc, prims[..]) && 192 < end <= 64 * mem.Length && mem.Length < 0x8000_0000
    modifies prims, mem
    ensures multiset(prims[..]) == multiset(old(prims[..]))
    ensures prims.Length == 0 ==> out.Done? && EmptyAt(mem[..], ROOT)
    ensures prims.Length > 0 && out.Done? ==> Hierarchy(sc, old(prims[..]), mem[..], used / 64, t, out.mask)
    ensures prims.Length > 0 && out.Done? ==> Decided(sc, 1, Part(old(prims[..]), None), t)
    ensures out.Done? ==> !Unstorable(sc, old(prims[..]))
    ensures out.BadGeometry? ==> Unstorable(sc, old(prims[..]))
    ensures prims.Length > 0 && out.Done? ==> used == 64 * (ROOT + 1 + Blocks(t)) < end
    ensures out.OutOfMemory? ==> 5 * end <= RootNeed(sc, prims.Length)
    ensures out.TooDeep? ==> Capacity(6, MAX_DEPTH - MIN_LARGE_LEAF_LEVELS + 1) < prims.Length
  {
    hide Input, ValidRecord, Outcomes, Capacity, Hierarchy, Blocks, MaskOf, Encodes, TooLarge, Decided, Hull, Slice;
    ghost var s0 := prims[..];
    var b := new BuilderSAH(sc, prims, mem, end);
    var header := b.Malloc(128);
    var root := b.Malloc(64);
    t := Unbuilt;
    if prims.Length == 0 {
      CreateEmptyNode(mem, root.value);
      out, used := Done(0), b.cur;
      return;
    }
    var bounds := RangeBounds(prims, 0, prims.Length);
    assert prims[0..prims.Length] == prims[..];
    var r := RootRecord(prims.Length, bounds);
    RootValid(sc, prims[..], bounds);
    ghost var v0 := b.Now();
    out, t := b.CreateInternalNode(r, root.value);
    used := b.cur;
    RootOutcome(sc, v0, b.Now(), end, r, out, t);
  }

  lemma RootValid(sc: Scene, s: seq<PrimRef>, bounds: Box)
    requires Input(sc, s) && s != [] && bounds == Hull(s)
    ensures ValidRecord(sc, s, RootRecord(|s|, bounds)) && Slice(s, RootRecord(|s|, bounds)) == s
  {
    hide Hull, Subset, Proper;
    assert s[..|s|] == s;
    forall q | 0 <= q < |s|
      ensures Fits(sc, RootRecord(|s|, bounds), s[q])
    {
      assert s[q] in s;
      HullCovers(s, q);
    }
  }

  lemma RootOutcome(sc: Scene, v0: State, v: State, end: nat, r: Record, out: Outcome, t: Tree)
    requires r == RootRecord(|v0.s|, r.bounds) && v0.s != [] && v0.cur == 192
    requires Outcomes(sc, v0, v, end, r, ROOT, out, t)
    requires out.TooDeep? ==> !DepthOK(r)
    requires out.Done? && r.Size() <= LeafSize(r.ty) && (r.ty.Some? || sc.only.Some?) ==> Nodes(t) == 1
    ensures multiset(v.s) == multiset(v0.s)
    ensures (out.Done? ==> !Unstorable(sc, v0.s)) && (out.BadGeometry? ==> Unstorable(sc, v0.s))
    ensures out.Done? ==> Hierarchy(sc, v0.s, v.m, v.cur / 64, t, out.mask) && v.cur == 64 * (ROOT + 1 + Blocks(t)) < end
    ensures out.OutOfMemory? ==> 5 * end <= RootNeed(sc, |v0.s|)
    ensures out.TooDeep? ==> Capacity(6, MAX_DEPTH - MIN_LARGE_LEAF_LEVELS + 1) < |v0.s|
  {
    hide Capacity, Encodes, Within, Typed, MaskOf, Blocks, Nodes, Leaves, TooLarge;
    assert Slice(v0.s, r) == v0.s;
    if out.Done? {
      AllStored(sc, v.m, t, v0.s);
      assert Slice(v.s, r) == v.s;
      MaskPermutation(sc.masks, Leaves(t), v0.s);
      assert |Leaves(t)| == |multiset(Leaves(t))| == |multiset(v0.s)| == |v0.s|;
    }
  }

  lemma AllStored(sc: Scene, m: seq<Block>, t: Tree, all: seq<PrimRef>)
    requires Encodes(m, sc.masks, t) && Typed(sc.typeOf, t)
    ensures multiset(Leaves(t)) == multiset(all) ==> !Unstorable(sc, all)
  {
    hide Encodes, Typed, Leaves, TooLarge;
    NoneTooLarge(m, sc.masks, sc.typeOf, t);
    if multiset(Leaves(t)) == multiset(all) && Unstorable(sc, all) {
      UnstorablePermute(sc, all, Leaves(t));
    }
  }

  /** The OR of masks does not depend on the order. */
  lemma {:induction false} MaskPermutation(masks: Masks, s: seq<PrimRef>, t: seq<PrimRef>)
    requires multiset(s) == multiset(t)
    ensures MaskOf(masks, s) == MaskOf(masks, t)
    decreases |s|
  {
    hide MaskOf;
    if s == [] {
      assert |multiset(t)| == 0;
    } else {
      var i := FindOne(s, t, s[0]);
      RemoveOne(s, 0);
      RemoveOne(t, i);
      MaskPermutation(masks, s[..0] + s[1..], t[..i] + t[i + 1..]);
      MaskPull(masks, s, 0);
      MaskPull(masks, t, i);
    }
  }

  lemma MaskPull(masks: Masks, s: seq<PrimRef>, i: nat)
    requires i < |s|
    ensures MaskOf(masks, s) == MaskOf(masks, s[..i] + s[i + 1..]) | masks.of(s[i].geomID)
  {
    hide MaskOf;
    assert s == s[..i] + [s[i]] + s[i + 1..];
    MaskConcat(masks, s[..i] + [s[i]], s[i + 1..]);
    MaskConcat(masks, s[..i], [s[i]]);
    MaskConcat(masks, s[..i], s[i + 1..]);
    MaskOne(masks, s[i]);
    OrSwap(MaskOf(masks, s[..i]), masks.of(s[i].geomID), MaskOf(masks, s[i + 1..]));
  }

  lemma MaskOne(masks: Masks, p: PrimRef)
    ensures MaskOf(masks, [p]) == masks.of(p.geomID)
  {
    assert [p][..0] == [];
  }

  lemma OrSwap(a: bv8, b: bv8, c: bv8)
    ensures (a | b) | c == (a | c) | b
  {
  }

  // ----- the advertised size

  /** A scene of one type whose references are covered by the counts: the
      advertised size exceeds all that a build may need. */
  lemma WorstCaseSuffices(sc: Scene, n: nat, st: Stats)
    requires sc.only.Some? && n <= st.Count(sc.only.value)
    ensures RootNeed(sc, n) < 5 * st.WorstCaseBytes()
  {
    hide RootNeed, Stats.WorstCaseBytes, Stats.WorstNodes, Stats.LeafBytes;
    WorstCaseIs(st, st.WorstCaseBytes());
    CountBounds(sc, n, st);
    WorstNodesBounds(st);
  }

  lemma WorstNodesBounds(st: Stats)
    ensures 6 + 7 * st.Size() <= 6 * st.WorstNodes() <= 11 + 7 * st.Size()
  {
  }

  lemma CountBounds(sc: Scene, n: nat, st: Stats)
    requires sc.only.Some? && n <= st.Count(sc.only.value)
    ensures n <= st.Size() && RootNeed(sc, n) <= 576 + 5 * st.LeafBytes() + 384 * n
    ensures n == st.Size() ==> RootNeed(sc, n) == 576 + 5 * st.LeafBytes() + 384 * n
  {
    assert PerRef(sc) == 1 || PerRef(sc) == 2;
  }

  /** Nor is much more advertised: 1.1 times what a build of the scene may need and
      8464 bytes, which are two pages and the rounding. */
  lemma WorstCaseBounded(sc: Scene, st: Stats)
    requires sc.only.Some? && st.Size() == st.Count(sc.only.value)
    ensures 50 * st.WorstCaseBytes() <= 11 * RootNeed(sc, st.Size()) + 50 * 8464
  {
    hide RootNeed, Stats.WorstCaseBytes, Stats.WorstNodes, Stats.LeafBytes;
    hide Stats.Size, Stats.Count;
    CountBounds(sc, st.Size(), st);
    WorstNodesBounds(st);
    WorstCaseBelow(st);
  }

  lemma WorstCaseBelow(st: Stats)
    ensures 10 * st.WorstCaseBytes() <= 83190 + 11 * st.WorstData()
  {
    hide Stats.WorstCaseBytes, Stats.WorstData;
    var bytes := st.WorstCaseBytes();
    WorstCaseIs(st, bytes);
    if 128 <= bytes {
      WorstCaseIs(st, bytes - 128);
    }
  }

  // ----- end to end

  lemma IdsPermutation(typeOf: nat -> PType, s: seq<PrimRef>, t: seq<PrimRef>)
    requires multiset(s) == multiset(t)
    ensures multiset(LeafIds(typeOf, s)) == multiset(LeafIds(typeOf, t))
  {
    var f := p => LeafId(typeOf, p);
    MapPermutation(f, s, t);
    assert LeafIds(typeOf, s) == Map(f, s) && LeafIds(typeOf, t) == Map(f, t);
  }

  /** The leaf keeps the geometry ID as it is. */
  predicate KeptWhole(typeOf: nat -> PType, p: PrimRef) {
    typeOf(p.geomID) == Instance || p.geomID < GEOM_INDEX_RANGE
  }

  function AddID(sum: int, id: Id): int {
    sum + id.0
  }

  /** The stored IDs are the IDs exactly when no geometry ID loses bits. */
  lemma IdsReturnIff(typeOf: nat -> PType, s: seq<PrimRef>)
    ensures multiset(LeafIds(typeOf, s)) == multiset(Ids(s)) <==> forall p :: p in s ==> KeptWhole(typeOf, p)
  {
    if forall p :: p in s ==> KeptWhole(typeOf, p) {
      forall i | 0 <= i < |s|
        ensures LeafIds(typeOf, s)[i] == Ids(s)[i]
      {
        assert s[i] in s;
      }
      assert LeafIds(typeOf, s) == Ids(s);
    } else {
      TruncationLoses(typeOf, s);
      if multiset(LeafIds(typeOf, s)) == multiset(Ids(s)) {
        FoldPermutation(AddID, 0, LeafIds(typeOf, s), Ids(s));
      }
    }
  }

  /** Truncation takes from the sum of the geometry IDs. */
  lemma {:induction false} TruncationLoses(typeOf: nat -> PType, s: seq<PrimRef>)
    ensures Fold(AddID, 0, LeafIds(typeOf, s)) <= Fold(AddID, 0, Ids(s))
    ensures (exists p :: p in s && !KeptWhole(typeOf, p)) ==> Fold(AddID, 0, LeafIds(typeOf, s)) < Fold(AddID, 0, Ids(s))
  {
    hide Fold, Ids, LeafIds;
    if s != [] {
      var n := |s| - 1;
      TruncationLoses(typeOf, s[..n]);
      SumsNext(typeOf, s);
      assert forall p :: p in s <==> p in s[..n] || p == s[n];
    } else {
      assert LeafIds(typeOf, s) == [] == Ids(s);
    }
  }

  /** The sums grow by the last geometry ID and by what its leaf keeps of it. */
  lemma SumsNext(typeOf: nat -> PType, s: seq<PrimRef>)
    requires s != []
    ensures var n := |s| - 1;
      && Fold(AddID, 0, Ids(s)) == Fold(AddID, 0, Ids(s[..n])) + s[n].geomID
      && Fold(AddID, 0, LeafIds(typeOf, s)) == Fold(AddID, 0, LeafIds(typeOf, s[..n])) + LeafId(typeOf, s[n]).0
  {
    var n := |s| - 1;
    assert LeafIds(typeOf, s)[..n] == LeafIds(typeOf, s[..n]) && Ids(s)[..n] == Ids(s[..n]);
  }

  /** The size advertised for a scene of one type exceeds the need of a build
      with no more references than the scene has primitives. */
  lemma AdvertisedSizeSuffices(sc: Scene, gs: seq<GeometryInfo>, st: Stats, n: nat)
    requires sc.only.Some? && OneType(gs, sc.only.value) && Covers(st, gs) && n <= CountAll(gs)
    ensures RootNeed(sc, n) < 5 * st.WorstCaseBytes()
  {
    OneTypeCount(gs, sc.only.value);
    WorstCaseSuffices(sc, n, st);
  }

  /** Builds and then follows the hierarchy from the root: every reference is
      met exactly once, under the ID that its leaf keeps; these are the IDs of the
      references exactly when no geometry ID loses bits. With the advertised size
      a scene of one type has memory enough, and with no more references than fit
      the depth it is not too deep. */
  method BuildAndTraverse(sc: Scene, prims: array<PrimRef>, mem: array<Block>, end: nat, ghost gs: seq<GeometryInfo>, ghost st: Stats)
    returns (out: Outcome, ids: seq<Id>, used: nat, ghost t: Tree)
    requires Input(sc, prims[..]) && 192 < end <= 64 * mem.Length && mem.Length < 0x8000_0000
    requires 0 < prims.Length
    modifies prims, mem
    ensures out.Done? ==> Hierarchy(sc, old(prims[..]), mem[..], used / 64, t, out.mask) && ids == LeafIds(sc.typeOf, Leaves(t))
    ensures out.Done? ==> Decided(sc, 1, Part(old(prims[..]), None), t)
    ensures out.Done? ==> multiset(ids) == multiset(LeafIds(sc.typeOf, old(prims[..]))) && out.mask == MaskOf(sc.masks, old(prims[..]))
    ensures out.Done? ==>
              (multiset(ids) == multiset(Ids(old(prims[..]))) <==> forall p :: p in old(prims[..]) ==> KeptWhole(sc.typeOf, p))
    ensures (out.Done? ==> !Unstorable(sc, old(prims[..]))) && (out.BadGeometry? ==> Unstorable(sc, old(prims[..])))
    ensures sc.only.Some? && OneType(gs, sc.only.value) && Covers(st, gs) && prims.Length <= CountAll(gs) && st.WorstCaseBytes() <= end ==>
              !out.OutOfMemory?
    ensures prims.Length <= Capacity(6, MAX_DEPTH - MIN_LARGE_LEAF_LEVELS + 1) ==> !out.TooDeep?
  {
    hide Input, Capacity, RootNeed, Encodes, Within, Typed, MaskOf, Leaves, Nodes, OneType, Covers, CountAll, Unstorable, KeptWhole, Decided;
    ghost var all := prims[..];
    out, used, t := Build(sc, prims, mem, end);
    ids := [];
    if sc.only.Some? && OneType(gs, sc.only.value) && Covers(st, gs) && prims.Length <= CountAll(gs) {
      AdvertisedSizeSuffices(sc, gs, st, prims.Length);
    }
    if out.Done? {
      ids := VisitNode(mem, ROOT, sc.masks, sc.typeOf, t);
      IdsPermutation(sc.typeOf, Leaves(t), all);
      IdsReturnIff(sc.typeOf, all);
    }
  }

  /** No build of up to 6 * 4^7 references, nor of a few more, is too deep. */
  lemma DepthSuffices()
    ensures Capacity(6, MAX_DEPTH - MIN_LARGE_LEAF_LEVELS + 1) == 109226
    ensures 6 * Pow4(7) < 109226
  {
    CapacityClosed(6, 20);
    assert Pow4(7) == 16384 by {
      assert Pow4(3) == 64;
      assert Pow4(5) == 1024;
    }
  }
}
