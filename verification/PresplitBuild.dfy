/** Pre-splitting followed by the build: what is built is admissible, comes from
    the generated references, and still holds what those hold
    (rtbuild/qbvh6_builder_sah.h:1107-1160). */
module PresplitBuild {
  import opened Common
  import opened Geometry
  import opened Bvh
  import opened Clipping
  import opened Records
  import opened Presplit
  import opened ProperParts
  import opened Transforms
  import OpenInstance
  import opened SceneSplit
  import OpenedParts
  import Requests
  import opened SizeEstimate
  import opened Phases
  import opened Depth
  import Morton
  import opened Decisions
  import Build

  // ----- what a reference holds

  ghost predicate InSome(s: seq<PrimRef>, geomID: nat, v: Vec3) {
    exists x :: x in s && x.geomID == geomID && In(v, x.bounds)
  }

  /** What lies below the instance, as placed in the scene, within the box of p. */
  ghost predicate HoldsBelow(s: seq<PrimRef>, p: PrimRef, x: OpenInstance.Instanced) {
    forall r: PrimRef, v: Vec3 :: r in Leaves(x.t) && In(v, r.bounds) && In(XfmPoint(x.local2world, v), p.bounds) ==>
      InSome(s, p.geomID, XfmPoint(x.local2world, v))
  }

  /** All that p holds of its primitive is held by references of the same ID;
      for a quad when its diagonal is held at every split, for an instance by
      references of the same instance. */
  ghost predicate Kept(sh: Shapes, scene: Box, p: PrimRef, k: nat, s: seq<PrimRef>) {
    match sh.typeOf(p.geomID)
    case Triangle => HoldsPair(s, p, sh.tri(IdOf(p)).0, sh.tri(IdOf(p)).1)
    case Quad => HeldThroughout(GridPlanes(scene), sh.quad(IdOf(p)), p, k) ==> HoldsQuad(s, p, sh.quad(IdOf(p)))
    case Procedural => p in s
    case Instance => HoldsBelow(s, p, sh.inst(p.geomID))
  }

  lemma KeptItself(sh: Shapes, scene: Box, p: PrimRef, k: nat, s: seq<PrimRef>)
    requires p in s
    ensures Kept(sh, scene, p, k, s)
  {
    hide In, OnPair, OnQuad, Leaves, XfmPoint, HeldThroughout, GridPlanes;
  }

  lemma KeptParts(sh: Shapes, scene: Box, p: PrimRef, k: nat, parts: seq<PrimRef>, s: seq<PrimRef>)
    requires 1 <= k && SplitAs(sh, scene, p, k, parts) && forall x :: x in parts ==> x in s
    ensures Kept(sh, scene, p, k, s)
  {
    hide In, OnPair, OnQuad, HeldThroughout, GridPlanes, SubPrims, HoldsPair, HoldsQuad, HoldsBelow, OpenInstance.Opens;
    match sh.typeOf(p.geomID)
    case Triangle =>
      var (tri0, tri1) := sh.tri(IdOf(p));
      CutPair(sh, GridPlanes(scene), p, k);
      PairPartsHold(scene, p, k, tri0, tri1);
      PairHeldIn(parts, s, p, tri0, tri1);
    case Quad =>
      var q := sh.quad(IdOf(p));
      CutQuad(sh, GridPlanes(scene), p, k);
      QuadPartsHold(scene, p, k, q);
      if HoldsQuad(parts, p, q) {
        QuadHeldIn(parts, s, p, q);
      }
    case Procedural =>
      SubPrimsCases(Cutter(sh, GridPlanes(scene)), p, k);
      assert p in parts;
    case Instance =>
      InstanceHeldIn(sh.inst(p.geomID), p, k, parts, s);
  }

  lemma HeldIn(parts: seq<PrimRef>, s: seq<PrimRef>, p: PrimRef, v: Vec3)
    requires Holds(parts, p, v) && forall x :: x in parts ==> x in s
    ensures Holds(s, p, v)
  {
    hide In;
    var x :| x in parts && IdOf(x) == IdOf(p) && In(v, x.bounds);
    assert x in s;
  }

  lemma PairHeldIn(parts: seq<PrimRef>, s: seq<PrimRef>, p: PrimRef, tri0: Corners, tri1: Option<Corners>)
    requires HoldsPair(parts, p, tri0, tri1) && forall x :: x in parts ==> x in s
    ensures HoldsPair(s, p, tri0, tri1)
  {
    hide In, OnPair, Holds;
    forall v: Vec3, a: real, b: real, c: real | OnPair(v, tri0, tri1, a, b, c) && In(v, p.bounds)
      ensures Holds(s, p, v)
    {
      HeldIn(parts, s, p, v);
    }
  }

  lemma QuadHeldIn(parts: seq<PrimRef>, s: seq<PrimRef>, p: PrimRef, q: Corners4)
    requires HoldsQuad(parts, p, q) && forall x :: x in parts ==> x in s
    ensures HoldsQuad(s, p, q)
  {
    hide In, OnQuad, Holds;
    forall v: Vec3, a: real, b: real, c: real | OnQuad(v, q, a, b, c) && In(v, p.bounds)
      ensures Holds(s, p, v)
    {
      HeldIn(parts, s, p, v);
    }
  }

  lemma InstanceHeldIn(x: OpenInstance.Instanced, p: PrimRef, k: nat, parts: seq<PrimRef>, s: seq<PrimRef>)
    requires 1 <= k && OpenInstance.Opens(x, p, k, parts) && forall y :: y in parts ==> y in s
    ensures HoldsBelow(s, p, x)
  {
    hide In, Leaves, XfmPoint, OpenInstance.Opens;
    OpenedParts.OpenedProper(x, p, k, parts);
    forall r: PrimRef, v: Vec3 | r in Leaves(x.t) && In(v, r.bounds) && In(XfmPoint(x.local2world, v), p.bounds)
      ensures InSome(s, p.geomID, XfmPoint(x.local2world, v))
    {
      var i := OpenedParts.OpenedCover(x, p, k, parts, r, v);
      assert parts[i] in parts && parts[i] in s;
    }
  }

  // ----- the references that pre-splitting leaves

  /** What CreatePresplit ensures. */
  ghost predicate Presplitted(s: seq<PrimRef>, split: Split, requested: seq<nat>, budget: nat, its: seq<Item>, first: nat, center: nat,
                              out: seq<PrimRef>) {
    && Chosen(s, split, its, requested, first, center, budget)
    && multiset(out) == multiset(Pick(s, its[..center])) + multiset(Expand(s, split, its[center..]))
  }

  /** Where a reference of the result comes from: an initial one that was not
      chosen, or the parts of a chosen one. */
  lemma ComesFrom(s: seq<PrimRef>, split: Split, requested: seq<nat>, budget: nat, its: seq<Item>, first: nat, center: nat,
                  out: seq<PrimRef>, x: PrimRef) returns (i: nat)
    requires Presplitted(s, split, requested, budget, its, first, center, out) && |requested| <= |s| && x in out
    ensures i < |requested| && (x == s[i] || (1 < requested[i] && x in split(s[i], requested[i])))
  {
    hide Pick, Expand, Total, Extras, At;
    assert x in multiset(out);
    if x in Pick(s, its[..center]) {
      var it := Picked(s, its[..center], x);
      i := IndexOf(requested, its, it);
    } else {
      assert x in multiset(Expand(s, split, its[center..]));
      var it := ExpandedFrom(s, split, its[center..], x);
      i := IndexOf(requested, its, it);
      ChosenSize(its, requested, first, center, it);
    }
    AtIndex(s, i);
  }

  lemma AtIndex(s: seq<PrimRef>, i: nat)
    requires i < |s|
    ensures forall k: nat :: At(s, Item(k, i)) == s[i]
  {
  }

  lemma Picked(s: seq<PrimRef>, its: seq<Item>, x: PrimRef) returns (it: Item)
    requires x in Pick(s, its)
    ensures it in its && x == At(s, it)
  {
    hide At;
    var k: nat :| k < |its| && Pick(s, its)[k] == x;
    it := its[k];
  }

  lemma {:induction false} ExpandedFrom(s: seq<PrimRef>, split: Split, its: seq<Item>, x: PrimRef) returns (it: Item)
    requires x in Expand(s, split, its)
    ensures it in its && x in Parts(s, split, it)
  {
    hide Parts;
    var n := |its| - 1;
    if x in Parts(s, split, its[n]) {
      it := its[n];
    } else {
      it := ExpandedFrom(s, split, its[..n], x);
    }
  }

  /** An item is that of its reference. */
  lemma IndexOf(requested: seq<nat>, its: seq<Item>, it: Item) returns (i: nat)
    requires multiset(its) == multiset(InitialItems(requested)) && it in its
    ensures i < |requested| && it == Item(requested[i], i)
  {
    assert it in multiset(its);
    assert it in InitialItems(requested);
    i := it.index;
  }

  lemma ChosenSize(its: seq<Item>, requested: seq<nat>, first: nat, center: nat, it: Item)
    requires Arranged(its, requested, first) && first <= center <= |its| && it in its[center..]
    ensures 1 < it.data
  {
  }

  /** Every initial reference is left, or all its parts are. */
  lemma GoesTo(s: seq<PrimRef>, split: Split, requested: seq<nat>, budget: nat, its: seq<Item>, first: nat, center: nat,
               out: seq<PrimRef>, i: nat)
    requires Presplitted(s, split, requested, budget, its, first, center, out) && i < |requested| <= |s|
    ensures s[i] in out || (1 < requested[i] && forall x :: x in split(s[i], requested[i]) ==> x in out)
  {
    hide Pick, Expand, Total, Extras, At;
    var it := Item(requested[i], i);
    AtIndex(s, i);
    assert InitialItems(requested)[i] == it;
    assert it in multiset(its);
    var j: nat :| j < |its| && its[j] == it;
    if j < center {
      PickHas(s, its[..center], j);
      assert s[i] in multiset(out);
    } else {
      ChosenSize(its, requested, first, center, it);
      ExpandHas(s, split, its[center..], j - center);
      assert its[center..][j - center] == it && Parts(s, split, it) == split(s[i], requested[i]);
      forall x | x in split(s[i], requested[i])
        ensures x in out
      {
        assert x in multiset(Expand(s, split, its[center..]));
        assert x in multiset(out);
      }
    }
  }

  lemma PickHas(s: seq<PrimRef>, its: seq<Item>, j: nat)
    requires j < |its|
    ensures At(s, its[j]) in Pick(s, its)
  {
    hide At;
    assert Pick(s, its)[j] == At(s, its[j]);
  }

  lemma {:induction false} ExpandHas(s: seq<PrimRef>, split: Split, its: seq<Item>, j: nat)
    requires j < |its|
    ensures forall x :: x in Parts(s, split, its[j]) ==> x in Expand(s, split, its)
  {
    hide Parts;
    if j < |its| - 1 {
      ExpandHas(s, split, its[..|its| - 1], j);
    }
  }

  /** The generated references of a scene, all of which can be built. */
  ghost predicate GeneratedScene(sc: Scene, sh: Shapes, scene: Box, s: seq<PrimRef>) {
    sc.typeOf == sh.typeOf && Proper(scene) && Build.Input(sc, s) && forall p :: p in s ==> Generated(sh, scene, p)
  }

  /** What pre-splitting leaves can be built. */
  lemma PresplitInput(sc: Scene, sh: Shapes, scene: Box, s: seq<PrimRef>, split: Split, requested: seq<nat>, budget: nat,
                      its: seq<Item>, first: nat, center: nat, out: seq<PrimRef>)
    requires |requested| <= |s| && GeneratedScene(sc, sh, scene, s[..|requested|]) && SplitsScene(sh, scene, split)
    requires forall i: nat :: i < |requested| ==> requested[i] <= MAX_SPLITS
    requires Presplitted(s, split, requested, budget, its, first, center, out)
    ensures Build.Input(sc, out)
  {
    hide Proper, Generated, Presplitted, SplitAs;
    forall x | x in out
      ensures Proper(x.bounds) && (sc.only.Some? ==> sc.typeOf(x.geomID) == sc.only.value) && x.geomID < sc.masks.count
    {
      var i := ComesFrom(s, split, requested, budget, its, first, center, out, x);
      assert s[i] in s[..|requested|];
      if x != s[i] {
        PartsProper(sh, scene, s[i], requested[i], split(s[i], requested[i]));
      }
    }
  }

  /** And it holds what the generated references hold. */
  lemma PresplitKeeps(sh: Shapes, scene: Box, s: seq<PrimRef>, split: Split, requested: seq<nat>, budget: nat, its: seq<Item>, first: nat,
                      center: nat, out: seq<PrimRef>, i: nat)
    requires |requested| <= |s| && SplitsScene(sh, scene, split) && i < |requested| && requested[i] <= MAX_SPLITS
    requires Presplitted(s, split, requested, budget, its, first, center, out)
    ensures Kept(sh, scene, s[i], requested[i], out)
  {
    hide Presplitted, SplitAs, Kept;
    GoesTo(s, split, requested, budget, its, first, center, out, i);
    if s[i] in out {
      KeptItself(sh, scene, s[i], requested[i], out);
    } else {
      KeptParts(sh, scene, s[i], requested[i], split(s[i], requested[i]), out);
    }
  }

  /** A reference of the result is an initial one or a part of one. */
  ghost predicate Descends(s: seq<PrimRef>, split: Split, requested: seq<nat>, x: PrimRef) {
    exists i: nat :: i < |requested| <= |s| && (x == s[i] || (1 < requested[i] && x in split(s[i], requested[i])))
  }

  /** The first n references of s were asked for parts by priority, with the
      other slots as budget, and those chosen were split. */
  ghost predicate ByPriority(scene: Box, s: seq<PrimRef>, n: nat, w: Requests.Weights, split: Split, requested: seq<nat>, out: seq<PrimRef>) {
    && scene.Box? && |requested| == n <= |s| && Requests.AllRequested(w, Morton.NewGrid(scene), s[..n], |s| - n, requested)
    && SplitWithin(s, split, requested, |s| - n, out)
  }

  ghost predicate SplitWithin(s: seq<PrimRef>, split: Split, requested: seq<nat>, budget: nat, out: seq<PrimRef>) {
    exists its: seq<Item>, first: nat, center: nat :: Presplitted(s, split, requested, budget, its, first, center, out)
  }

  /** createPrimRefArray_presplit with the numbers of parts that the code asks
      for: what is left can be built and holds what the references held. */
  method PresplitReferences(scene: Box, prims: array<PrimRef>, n: nat, w: Requests.Weights, split: Split, threads: nat, ghost sc: Scene,
                            ghost sh: Shapes)
    returns (count: nat, requested: seq<nat>)
    requires n <= prims.Length && 1 <= threads && Requests.Roots(w)
    requires GeneratedScene(sc, sh, scene, prims[..n]) && SplitsScene(sh, scene, split)
    modifies prims
    ensures n <= count <= prims.Length && Build.Input(sc, prims[..count])
    ensures ByPriority(scene, old(prims[..]), n, w, split, requested, prims[..count])
    ensures |requested| == n && forall i: nat :: i < n ==> Kept(sh, scene, old(prims[i]), requested[i], prims[..count])
    ensures forall x :: x in prims[..count] ==> Descends(old(prims[..]), split, requested, x)
  {
    hide Build.Input, Generated, SplitsScene, Kept, Requests.Roots, Requests.RequestedAt, Proper, Subset, Chosen, Total, Extras, Pick,
      Expand, Bounded, Descends;
    ghost var s := prims[..];
    InitialProper(sc, sh, scene, s[..n]);
    forall i: nat | i < n
      ensures Proper(prims[i].bounds) && Subset(prims[i].bounds, scene)
    {
      assert prims[i] == s[..n][i];
    }
    requested := Requests.RequestedParts(prims, n, scene, w, prims.Length - n);
    RequestsFit(w, Morton.NewGrid(scene), s[..n], prims.Length - n, requested);
    SplitBounded(sh, scene, split);
    ghost var its, first, center;
    count, its, first, center := CreatePresplit(prims, n, requested, split, threads);
    assert Presplitted(s, split, requested, prims.Length - n, its, first, center, prims[..count]);
    PresplitInput(sc, sh, scene, s, split, requested, prims.Length - n, its, first, center, prims[..count]);
    AllKept(sh, scene, s, split, requested, prims.Length - n, its, first, center, prims[..count]);
  }

  /** The builder from the generated references on: asks for parts by priority,
      splits, builds and reads the hierarchy back. What it reads are the IDs of
      references that descend from the generated ones and hold all they held.
      The array has a slot for each primitive of the scene, so splitting takes
      the advertised size no further. */
  method PresplitAndBuild(sc: Scene, scene: Box, prims: array<PrimRef>, n: nat, w: Requests.Weights, split: Split, threads: nat,
                          mem: array<Block>, end: nat, ghost sh: Shapes, ghost gs: seq<GeometryInfo>, ghost st: Stats)
    returns (out: Outcome, ids: seq<Id>, requested: seq<nat>, used: nat, ghost refs: seq<PrimRef>, ghost t: Tree)
    requires 0 < n <= prims.Length && 1 <= threads && Requests.Roots(w)
    requires GeneratedScene(sc, sh, scene, prims[..n]) && SplitsScene(sh, scene, split)
    requires 192 < end <= 64 * mem.Length && mem.Length < 0x8000_0000
    modifies prims, mem
    ensures n <= |refs| <= prims.Length && Build.Input(sc, refs)
    ensures ByPriority(scene, old(prims[..]), n, w, split, requested, refs)
    ensures |requested| == n && forall i: nat :: i < n ==> Kept(sh, scene, old(prims[i]), requested[i], refs)
    ensures forall x :: x in refs ==> Descends(old(prims[..]), split, requested, x)
    ensures out.Done? ==> Build.Hierarchy(sc, refs, mem[..], used / 64, t, out.mask) && ids == LeafIds(sc.typeOf, Leaves(t))
    ensures out.Done? ==> Decided(sc, 1, Part(refs, None), t)
    ensures out.Done? ==> multiset(ids) == multiset(LeafIds(sc.typeOf, refs)) && out.mask == MaskOf(sc.masks, refs)
    ensures (out.Done? ==> !Unstorable(sc, refs)) && (out.BadGeometry? ==> Unstorable(sc, refs))
    ensures sc.only.Some? && OneType(gs, sc.only.value) && Covers(st, gs) && prims.Length <= CountAll(gs) && st.WorstCaseBytes() <= end ==>
              !out.OutOfMemory?
    ensures prims.Length <= Capacity(6, MAX_DEPTH - MIN_LARGE_LEAF_LEVELS + 1) ==> !out.TooDeep?
  {
    hide Build.Input, GeneratedScene, SplitsScene, Kept, Requests.Roots, MaskOf, Unstorable, Descends, OneType, Covers, CountAll, Capacity,
      ByPriority, Build.Hierarchy, Decided, Leaves;
    var count;
    count, requested := PresplitReferences(scene, prims, n, w, split, threads, sc, sh);
    refs := prims[..count];
    var built := new PrimRef[count](i requires 0 <= i < prims.Length reads prims => prims[i]);
    assert built[..] == refs;
    out, ids, used, t := Build.BuildAndTraverse(sc, built, mem, end, gs, st);
  }

  lemma AllKept(sh: Shapes, scene: Box, s: seq<PrimRef>, split: Split, requested: seq<nat>, budget: nat, its: seq<Item>, first: nat,
                center: nat, out: seq<PrimRef>)
    requires |requested| <= |s| && SplitsScene(sh, scene, split) && forall i: nat :: i < |requested| ==> requested[i] <= MAX_SPLITS
    requires Presplitted(s, split, requested, budget, its, first, center, out)
    ensures forall i: nat :: i < |requested| ==> Kept(sh, scene, s[i], requested[i], out)
    ensures forall x :: x in out ==> Descends(s, split, requested, x)
  {
    hide SplitsScene, Kept, Descends, Presplitted;
    forall i: nat | i < |requested|
      ensures Kept(sh, scene, s[i], requested[i], out)
    {
      PresplitKeeps(sh, scene, s, split, requested, budget, its, first, center, out, i);
    }
    forall x | x in out
      ensures Descends(s, split, requested, x)
    {
      IsDescendant(s, split, requested, budget, its, first, center, out, x);
    }
  }

  lemma InitialProper(sc: Scene, sh: Shapes, scene: Box, s: seq<PrimRef>)
    requires GeneratedScene(sc, sh, scene, s)
    ensures Proper(scene) && scene.Box?
    ensures forall i: nat :: i < |s| ==> Proper(s[i].bounds) && Subset(s[i].bounds, scene)
  {
    hide Proper, Subset, Build.Input;
    BoxOfProper(scene);
    forall i: nat | i < |s|
      ensures Proper(s[i].bounds) && Subset(s[i].bounds, scene)
    {
      assert s[i] in s;
    }
  }

  lemma RequestsFit(w: Requests.Weights, g: Morton.Grid, s: seq<PrimRef>, budget: nat, requested: seq<nat>)
    requires Requests.AllRequested(w, g, s, budget, requested)
    ensures forall i: nat :: i < |s| ==> 1 <= requested[i] <= MAX_SPLITS
  {
    hide Requests.Priority, Requests.PrioritySum, Requests.Share, Requests.AllOnGrid;
    forall i: nat | i < |s|
      ensures 1 <= requested[i] <= MAX_SPLITS
    {
      assert Requests.RequestedAt(w, g, s, budget, requested, i);
    }
  }

  lemma IsDescendant(s: seq<PrimRef>, split: Split, requested: seq<nat>, budget: nat, its: seq<Item>, first: nat, center: nat,
                     out: seq<PrimRef>, x: PrimRef)
    requires Presplitted(s, split, requested, budget, its, first, center, out) && |requested| <= |s| && x in out
    ensures Descends(s, split, requested, x)
  {
    hide Presplitted;
    var i := ComesFrom(s, split, requested, budget, its, first, center, out, x);
  }
}
