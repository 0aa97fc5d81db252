/** Pre-splitting as the builder runs it: triangles and quads are cut at the
    planes of the grid, instances are opened, and the references that are left
    can be built and still hold what the scene holds
    (rtbuild/qbvh6_builder_sah.h:1107-1145,
    rtbuild/builders/primrefgen_presplit.h:143-178). */
module SceneSplit {
  import opened Common
  import opened Geometry
  import opened Bvh
  import opened Clipping
  import opened Records
  import opened Presplit
  import opened ProperParts
  import opened Transforms
  import opened OpenInstance
  import OpenedParts
  import Morton
  import Build

  // ----- the planes of the grid

  /** Where the grid of the scene splits a reference. */
  ghost function GridPlanes(scene: Box): Planes {
    (p: PrimRef) =>
      if scene.Box? && Morton.OnGrid(Morton.NewGrid(scene), p.bounds) then Morton.GridPlane(Morton.NewGrid(scene), p.bounds) else None
  }

  lemma GridPlanesAt(scene: Box, p: PrimRef)
    requires Proper(scene) && Proper(p.bounds) && Subset(p.bounds, scene)
    ensures scene.Box? && Morton.OnGrid(Morton.NewGrid(scene), p.bounds)
    ensures GridPlanes(scene)(p) == Morton.GridPlane(Morton.NewGrid(scene), p.bounds)
  {
    hide Proper, Subset, Morton.OnGrid, Morton.NewGrid, Morton.GridPlane;
    Morton.InsideGrid(scene, p.bounds);
    BoxOfProper(scene);
  }

  lemma GridPlanesInside(scene: Box)
    requires Proper(scene)
    ensures PlanesInside(GridPlanes(scene), scene)
  {
    hide GridPlanes, Proper, Subset, Axis, Morton.OnGrid, Morton.NewGrid, Morton.GridPlane;
    forall p: PrimRef | GridPlanes(scene)(p).Some? && Proper(p.bounds) && Subset(p.bounds, scene)
      ensures p.bounds.Box?
      ensures var (d, pos) := GridPlanes(scene)(p).value; d < 3 && Axis(p.bounds.lo, d) <= pos <= Axis(p.bounds.hi, d)
    {
      BoxOfProper(p.bounds);
      GridPlanesAt(scene, p);
      Morton.GridPlaneInside(Morton.NewGrid(scene), p.bounds);
    }
  }

  // ----- triangles

  /** Some reference with the ID of p has the point in its box. */
  ghost predicate Holds(s: seq<PrimRef>, p: PrimRef, v: Vec3) {
    exists x :: x in s && IdOf(x) == IdOf(p) && In(v, x.bounds)
  }

  /** Every point of the triangles in the box of p. */
  ghost predicate HoldsPair(s: seq<PrimRef>, p: PrimRef, tri0: Corners, tri1: Option<Corners>) {
    forall v: Vec3, a: real, b: real, c: real :: OnPair(v, tri0, tri1, a, b, c) && In(v, p.bounds) ==> Holds(s, p, v)
  }

  ghost predicate HoldsQuad(s: seq<PrimRef>, p: PrimRef, q: Corners4) {
    forall v: Vec3, a: real, b: real, c: real :: OnQuad(v, q, a, b, c) && In(v, p.bounds) ==> Holds(s, p, v)
  }

  /** The parts that splitPrimitive makes at the planes of the grid. */
  ghost function PairParts(scene: Box, p: PrimRef, k: nat, tri0: Corners, tri1: Option<Corners>): seq<PrimRef>
    requires 1 <= k
  {
    SubPrims(PairSplitter(GridPlanes(scene), tri0, tri1), p, k)
  }

  ghost function QuadParts(scene: Box, p: PrimRef, k: nat, q: Corners4): seq<PrimRef>
    requires 1 <= k
  {
    SubPrims(QuadSplitter(GridPlanes(scene), q), p, k)
  }

  /** splitPrimitive for a triangle or a pair. */
  method SplitTriangles(scene: Box, prim: PrimRef, splitprims: nat, tri0: Corners, tri1: Option<Corners>) returns (parts: seq<PrimRef>)
    requires 1 <= splitprims && Proper(scene) && Subset(prim.bounds, scene) && Met(PairShape(tri0, tri1), prim.bounds)
    ensures parts == PairParts(scene, prim, splitprims, tri0, tri1) && 1 <= |parts| <= splitprims
    ensures forall x :: x in parts ==> PartOf(PairShape(tri0, tri1), scene, prim, x)
    ensures HoldsPair(parts, prim, tri0, tri1)
    decreases splitprims
  {
    hide Met, Subset, HoldsPair, PairBox, GridPlanes, PairShape, SubPrims, Morton.OnGrid, Morton.NewGrid, Morton.SameCoordinates,
      Morton.GridPlane, Proper;
    MetProper(PairShape(tri0, tri1), prim.bounds);
    GridPlanesAt(scene, prim);
    SubPrimsCases(PairSplitter(GridPlanes(scene), tri0, tri1), prim, splitprims);
    PairPartsHold(scene, prim, splitprims, tri0, tri1);
    parts := [prim];
    if splitprims == 1 {
      return;
    }
    var split := Morton.SplitPos(Morton.NewGrid(scene), prim.bounds);
    if split.None? {
      return;
    }
    var (dim, fsplit) := split.value;
    var left, right := SplitTrianglePair(prim.bounds, dim, fsplit, tri0, tri1);
    PairHalf(tri0, tri1, prim.bounds, dim, fsplit, true);
    PairHalf(tri0, tri1, prim.bounds, dim, fsplit, false);
    SubsetTrans(left, prim.bounds, scene);
    SubsetTrans(right, prim.bounds, scene);
    var parts_left := SplitTriangles(scene, PrimRef(left, prim.geomID, prim.primID), splitprims / 2, tri0, tri1);
    var parts_right := SplitTriangles(scene, PrimRef(right, prim.geomID, prim.primID), splitprims - splitprims / 2, tri0, tri1);
    parts := parts_left + parts_right;
  }

  /** Every part keeps the IDs. */
  ghost predicate KeepsIds(sp: Splitter) {
    forall p: PrimRef :: sp(p).Some? ==> IdOf(sp(p).value.0) == IdOf(p) && IdOf(sp(p).value.1) == IdOf(p)
  }

  lemma {:induction false} PartIds(sp: Splitter, p: PrimRef, k: nat)
    requires 1 <= k && KeepsIds(sp)
    ensures forall x :: x in SubPrims(sp, p, k) ==> IdOf(x) == IdOf(p)
    decreases k
  {
    if k != 1 && sp(p).Some? {
      PartIds(sp, sp(p).value.0, k / 2);
      PartIds(sp, sp(p).value.1, k - k / 2);
    }
  }

  lemma PairPartsHold(scene: Box, p: PrimRef, k: nat, tri0: Corners, tri1: Option<Corners>)
    requires 1 <= k
    ensures HoldsPair(PairParts(scene, p, k, tri0, tri1), p, tri0, tri1)
  {
    hide OnPair, In, SubPrims, PairBox, GridPlanes;
    var parts := PairParts(scene, p, k, tri0, tri1);
    PartIds(PairSplitter(GridPlanes(scene), tri0, tri1), p, k);
    forall v: Vec3, a: real, b: real, c: real | OnPair(v, tri0, tri1, a, b, c) && In(v, p.bounds)
      ensures Holds(parts, p, v)
    {
      var i := TrianglePartsCover(GridPlanes(scene), tri0, tri1, p, k, a, b, c, v);
      assert parts[i] in parts;
    }
  }

  // ----- quads

  /** splitPrimitive for a quad. */
  method SplitQuads(scene: Box, prim: PrimRef, splitprims: nat, q: Corners4) returns (parts: seq<PrimRef>)
    requires 1 <= splitprims && Proper(scene) && Subset(prim.bounds, scene) && Met(Outline(q.Outline()), prim.bounds)
    ensures parts == QuadParts(scene, prim, splitprims, q) && 1 <= |parts| <= splitprims
    ensures forall x :: x in parts ==> PartOf(Outline(q.Outline()), scene, prim, x)
    ensures HeldThroughout(GridPlanes(scene), q, prim, splitprims) ==> HoldsQuad(parts, prim, q)
    decreases splitprims
  {
    hide Met, Subset, HoldsQuad, GridPlanes, SubPrims, SideBox, Intersect, TightSide, Proper, HeldThroughout, Outline, Morton.OnGrid,
      Morton.NewGrid, Morton.SameCoordinates, Morton.GridPlane;
    var v := q.Outline();
    MetProper(Outline(v), prim.bounds);
    GridPlanesAt(scene, prim);
    SubPrimsCases(QuadSplitter(GridPlanes(scene), q), prim, splitprims);
    QuadPartsHold(scene, prim, splitprims, q);
    parts := [prim];
    if splitprims == 1 {
      return;
    }
    var split := Morton.SplitPos(Morton.NewGrid(scene), prim.bounds);
    if split.None? {
      return;
    }
    var (dim, fsplit) := split.value;
    var left, right := SplitQuad(prim.bounds, dim, fsplit, q);
    PolygonTight(v, dim, fsplit, true);
    PolygonTight(v, dim, fsplit, false);
    HalfMet(Outline(v), prim.bounds, dim, fsplit, true, SideBox(v, dim, fsplit, true));
    HalfMet(Outline(v), prim.bounds, dim, fsplit, false, SideBox(v, dim, fsplit, false));
    SubsetTrans(left, prim.bounds, scene);
    SubsetTrans(right, prim.bounds, scene);
    var parts_left := SplitQuads(scene, PrimRef(left, prim.geomID, prim.primID), splitprims / 2, q);
    var parts_right := SplitQuads(scene, PrimRef(right, prim.geomID, prim.primID), splitprims - splitprims / 2, q);
    parts := parts_left + parts_right;
  }

  lemma QuadPartsHold(scene: Box, p: PrimRef, k: nat, q: Corners4)
    requires 1 <= k
    ensures HeldThroughout(GridPlanes(scene), q, p, k) ==> HoldsQuad(QuadParts(scene, p, k, q), p, q)
  {
    hide OnQuad, In, SubPrims, QuadBox, GridPlanes, HeldThroughout;
    var parts := QuadParts(scene, p, k, q);
    PartIds(QuadSplitter(GridPlanes(scene), q), p, k);
    if HeldThroughout(GridPlanes(scene), q, p, k) {
      forall v: Vec3, a: real, b: real, c: real | OnQuad(v, q, a, b, c) && In(v, p.bounds)
        ensures Holds(parts, p, v)
      {
        var i := QuadPartsCover(GridPlanes(scene), q, p, k, a, b, c, v);
        assert parts[i] in parts;
      }
    }
  }

  // ----- all references of a scene

  /** The corners of triangles, pairs and quads and the hierarchies behind
      instances, by ID. */
  datatype Shapes = Shapes(typeOf: nat -> PType, tri: Id -> (Corners, Option<Corners>), quad: Id -> Corners4, inst: nat -> Instanced)

  /** Cuts each reference by its own corners. */
  function Cutter(sh: Shapes, planes: Planes): Splitter {
    (p: PrimRef) =>
      match sh.typeOf(p.geomID)
      case Triangle => PairSplitter(planes, sh.tri(IdOf(p)).0, sh.tri(IdOf(p)).1)(p)
      case Quad => QuadSplitter(planes, sh.quad(IdOf(p)))(p)
      case _ => None
  }

  /** Parts keep their IDs, so all are cut by the same corners. */
  lemma {:induction false} CutPair(sh: Shapes, planes: Planes, p: PrimRef, k: nat)
    requires 1 <= k && sh.typeOf(p.geomID) == Triangle
    ensures SubPrims(Cutter(sh, planes), p, k) == SubPrims(PairSplitter(planes, sh.tri(IdOf(p)).0, sh.tri(IdOf(p)).1), p, k)
    decreases k
  {
    hide PairBox, SubPrims;
    var sp := Cutter(sh, planes);
    SubPrimsCases(sp, p, k);
    SubPrimsCases(PairSplitter(planes, sh.tri(IdOf(p)).0, sh.tri(IdOf(p)).1), p, k);
    if k != 1 && sp(p).Some? {
      var (l, r) := sp(p).value;
      assert IdOf(l) == IdOf(p) && IdOf(r) == IdOf(p);
      CutPair(sh, planes, l, k / 2);
      CutPair(sh, planes, r, k - k / 2);
    }
  }

  lemma {:induction false} CutQuad(sh: Shapes, planes: Planes, p: PrimRef, k: nat)
    requires 1 <= k && sh.typeOf(p.geomID) == Quad
    ensures SubPrims(Cutter(sh, planes), p, k) == SubPrims(QuadSplitter(planes, sh.quad(IdOf(p))), p, k)
    decreases k
  {
    hide QuadBox, SubPrims;
    var sp := Cutter(sh, planes);
    SubPrimsCases(sp, p, k);
    SubPrimsCases(QuadSplitter(planes, sh.quad(IdOf(p))), p, k);
    if k != 1 && sp(p).Some? {
      var (l, r) := sp(p).value;
      assert IdOf(l) == IdOf(p) && IdOf(r) == IdOf(p);
      CutQuad(sh, planes, l, k / 2);
      CutQuad(sh, planes, r, k - k / 2);
    }
  }

  /** The parts of a reference: an instance is opened, another is cut. */
  ghost predicate SplitAs(sh: Shapes, scene: Box, p: PrimRef, k: nat, parts: seq<PrimRef>)
    requires 1 <= k
  {
    if sh.typeOf(p.geomID) == Instance then Opens(sh.inst(p.geomID), p, k, parts)
    else parts == SubPrims(Cutter(sh, GridPlanes(scene)), p, k)
  }

  ghost predicate SplitsScene(sh: Shapes, scene: Box, split: Split) {
    forall p: PrimRef, k: nat :: 1 <= k <= MAX_SPLITS ==> SplitAs(sh, scene, p, k, split(p, k))
  }

  /** The hierarchies of all instances are stored. */
  ghost predicate Stored(sh: Shapes) {
    forall g: nat :: sh.typeOf(g) == Instance ==> Encodes(sh.inst(g).mem, sh.inst(g).masks, sh.inst(g).t)
  }

  lemma PartsExist(sh: Shapes, scene: Box, p: PrimRef, k: nat)
    requires 1 <= k && Stored(sh)
    ensures exists parts: seq<PrimRef> :: SplitAs(sh, scene, p, k, parts)
  {
    hide Encodes, Opens, GridPlanes;
    if sh.typeOf(p.geomID) == Instance {
      OpenedParts.OpeningExists(sh.inst(p.geomID), p, k);
      var parts: seq<PrimRef> :| Opens(sh.inst(p.geomID), p, k, parts);
      assert SplitAs(sh, scene, p, k, parts);
    } else {
      assert SplitAs(sh, scene, p, k, SubPrims(Cutter(sh, GridPlanes(scene)), p, k));
    }
  }

  ghost function SomeParts(sh: Shapes, scene: Box, p: PrimRef, k: nat): (parts: seq<PrimRef>)
    requires 1 <= k && Stored(sh)
    ensures SplitAs(sh, scene, p, k, parts)
  {
    PartsExist(sh, scene, p, k);
    var parts: seq<PrimRef> :| SplitAs(sh, scene, p, k, parts);
    parts
  }

  /** Any scene of stored instances can be split. */
  lemma SplitExists(sh: Shapes, scene: Box)
    requires Stored(sh)
    ensures exists split: Split :: SplitsScene(sh, scene, split)
  {
    hide SplitAs;
    var split: Split := (p: PrimRef, k: nat) => if 1 <= k && Stored(sh) then SomeParts(sh, scene, p, k) else [];
    assert SplitsScene(sh, scene, split);
  }

  /** A generated reference: it has the box of its corners and lies in the scene. */
  ghost predicate Generated(sh: Shapes, scene: Box, p: PrimRef) {
    && Proper(p.bounds) && Subset(p.bounds, scene)
    && match sh.typeOf(p.geomID)
       case Triangle => p.bounds == PairBounds(sh.tri(IdOf(p)).0, sh.tri(IdOf(p)).1)
       case Quad => p.bounds == BoxOf(sh.quad(IdOf(p)).Outline())
       case _ => true
  }

  /** splitter1 of the builder; procedurals are never asked to be split. */
  method SplitReference(sh: Shapes, scene: Box, prim: PrimRef, splitprims: nat, accel: array<Block>) returns (parts: seq<PrimRef>)
    requires 1 <= splitprims <= MAX_SPLITS && Proper(scene) && Generated(sh, scene, prim)
    requires sh.typeOf(prim.geomID) == Procedural ==> splitprims == 1
    requires sh.typeOf(prim.geomID) == Instance ==>
               var x := sh.inst(prim.geomID); accel[..] == x.mem && Encodes(x.mem, x.masks, x.t)
    ensures SplitAs(sh, scene, prim, splitprims, parts)
  {
    hide Encodes, Opens, Met, PairShape, Outline, BoxOf, Subset, Proper, GridPlanes, SubPrims, HoldsPair, HoldsQuad, HeldThroughout,
      PairBounds;
    match sh.typeOf(prim.geomID) {
      case Instance =>
        var x := sh.inst(prim.geomID);
        parts := OpenReference(accel, prim, x.t.addr, splitprims, x.local2world, x.masks, x.t);
      case Triangle =>
        var (tri0, tri1) := sh.tri(IdOf(prim));
        PairMet(tri0, tri1);
        parts := SplitTriangles(scene, prim, splitprims, tri0, tri1);
        CutPair(sh, GridPlanes(scene), prim, splitprims);
      case Quad =>
        var q := sh.quad(IdOf(prim));
        PolygonMet(q.Outline());
        parts := SplitQuads(scene, prim, splitprims, q);
        CutQuad(sh, GridPlanes(scene), prim, splitprims);
      case Procedural =>
        parts := [prim];
        SubPrimsCases(Cutter(sh, GridPlanes(scene)), prim, 1);
    }
  }

  /** Cutting and opening make between one and 32 parts of a reference. */
  lemma SplitBounded(sh: Shapes, scene: Box, split: Split)
    requires SplitsScene(sh, scene, split)
    ensures Bounded(split)
  {
    hide Opens, GridPlanes;
    forall p: PrimRef, k: nat | 1 <= k <= MAX_SPLITS
      ensures 1 <= |split(p, k)| <= MAX_SPLITS
    {
      assert SplitAs(sh, scene, p, k, split(p, k));
      if sh.typeOf(p.geomID) == Instance {
        OpenedParts.OpenedProper(sh.inst(p.geomID), p, k, split(p, k));
      }
    }
  }

  /** No part of a generated reference is empty, and all keep its geometry. */
  lemma PartsProper(sh: Shapes, scene: Box, p: PrimRef, k: nat, parts: seq<PrimRef>)
    requires 1 <= k && Proper(scene) && Generated(sh, scene, p) && SplitAs(sh, scene, p, k, parts)
    ensures forall x :: x in parts ==> Proper(x.bounds) && x.geomID == p.geomID
  {
    hide Opens, Proper, Subset, SubPrims, GridPlanes, PairBounds, BoxOf, PlanesInside;
    GridPlanesInside(scene);
    match sh.typeOf(p.geomID)
    case Instance => OpenedParts.OpenedProper(sh.inst(p.geomID), p, k, parts);
    case Triangle =>
      CutPair(sh, GridPlanes(scene), p, k);
      PairPartsProper(GridPlanes(scene), sh.tri(IdOf(p)).0, sh.tri(IdOf(p)).1, scene, p, k);
    case Quad =>
      CutQuad(sh, GridPlanes(scene), p, k);
      QuadPartsProper(GridPlanes(scene), sh.quad(IdOf(p)), scene, p, k);
    case Procedural => SubPrimsCases(Cutter(sh, GridPlanes(scene)), p, k);
  }
}
