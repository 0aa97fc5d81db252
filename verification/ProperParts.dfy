/** Splitting never makes an empty part: both halves of every split hold points
    of the outline, at any depth of the recursion
    (rtbuild/builders/primrefgen_presplit.h:143-178 and
    rtbuild/builders/splitter.h:13-45). */
module ProperParts {
  import opened Common
  import opened Geometry
  import opened Bvh
  import opened Clipping
  import Presplit

  // ----- outlines

  function Along(a: Vec3, b: Vec3, t: real): Vec3 {
    Vec3(Lerp(a.x, b.x, t), Lerp(a.y, b.y, t), Lerp(a.z, b.z, t))
  }

  predicate OnEdge(x: Vec3, v: seq<Vec3>, i: nat, t: real) {
    i + 1 < |v| && 0.0 <= t <= 1.0 && x == Along(v[i], v[i + 1], t)
  }

  ghost predicate OnOutline(x: Vec3, v: seq<Vec3>) {
    exists i: nat, t: real :: OnEdge(x, v, i, t)
  }

  /** The points of the outlines of polygons. */
  type Shape = Vec3 -> bool

  ghost function Outline(v: seq<Vec3>): Shape {
    x => OnOutline(x, v)
  }

  ghost function Both(on: Shape, on1: Shape): Shape {
    x => on(x) || on1(x)
  }

  // ----- boxes that the shape reaches

  /** Some point of the shape is on or beyond face (d, up) of the box, and not
      beyond face (e, up1). */
  ghost predicate FaceMet(on: Shape, b: Box, d: nat, up: bool, e: nat, up1: bool)
    requires b.Box?
  {
    exists x :: on(x) && Bound(b, d, up) <= Toward(x, d, up) && Toward(x, e, up1) <= Bound(b, e, up1)
  }

  ghost predicate Met(on: Shape, b: Box) {
    Proper(b) && forall d: nat, up: bool, e: nat, up1: bool :: d < 3 && e < 3 ==> FaceMet(on, b, d, up, e, up1)
  }

  /** The box is the smallest one around the points of the shape on the side. */
  ghost predicate TightSide(on: Shape, sb: Box, d: nat, pos: real, left: bool) {
    && (forall x :: on(x) && Height(x, d, pos, left) <= 0.0 ==> In(x, sb))
    && (sb.Box? ==> forall e: nat, up: bool :: e < 3 ==> Attained(on, sb, d, pos, left, e, up))
  }

  ghost predicate Attained(on: Shape, sb: Box, d: nat, pos: real, left: bool, e: nat, up: bool)
    requires sb.Box?
  {
    exists x :: on(x) && Height(x, d, pos, left) <= 0.0 && Toward(x, e, up) == Bound(sb, e, up)
  }

  lemma IntersectBound(a: Box, b: Box, e: nat, up: bool)
    requires a.Box? && b.Box? && e < 3
    ensures Bound(Intersect(a, b), e, up) == MinR(Bound(a, e, up), Bound(b, e, up))
  {
  }

  lemma ProperIf(b: Box)
    requires b.Box? && forall e: nat :: e < 3 ==> -Bound(b, e, false) <= Bound(b, e, true)
    ensures Proper(b)
  {
    assert -Bound(b, 0, false) <= Bound(b, 0, true);
    assert -Bound(b, 1, false) <= Bound(b, 1, true);
    assert -Bound(b, 2, false) <= Bound(b, 2, true);
  }

  lemma ProperBounds(b: Box, e: nat)
    requires Proper(b)
    ensures -Bound(b, e, false) <= Bound(b, e, true)
  {
  }

  /** A point of the shape on the side that is not beyond face (e, up). */
  lemma PointOfSide(on: Shape, b: Box, d: nat, pos: real, left: bool, sb: Box, e: nat, up: bool) returns (x: Vec3)
    requires Met(on, b) && d < 3 && Axis(b.lo, d) <= pos <= Axis(b.hi, d) && TightSide(on, sb, d, pos, left) && e < 3
    ensures on(x) && In(x, sb) && Toward(x, e, up) <= Bound(b, e, up)
  {
    assert FaceMet(on, b, d, !left, e, up);
    x :| on(x) && Bound(b, d, !left) <= Toward(x, d, !left) && Toward(x, e, up) <= Bound(b, e, up);
    assert Height(x, d, pos, left) <= 0.0;
  }

  /** A plane through such a box leaves a box with points on either side, which
      the shape reaches again. */
  lemma HalfMet(on: Shape, b: Box, d: nat, pos: real, left: bool, sb: Box)
    requires Met(on, b) && d < 3 && Axis(b.lo, d) <= pos <= Axis(b.hi, d) && TightSide(on, sb, d, pos, left)
    ensures Met(on, Intersect(sb, b)) && Subset(Intersect(sb, b), b)
  {
    hide In, Toward, Bound, Intersect, Height;
    var x0 := PointOfSide(on, b, d, pos, left, sb, 0, true);
    InBox(x0, sb);
    var h := Intersect(sb, b);
    IntersectBox(sb, b);
    forall e: nat | e < 3
      ensures -Bound(h, e, false) <= Bound(h, e, true)
    {
      HalfProper(on, b, d, pos, left, sb, e);
    }
    ProperIf(h);
    forall f: nat, up: bool, e: nat, up1: bool | f < 3 && e < 3
      ensures FaceMet(on, h, f, up, e, up1)
    {
      HalfFaceMet(on, b, d, pos, left, sb, f, up, e, up1);
    }
  }

  lemma InBox(x: Vec3, b: Box)
    requires In(x, b)
    ensures b.Box?
  {
  }

  lemma IntersectBox(a: Box, b: Box)
    requires a.Box? && b.Box?
    ensures Intersect(a, b).Box? && Subset(Intersect(a, b), b)
  {
  }

  lemma HalfProper(on: Shape, b: Box, d: nat, pos: real, left: bool, sb: Box, e: nat)
    requires Met(on, b) && d < 3 && Axis(b.lo, d) <= pos <= Axis(b.hi, d) && TightSide(on, sb, d, pos, left)
    requires e < 3 && sb.Box? && Intersect(sb, b).Box?
    ensures -Bound(Intersect(sb, b), e, false) <= Bound(Intersect(sb, b), e, true)
  {
    hide In, Bound, Intersect, Height, Met, TightSide;
    var x := PointOfSide(on, b, d, pos, left, sb, e, true);
    var y := PointOfSide(on, b, d, pos, left, sb, e, false);
    InBound(x, sb, e, false);
    InBound(x, sb, e, true);
    InBound(y, sb, e, true);
    MetProper(on, b);
    ProperBounds(b, e);
    IntersectBound(sb, b, e, false);
    IntersectBound(sb, b, e, true);
  }

  lemma MetProper(on: Shape, b: Box)
    requires Met(on, b)
    ensures Proper(b)
  {
  }

  lemma HalfFaceMet(on: Shape, b: Box, d: nat, pos: real, left: bool, sb: Box, f: nat, up: bool, e: nat, up1: bool)
    requires Met(on, b) && TightSide(on, sb, d, pos, left) && sb.Box? && Intersect(sb, b).Box? && f < 3 && e < 3
    ensures FaceMet(on, Intersect(sb, b), f, up, e, up1)
  {
    hide In, Toward, Bound, Intersect, Height;
    IntersectBound(sb, b, f, up);
    IntersectBound(sb, b, e, up1);
    if Bound(b, e, up1) <= Bound(sb, e, up1) {
      assert FaceMet(on, b, f, up, e, up1);
      var x :| on(x) && Bound(b, f, up) <= Toward(x, f, up) && Toward(x, e, up1) <= Bound(b, e, up1);
      assert Bound(Intersect(sb, b), f, up) <= Toward(x, f, up);
    } else {
      assert Attained(on, sb, d, pos, left, f, up);
      var x :| on(x) && Height(x, d, pos, left) <= 0.0 && Toward(x, f, up) == Bound(sb, f, up);
      InBound(x, sb, e, up1);
      assert Bound(Intersect(sb, b), f, up) <= Toward(x, f, up);
    }
  }

  // ----- one polygon

  predicate Closed(v: seq<Vec3>) {
    2 <= |v| && v[0] == v[|v| - 1]
  }

  lemma {:induction false} EdgeIncluded(v: seq<Vec3>, d: nat, pos: real, left: bool, i: nat)
    requires i + 1 < |v|
    ensures forall y :: y in EdgePoints(v[i], v[i + 1], d, pos, left) ==> y in SidePoints(v, d, pos, left)
  {
    hide EdgePoints;
    if i + 2 < |v| {
      EdgeIncluded(v[..|v| - 1], d, pos, left, i);
    }
  }

  lemma {:induction false} EdgeOfPoint(v: seq<Vec3>, d: nat, pos: real, left: bool, y: Vec3) returns (i: nat)
    requires y in SidePoints(v, d, pos, left)
    ensures i + 1 < |v| && y in EdgePoints(v[i], v[i + 1], d, pos, left)
  {
    hide EdgePoints;
    var n := |v| - 1;
    if y in EdgePoints(v[n - 1], v[n], d, pos, left) {
      i := n - 1;
    } else {
      i := EdgeOfPoint(v[..n], d, pos, left, y);
    }
  }

  lemma InBoxOf(ps: seq<Vec3>, y: Vec3)
    requires y in ps
    ensures In(y, BoxOf(ps))
  {
    var i: nat :| i < |ps| && ps[i] == y;
    BoxOfContains(ps, i);
  }

  /** Corners of the side and crossings are points of the outline on the side. */
  lemma SidePointOn(v: seq<Vec3>, d: nat, pos: real, left: bool, y: Vec3)
    requires y in SidePoints(v, d, pos, left)
    ensures OnOutline(y, v) && Height(y, d, pos, left) <= 0.0
  {
    hide SidePoints, Crosses, CrossPoint;
    var i := EdgeOfPoint(v, d, pos, left, y);
    var a, b := v[i], v[i + 1];
    if Crosses(a, b, d, pos) && y == CrossPoint(a, b, d, pos) {
      var t := CrossOn(a, b, d, pos);
      assert OnEdge(y, v, i, t);
    } else {
      AlongStart(a, b);
      assert OnEdge(y, v, i, 0.0);
    }
  }

  lemma AlongStart(a: Vec3, b: Vec3)
    ensures Along(a, b, 0.0) == a && Along(a, b, 1.0) == b
  {
  }

  lemma CrossOn(a: Vec3, b: Vec3, d: nat, pos: real) returns (t: real)
    requires Crosses(a, b, d, pos)
    ensures 0.0 <= t <= 1.0 && CrossPoint(a, b, d, pos) == Along(a, b, t) && Axis(CrossPoint(a, b, d, pos), d) == pos
  {
    hide Lerp, CrossAt, Axis;
    t := CrossAt(Axis(a, d), Axis(b, d), pos);
    CrossAtSum(Axis(a, d), Axis(b, d), pos);
    CrossInTriangle(a, a, b, d, pos);
  }

  /** A box that holds the part of an edge on the side. */
  lemma SegmentHeld(box: Box, a: Vec3, b: Vec3, d: nat, pos: real, left: bool, t: real, x: Vec3)
    requires HoldsEdge(box, a, b, d, pos, left) && (Height(b, d, pos, left) <= 0.0 ==> In(b, box))
    requires 0.0 <= t <= 1.0 && x == Along(a, b, t) && Height(x, d, pos, left) <= 0.0
    ensures In(x, box)
  {
    hide HoldsEdge, Height, Along;
    AsTriangle(a, b, t, x);
    SegmentBox(box, a, b, d, pos, left, t, x);
    forall e: nat, upper: bool | e < 3
      ensures Toward(x, e, upper) <= Bound(box, e, upper)
    {
      SegmentCoordinate(box, a, b, d, pos, left, t, x, e, upper);
    }
    assert Toward(x, 0, true) <= Bound(box, 0, true) && Toward(x, 0, false) <= Bound(box, 0, false);
    assert Toward(x, 1, true) <= Bound(box, 1, true) && Toward(x, 1, false) <= Bound(box, 1, false);
    assert Toward(x, 2, true) <= Bound(box, 2, true) && Toward(x, 2, false) <= Bound(box, 2, false);
  }

  /** A point of a segment as a point of a flat triangle. */
  lemma AsTriangle(a: Vec3, b: Vec3, t: real, x: Vec3)
    requires 0.0 <= t <= 1.0 && x == Along(a, b, t)
    ensures InTriangle(x, a, b, a, 1.0 - t, t, 0.0)
  {
    LerpBlend(a.x, b.x, t);
    LerpBlend(a.y, b.y, t);
    LerpBlend(a.z, b.z, t);
  }

  lemma LerpBlend(a: real, b: real, t: real)
    ensures Lerp(a, b, t) == Times(1.0 - t, a) + Times(t, b) + Times(0.0, a)
  {
  }

  lemma SegmentBox(box: Box, a: Vec3, b: Vec3, d: nat, pos: real, left: bool, t: real, x: Vec3)
    requires HoldsEdge(box, a, b, d, pos, left) && (Height(b, d, pos, left) <= 0.0 ==> In(b, box))
    requires InTriangle(x, a, b, a, 1.0 - t, t, 0.0) && Height(x, d, pos, left) <= 0.0
    ensures box.Box?
  {
    hide Blend, Height, Crosses, CrossPoint;
    BlendHeight(x, a, b, a, 1.0 - t, t, 0.0, d, pos, left);
    if Height(a, d, pos, left) > 0.0 && Height(b, d, pos, left) > 0.0 {
      PositiveBlend(1.0 - t, t, 0.0, Height(a, d, pos, left), Height(b, d, pos, left), Height(a, d, pos, left));
    }
  }

  lemma SegmentCoordinate(box: Box, a: Vec3, b: Vec3, d: nat, pos: real, left: bool, t: real, x: Vec3, e: nat, upper: bool)
    requires box.Box? && HoldsEdge(box, a, b, d, pos, left) && (Height(b, d, pos, left) <= 0.0 ==> In(b, box))
    requires InTriangle(x, a, b, a, 1.0 - t, t, 0.0) && Height(x, d, pos, left) <= 0.0 && e < 3
    ensures Toward(x, e, upper) <= Bound(box, e, upper)
  {
    hide HoldsEdge, UnderLine, Weights, Toward, Height, Bound, Blend, Times, In;
    EdgeBelow(box, a, b, d, pos, left, e, upper);
    if Height(b, d, pos, left) <= 0.0 {
      InBound(b, box, e, upper);
    }
    var ae, be := Toward(a, e, upper), Toward(b, e, upper);
    var ah, bh := Height(a, d, pos, left), Height(b, d, pos, left);
    var m := CommonLine(ae, ah, be, bh, ae, ah, Bound(box, e, upper));
    BlendToward(x, a, b, a, 1.0 - t, t, 0.0, e, upper);
    BlendHeight(x, a, b, a, 1.0 - t, t, 0.0, d, pos, left);
    BlendUnder(1.0 - t, t, 0.0, ae, ah, be, bh, ae, ah, Bound(box, e, upper), m);
  }

  lemma PolygonHolds(v: seq<Vec3>, d: nat, pos: real, left: bool, i: nat)
    requires i + 1 < |v|
    ensures HoldsEdge(SideBox(v, d, pos, left), v[i], v[i + 1], d, pos, left)
  {
    hide SidePoints, BoxOf, CrossPoint, In;
    EdgeIncluded(v, d, pos, left, i);
    var es := EdgePoints(v[i], v[i + 1], d, pos, left);
    forall y | y in es
      ensures In(y, SideBox(v, d, pos, left))
    {
      InBoxOf(SidePoints(v, d, pos, left), y);
    }
    assert Height(v[i], d, pos, left) <= 0.0 ==> es[0] == v[i];
    assert Crosses(v[i], v[i + 1], d, pos) ==> es[|es| - 1] == CrossPoint(v[i], v[i + 1], d, pos);
  }

  /** The box that splitPolygon computes for a side is the smallest one. */
  lemma PolygonTight(v: seq<Vec3>, d: nat, pos: real, left: bool)
    requires Closed(v)
    ensures TightSide(Outline(v), SideBox(v, d, pos, left), d, pos, left)
  {
    hide SidePoints, BoxOf, Height, In, Toward, Bound, OnOutline, HoldsEdge;
    var sb := SideBox(v, d, pos, left);
    forall x | OnOutline(x, v) && Height(x, d, pos, left) <= 0.0
      ensures In(x, sb)
    {
      OutlineHeld(v, d, pos, left, x);
    }
    if sb.Box? {
      NotNone(SidePoints(v, d, pos, left));
      forall e: nat, up: bool | e < 3
        ensures Attained(Outline(v), sb, d, pos, left, e, up)
      {
        var y := BoxOfAttained(SidePoints(v, d, pos, left), e, up);
        SidePointOn(v, d, pos, left, y);
        assert Outline(v)(y);
      }
    }
  }

  lemma NotNone(ps: seq<Vec3>)
    requires BoxOf(ps).Box?
    ensures ps != []
  {
  }

  lemma OutlineHeld(v: seq<Vec3>, d: nat, pos: real, left: bool, x: Vec3)
    requires Closed(v) && OnOutline(x, v) && Height(x, d, pos, left) <= 0.0
    ensures In(x, SideBox(v, d, pos, left))
  {
    hide SideBox, Height, In, Along, Crosses, CrossPoint;
    var i: nat, t :| OnEdge(x, v, i, t);
    PolygonHolds(v, d, pos, left, i);
    PolygonHolds(v, d, pos, left, if i + 2 < |v| then i + 1 else 0);
    SegmentHeld(SideBox(v, d, pos, left), v[i], v[i + 1], d, pos, left, t, x);
  }

  /** The box of a polygon is reached by its outline. */
  lemma PolygonMet(v: seq<Vec3>)
    requires Closed(v)
    ensures Met(Outline(v), BoxOf(v))
  {
    hide BoxOf, Toward, Bound, In, OnOutline;
    InBoxOf(v, v[0]);
    ProperAround(v[0], BoxOf(v));
    forall d: nat, up: bool, e: nat, up1: bool | d < 3 && e < 3
      ensures BoxOf(v).Box? && FaceMet(Outline(v), BoxOf(v), d, up, e, up1)
    {
      var y := BoxOfAttained(v, d, up);
      InBoxOf(v, y);
      InBound(y, BoxOf(v), e, up1);
      CornerOn(v, y);
      assert Outline(v)(y);
    }
  }

  lemma ProperAround(x: Vec3, b: Box)
    requires In(x, b)
    ensures Proper(b)
  {
  }

  lemma CornerOn(v: seq<Vec3>, y: Vec3)
    requires Closed(v) && y in v
    ensures OnOutline(y, v)
  {
    var i: nat :| i < |v| && v[i] == y;
    if i + 1 < |v| {
      AlongStart(v[i], v[i + 1]);
      assert OnEdge(y, v, i, 0.0);
    } else {
      AlongStart(v[i - 1], v[i]);
      assert OnEdge(y, v, i - 1, 1.0);
    }
  }

  // ----- two polygons

  lemma TightBoth(on: Shape, on1: Shape, sb: Box, sb1: Box, d: nat, pos: real, left: bool)
    requires TightSide(on, sb, d, pos, left) && TightSide(on1, sb1, d, pos, left)
    ensures TightSide(Both(on, on1), Extend(sb, sb1), d, pos, left)
  {
    hide Height, In, Toward, Bound, Extend;
    var both, sb2 := Both(on, on1), Extend(sb, sb1);
    forall x | both(x) && Height(x, d, pos, left) <= 0.0
      ensures In(x, sb2)
    {
      InExtend(x, sb, sb1);
    }
    if sb2.Box? {
      forall e: nat, up: bool | e < 3
        ensures Attained(both, sb2, d, pos, left, e, up)
      {
        var first := EitherBound(sb, sb1, e, up);
        if first {
          assert Attained(on, sb, d, pos, left, e, up);
          var x :| on(x) && Height(x, d, pos, left) <= 0.0 && Toward(x, e, up) == Bound(sb, e, up);
          assert both(x);
        } else {
          assert Attained(on1, sb1, d, pos, left, e, up);
          var x :| on1(x) && Height(x, d, pos, left) <= 0.0 && Toward(x, e, up) == Bound(sb1, e, up);
          assert both(x);
        }
      }
    }
  }

  /** A face of the union is a face of one of the boxes. */
  lemma EitherBound(a: Box, b: Box, e: nat, up: bool) returns (first: bool)
    requires Extend(a, b).Box? && e < 3
    ensures first ==> a.Box? && Bound(Extend(a, b), e, up) == Bound(a, e, up)
    ensures !first ==> b.Box? && Bound(Extend(a, b), e, up) == Bound(b, e, up)
  {
    first := b.Empty? || (a.Box? && Bound(b, e, up) <= Bound(a, e, up));
  }

  lemma WiderBound(a: Box, b: Box, e: nat, up: bool)
    requires a.Box? && b.Box? && e < 3
    ensures Bound(a, e, up) <= Bound(Extend(a, b), e, up) && Bound(b, e, up) <= Bound(Extend(a, b), e, up)
  {
  }

  lemma MetBoth(on: Shape, on1: Shape, b: Box, b1: Box)
    requires Met(on, b) && Met(on1, b1)
    ensures Met(Both(on, on1), Extend(b, b1))
  {
    hide Toward, Bound, Extend, Proper;
    var both, b2 := Both(on, on1), Extend(b, b1);
    BoxesExtend(b, b1);
    forall d: nat, up: bool, e: nat, up1: bool | d < 3 && e < 3
      ensures FaceMet(both, b2, d, up, e, up1)
    {
      var first := EitherBound(b, b1, d, up);
      WiderBound(b, b1, e, up1);
      if first {
        assert FaceMet(on, b, d, up, e, up1);
        var x :| on(x) && Bound(b, d, up) <= Toward(x, d, up) && Toward(x, e, up1) <= Bound(b, e, up1);
        assert both(x);
      } else {
        assert FaceMet(on1, b1, d, up, e, up1);
        var x :| on1(x) && Bound(b1, d, up) <= Toward(x, d, up) && Toward(x, e, up1) <= Bound(b1, e, up1);
        assert both(x);
      }
    }
  }

  lemma BoxesExtend(a: Box, b: Box)
    requires Proper(a) && Proper(b)
    ensures a.Box? && b.Box? && Proper(Extend(a, b)) && Extend(a, b).Box?
  {
    ExtendCovers(a, b);
  }

  /** Cutting both boxes by the bounds and joining them is cutting the union. */
  lemma CutUnion(a: Box, b: Box, c: Box)
    requires c.Box?
    ensures Extend(Intersect(a, c), Intersect(b, c)) == Intersect(Extend(a, b), c)
  {
    if a.Box? && b.Box? {
      MinMax(a.lo.x, b.lo.x, c.lo.x);
      MinMax(a.lo.y, b.lo.y, c.lo.y);
      MinMax(a.lo.z, b.lo.z, c.lo.z);
      MinMax(a.hi.x, b.hi.x, c.hi.x);
      MinMax(a.hi.y, b.hi.y, c.hi.y);
      MinMax(a.hi.z, b.hi.z, c.hi.z);
    }
  }

  lemma MinMax(x: real, y: real, z: real)
    ensures MinR(MaxR(x, z), MaxR(y, z)) == MaxR(MinR(x, y), z)
    ensures MaxR(MinR(x, z), MinR(y, z)) == MinR(MaxR(x, y), z)
  {
  }

  // ----- the recursion

  /** Planes pass through the boxes they are chosen for. */
  ghost predicate PlanesInside(planes: Planes, scene: Box) {
    forall p: PrimRef :: planes(p).Some? && Proper(p.bounds) && Subset(p.bounds, scene) ==>
      var (d, pos) := planes(p).value; d < 3 && Axis(p.bounds.lo, d) <= pos <= Axis(p.bounds.hi, d)
  }

  /** A part of the reference that the shape reaches. */
  ghost predicate PartOf(on: Shape, scene: Box, p: PrimRef, part: PrimRef) {
    Met(on, part.bounds) && Subset(part.bounds, scene) && part.geomID == p.geomID && part.primID == p.primID
  }

  ghost predicate SplitsWell(sp: Presplit.Splitter, on: Shape, scene: Box) {
    forall p: PrimRef :: sp(p).Some? && Met(on, p.bounds) && Subset(p.bounds, scene) ==>
      PartOf(on, scene, p, sp(p).value.0) && PartOf(on, scene, p, sp(p).value.1)
  }

  lemma {:induction false} PartsMet(sp: Presplit.Splitter, on: Shape, scene: Box, p: PrimRef, k: nat)
    requires 1 <= k && SplitsWell(sp, on, scene) && Met(on, p.bounds) && Subset(p.bounds, scene)
    ensures forall x :: x in Presplit.SubPrims(sp, p, k) ==> PartOf(on, scene, p, x)
    decreases k
  {
    hide Met, Subset;
    if k != 1 && sp(p).Some? {
      var (l, r) := sp(p).value;
      assert PartOf(on, scene, p, l) && PartOf(on, scene, p, r);
      PartsMet(sp, on, scene, l, k / 2);
      PartsMet(sp, on, scene, r, k - k / 2);
    }
  }

  function TriangleOutline(t: Corners): seq<Vec3> {
    [t.p, t.q, t.r, t.p]
  }

  ghost function PairShape(tri0: Corners, tri1: Option<Corners>): Shape {
    if tri1.Some? then Both(Outline(TriangleOutline(tri0)), Outline(TriangleOutline(tri1.value))) else Outline(TriangleOutline(tri0))
  }

  /** The box of a triangle or a pair. */
  function PairBounds(tri0: Corners, tri1: Option<Corners>): Box {
    var b := BoxOf(TriangleOutline(tri0));
    if tri1.Some? then Extend(b, BoxOf(TriangleOutline(tri1.value))) else b
  }

  /** The box of a triangle or a pair is reached by its outline. */
  lemma PairMet(tri0: Corners, tri1: Option<Corners>)
    ensures Met(PairShape(tri0, tri1), PairBounds(tri0, tri1))
  {
    hide Met, BoxOf, Extend;
    PolygonMet(TriangleOutline(tri0));
    if tri1.Some? {
      PolygonMet(TriangleOutline(tri1.value));
      MetBoth(Outline(TriangleOutline(tri0)), Outline(TriangleOutline(tri1.value)), BoxOf(TriangleOutline(tri0)), BoxOf(TriangleOutline(tri1.value)));
    }
  }

  lemma PairHalf(tri0: Corners, tri1: Option<Corners>, b: Box, d: nat, pos: real, left: bool)
    requires Met(PairShape(tri0, tri1), b) && d < 3 && Axis(b.lo, d) <= pos <= Axis(b.hi, d)
    ensures Met(PairShape(tri0, tri1), PairBox(b, d, pos, tri0, tri1, left)) && Subset(PairBox(b, d, pos, tri0, tri1, left), b)
  {
    hide Met, SideBox, Intersect, Extend, TightSide, Subset;
    var v := TriangleOutline(tri0);
    MetProper(PairShape(tri0, tri1), b);
    PolygonTight(v, d, pos, left);
    if tri1.Some? {
      var w := TriangleOutline(tri1.value);
      PolygonTight(w, d, pos, left);
      TightBoth(Outline(v), Outline(w), SideBox(v, d, pos, left), SideBox(w, d, pos, left), d, pos, left);
      CutUnion(SideBox(v, d, pos, left), SideBox(w, d, pos, left), b);
      HalfMet(PairShape(tri0, tri1), b, d, pos, left, Extend(SideBox(v, d, pos, left), SideBox(w, d, pos, left)));
    } else {
      HalfMet(PairShape(tri0, tri1), b, d, pos, left, SideBox(v, d, pos, left));
    }
  }

  /** No part of a triangle or a pair is empty, at whatever planes through the
      boxes it is split; all stay within the scene and keep the IDs. */
  lemma PairPartsProper(planes: Planes, tri0: Corners, tri1: Option<Corners>, scene: Box, prim: PrimRef, k: nat)
    requires 1 <= k && PlanesInside(planes, scene) && prim.bounds == PairBounds(tri0, tri1) && Subset(prim.bounds, scene)
    ensures forall x :: x in Presplit.SubPrims(PairSplitter(planes, tri0, tri1), prim, k) ==>
      Proper(x.bounds) && Subset(x.bounds, scene) && x.geomID == prim.geomID && x.primID == prim.primID
  {
    hide Met, PairBox, Subset, Proper, PairShape, PairBounds;
    var on, sp := PairShape(tri0, tri1), PairSplitter(planes, tri0, tri1);
    PairMet(tri0, tri1);
    forall p: PrimRef | sp(p).Some? && Met(on, p.bounds) && Subset(p.bounds, scene)
      ensures PartOf(on, scene, p, sp(p).value.0) && PartOf(on, scene, p, sp(p).value.1)
    {
      MetProper(on, p.bounds);
      var (d, pos) := planes(p).value;
      PairHalf(tri0, tri1, p.bounds, d, pos, true);
      PairHalf(tri0, tri1, p.bounds, d, pos, false);
      SubsetTrans(sp(p).value.0.bounds, p.bounds, scene);
      SubsetTrans(sp(p).value.1.bounds, p.bounds, scene);
    }
    PartsMet(sp, on, scene, prim, k);
    forall x | x in Presplit.SubPrims(sp, prim, k)
      ensures Proper(x.bounds)
    {
      MetProper(on, x.bounds);
    }
  }

  /** The same for quads, whatever their corners. */
  lemma QuadPartsProper(planes: Planes, q: Corners4, scene: Box, prim: PrimRef, k: nat)
    requires 1 <= k && PlanesInside(planes, scene) && prim.bounds == BoxOf(q.Outline()) && Subset(prim.bounds, scene)
    ensures forall x :: x in Presplit.SubPrims(QuadSplitter(planes, q), prim, k) ==>
      Proper(x.bounds) && Subset(x.bounds, scene) && x.geomID == prim.geomID && x.primID == prim.primID
  {
    hide Met, SideBox, Intersect, TightSide, BoxOf, Subset, Proper;
    var on, sp := Outline(q.Outline()), QuadSplitter(planes, q);
    PolygonMet(q.Outline());
    forall p: PrimRef | sp(p).Some? && Met(on, p.bounds) && Subset(p.bounds, scene)
      ensures PartOf(on, scene, p, sp(p).value.0) && PartOf(on, scene, p, sp(p).value.1)
    {
      MetProper(on, p.bounds);
      var (d, pos) := planes(p).value;
      PolygonTight(q.Outline(), d, pos, true);
      PolygonTight(q.Outline(), d, pos, false);
      HalfMet(on, p.bounds, d, pos, true, SideBox(q.Outline(), d, pos, true));
      HalfMet(on, p.bounds, d, pos, false, SideBox(q.Outline(), d, pos, false));
      SubsetTrans(sp(p).value.0.bounds, p.bounds, scene);
      SubsetTrans(sp(p).value.1.bounds, p.bounds, scene);
    }
    PartsMet(sp, on, scene, prim, k);
    forall x | x in Presplit.SubPrims(sp, prim, k)
      ensures Proper(x.bounds)
    {
      MetProper(on, x.bounds);
    }
  }
}
