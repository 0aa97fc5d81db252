/** Affine transforms of points and boxes (rtbuild/math/affinespace.h). */
module Transforms {
  import opened Common
  import opened Geometry
  import opened Clipping

  /** The columns of the linear part, and the translation. */
  datatype Affine = Affine(vx: Vec3, vy: Vec3, vz: Vec3, p: Vec3)

  function XfmAxis(m: Affine, v: Vec3, e: nat): real {
    Times(v.x, Axis(m.vx, e)) + (Times(v.y, Axis(m.vy, e)) + (Times(v.z, Axis(m.vz, e)) + Axis(m.p, e)))
  }

  function XfmPoint(m: Affine, v: Vec3): Vec3 {
    Vec3(XfmAxis(m, v, 0), XfmAxis(m, v, 1), XfmAxis(m, v, 2))
  }

  /** The origin goes to the translation, the unit vectors one column further. */
  lemma XfmUnits(m: Affine, e: nat)
    requires e < 3
    ensures XfmAxis(m, Vec3(0.0, 0.0, 0.0), e) == Axis(m.p, e)
    ensures XfmAxis(m, Vec3(1.0, 0.0, 0.0), e) == Axis(m.p, e) + Axis(m.vx, e)
    ensures XfmAxis(m, Vec3(0.0, 1.0, 0.0), e) == Axis(m.p, e) + Axis(m.vy, e)
    ensures XfmAxis(m, Vec3(0.0, 0.0, 1.0), e) == Axis(m.p, e) + Axis(m.vz, e)
  {
    hide Axis;
  }

  function Mix(x: real, y: real, t: real): real {
    x + Times(t, y - x)
  }

  /** Points between two points go to the points between their images. */
  lemma XfmMix(m: Affine, v: Vec3, w: Vec3, t: real, e: nat)
    ensures XfmAxis(m, Vec3(Mix(v.x, w.x, t), Mix(v.y, w.y, t), Mix(v.z, w.z, t)), e) == Mix(XfmAxis(m, v, e), XfmAxis(m, w, e), t)
  {
    hide Axis;
    var x, y, z, p := Axis(m.vx, e), Axis(m.vy, e), Axis(m.vz, e), Axis(m.p, e);
    MixTimes(v.x, w.x, t, x);
    MixTimes(v.y, w.y, t, y);
    MixTimes(v.z, w.z, t, z);
    MixSum(Times(v.z, z), Times(w.z, z), p, p, t);
    MixSum(Times(v.y, y), Times(w.y, y), Times(v.z, z) + p, Times(w.z, z) + p, t);
    MixSum(Times(v.x, x), Times(w.x, x), Times(v.y, y) + (Times(v.z, z) + p), Times(w.y, y) + (Times(w.z, z) + p), t);
    hide Mix, Times;
    MixSame(p, t);
  }

  lemma MixTimes(x: real, y: real, t: real, a: real)
    ensures Times(Mix(x, y, t), a) == Mix(Times(x, a), Times(y, a), t)
  {
    assert t * (y - x) * a == t * (y * a - x * a);
  }

  lemma MixSum(a: real, b: real, c: real, d: real, t: real)
    ensures Mix(a, b, t) + Mix(c, d, t) == Mix(a + c, b + d, t)
  {
    assert t * (b - a) + t * (d - c) == t * (b + d - (a + c));
  }

  lemma MixSame(p: real, t: real)
    ensures Mix(p, p, t) == p
  {
  }

  function CornerAt(b: Box, x: bool, y: bool, z: bool): Vec3
    requires b.Box?
  {
    Vec3(if x then b.hi.x else b.lo.x, if y then b.hi.y else b.lo.y, if z then b.hi.z else b.lo.z)
  }

  function XfmCorners(m: Affine, b: Box): seq<Vec3>
    requires b.Box?
  {
    [XfmPoint(m, CornerAt(b, false, false, false)), XfmPoint(m, CornerAt(b, false, false, true)),
     XfmPoint(m, CornerAt(b, false, true, false)), XfmPoint(m, CornerAt(b, false, true, true)),
     XfmPoint(m, CornerAt(b, true, false, false)), XfmPoint(m, CornerAt(b, true, false, true)),
     XfmPoint(m, CornerAt(b, true, true, false)), XfmPoint(m, CornerAt(b, true, true, true))]
  }

  /** xfmBounds: the box of the eight transformed corners. */
  function XfmBounds(m: Affine, b: Box): Box {
    if b.Empty? then Empty else BoxOf(XfmCorners(m, b))
  }

  lemma CornerHeld(m: Affine, b: Box, x: bool, y: bool, z: bool)
    requires b.Box?
    ensures In(XfmPoint(m, CornerAt(b, x, y, z)), XfmBounds(m, b))
  {
    hide BoxOf, XfmPoint, CornerAt, In;
    var i := (if x then 4 else 0) + (if y then 2 else 0) + (if z then 1 else 0);
    BoxOfContains(XfmCorners(m, b), i);
  }

  /** The box of a transformed box is not empty. */
  lemma XfmProper(m: Affine, b: Box)
    requires b.Box?
    ensures Proper(XfmBounds(m, b))
  {
    hide XfmBounds, XfmPoint, CornerAt;
    CornerHeld(m, b, false, false, false);
  }

  /** It holds every transformed point. */
  lemma XfmContains(m: Affine, b: Box, v: Vec3)
    requires In(v, b)
    ensures In(XfmPoint(m, v), XfmBounds(m, b))
  {
    hide XfmAxis, XfmBounds;
    AxisHeld(m, b, v, 0);
    AxisHeld(m, b, v, 1);
    AxisHeld(m, b, v, 2);
  }

  /** And is the least box that does. */
  lemma XfmLeast(m: Affine, b: Box, c: Box)
    requires Proper(b) && forall v: Vec3 :: In(v, b) ==> In(XfmPoint(m, v), c)
    ensures Subset(XfmBounds(m, b), c)
  {
    hide XfmPoint, BoxOf, CornerAt;
    CornersIn(b);
    BoxOfInside(XfmCorners(m, b), c);
  }

  lemma CornersIn(b: Box)
    requires Proper(b)
    ensures forall x: bool, y: bool, z: bool :: In(CornerAt(b, x, y, z), b)
  {
  }

  lemma AxisHeld(m: Affine, b: Box, v: Vec3, e: nat)
    requires In(v, b) && e < 3
    ensures XfmBounds(m, b).Box? && Axis(XfmBounds(m, b).lo, e) <= XfmAxis(m, v, e) <= Axis(XfmBounds(m, b).hi, e)
  {
    hide XfmBounds, XfmAxis;
    var x, y, z := 0.0 <= Axis(m.vx, e), 0.0 <= Axis(m.vy, e), 0.0 <= Axis(m.vz, e);
    CornerHeld(m, b, x, y, z);
    CornerHeld(m, b, !x, !y, !z);
    FarCorners(m, b, v, e);
  }

  /** The corners that the signs of the transform choose are the farthest. */
  lemma FarCorners(m: Affine, b: Box, v: Vec3, e: nat)
    requires In(v, b) && e < 3
    ensures var x, y, z := 0.0 <= Axis(m.vx, e), 0.0 <= Axis(m.vy, e), 0.0 <= Axis(m.vz, e);
      XfmAxis(m, CornerAt(b, !x, !y, !z), e) <= XfmAxis(m, v, e) <= XfmAxis(m, CornerAt(b, x, y, z), e)
  {
    hide Axis, Times;
    var ax, ay, az := Axis(m.vx, e), Axis(m.vy, e), Axis(m.vz, e);
    var near, far := CornerAt(b, !(0.0 <= ax), !(0.0 <= ay), !(0.0 <= az)), CornerAt(b, 0.0 <= ax, 0.0 <= ay, 0.0 <= az);
    Ends(v.x, b.lo.x, b.hi.x, ax);
    Ends(v.y, b.lo.y, b.hi.y, ay);
    Ends(v.z, b.lo.z, b.hi.z, az);
    assert Times(near.x, ax) <= Times(v.x, ax) <= Times(far.x, ax);
    assert Times(near.y, ay) <= Times(v.y, ay) <= Times(far.y, ay);
    assert Times(near.z, az) <= Times(v.z, az) <= Times(far.z, az);
  }

  lemma Ends(x: real, lo: real, hi: real, v: real)
    requires lo <= x <= hi
    ensures 0.0 <= v ==> Times(lo, v) <= Times(x, v) <= Times(hi, v)
    ensures v < 0.0 ==> Times(hi, v) <= Times(x, v) <= Times(lo, v)
  {
  }
}
