/** Points and axis-aligned boxes in exact arithmetic (rtbuild/math/bbox.h). */
module Geometry {

  datatype Vec3 = Vec3(x: real, y: real, z: real)

  /** Coordinate d of a vector. */
  function Axis(v: Vec3, d: nat): real {
    if d == 0 then v.x else if d == 1 then v.y else v.z
  }

  /** A box; Empty is the neutral element of Extend. */
  datatype Box = Empty | Box(lo: Vec3, hi: Vec3)

  function MinR(a: real, b: real): real {
    if a <= b then a else b
  }

  function MaxR(a: real, b: real): real {
    if a >= b then a else b
  }

  function Abs(a: real): real {
    if a < 0.0 then -a else a
  }

  function Extend(a: Box, b: Box): Box {
    if a.Empty? then b
    else if b.Empty? then a
    else Box(Vec3(MinR(a.lo.x, b.lo.x), MinR(a.lo.y, b.lo.y), MinR(a.lo.z, b.lo.z)),
             Vec3(MaxR(a.hi.x, b.hi.x), MaxR(a.hi.y, b.hi.y), MaxR(a.hi.z, b.hi.z)))
  }

  /** A box with at least one point. */
  predicate Proper(b: Box) {
    b.Box? && b.lo.x <= b.hi.x && b.lo.y <= b.hi.y && b.lo.z <= b.hi.z
  }

  predicate Subset(a: Box, b: Box) {
    a.Empty? ||
    (b.Box?
     && b.lo.x <= a.lo.x && b.lo.y <= a.lo.y && b.lo.z <= a.lo.z
     && a.hi.x <= b.hi.x && a.hi.y <= b.hi.y && a.hi.z <= b.hi.z)
  }

  lemma BoxOfProper(b: Box)
    requires Proper(b)
    ensures b.Box?
  {
  }

  function HalfArea(b: Box): real {
    if b.Empty? then 0.0
    else
      var x, y, z := b.hi.x - b.lo.x, b.hi.y - b.lo.y, b.hi.z - b.lo.z;
      x * (y + z) + y * z
  }

  lemma ExtendCovers(a: Box, b: Box)
    ensures Subset(a, Extend(a, b)) && Subset(b, Extend(a, b))
    ensures (a.Empty? || Proper(a)) && Proper(b) ==> Proper(Extend(a, b))
  {
  }

  lemma SubsetTrans(a: Box, b: Box, c: Box)
    requires Subset(a, b) && Subset(b, c)
    ensures Subset(a, c)
  {
  }

  /** The least box around both. */
  lemma ExtendLeast(a: Box, b: Box, c: Box)
    requires Subset(a, c) && Subset(b, c)
    ensures Subset(Extend(a, b), c)
  {
  }

  lemma ExtendLaws(a: Box, b: Box, c: Box)
    ensures Extend(Extend(a, b), c) == Extend(a, Extend(b, c)) == Extend(Extend(a, c), b)
    ensures Extend(a, b) == Extend(b, a)
  {
    if a.Box? && b.Box? && c.Box? {
      MinMaxLaws(a.lo.x, b.lo.x, c.lo.x);
      MinMaxLaws(a.lo.y, b.lo.y, c.lo.y);
      MinMaxLaws(a.lo.z, b.lo.z, c.lo.z);
      MinMaxLaws(a.hi.x, b.hi.x, c.hi.x);
      MinMaxLaws(a.hi.y, b.hi.y, c.hi.y);
      MinMaxLaws(a.hi.z, b.hi.z, c.hi.z);
      hide MinR, MaxR;
    }
    if a.Box? && b.Box? {
      MinMaxLaws(a.lo.x, b.lo.x, 0.0);
    }
  }

  lemma MinMaxLaws(a: real, b: real, c: real)
    ensures MinR(MinR(a, b), c) == MinR(a, MinR(b, c)) == MinR(MinR(a, c), b)
    ensures MaxR(MaxR(a, b), c) == MaxR(a, MaxR(b, c)) == MaxR(MaxR(a, c), b)
    ensures MinR(a, b) == MinR(b, a) && MaxR(a, b) == MaxR(b, a)
  {
  }

  // ----- surfaces

  /** The area of a face across dimension d. */
  function FaceArea(b: Box, d: nat): real
    requires b.Box? && d < 3
  {
    var x, y, z := b.hi.x - b.lo.x, b.hi.y - b.lo.y, b.hi.z - b.lo.z;
    if d == 0 then y * z else if d == 1 then x * z else x * y
  }

  /** Half of the six faces. */
  lemma HalfOfFaces(b: Box)
    requires b.Box?
    ensures 2.0 * HalfArea(b) == 2.0 * FaceArea(b, 0) + 2.0 * FaceArea(b, 1) + 2.0 * FaceArea(b, 2)
  {
  }
}
