/** Splitting a polygon at an axis-aligned plane
    (rtbuild/builders/splitter.h:13-45, 82-118 and
    rtbuild/qbvh6_builder_sah.h:902-947). */
module Clipping {
  import opened Common
  import opened Geometry
  import opened Bvh
  import Presplit

  // ----- boxes of points

  predicate In(p: Vec3, b: Box) {
    b.Box? && b.lo.x <= p.x <= b.hi.x && b.lo.y <= p.y <= b.hi.y && b.lo.z <= p.z <= b.hi.z
  }

  function ExtendPoint(b: Box, p: Vec3): Box {
    Extend(b, Box(p, p))
  }

  function BoxOf(ps: seq<Vec3>): Box {
    if ps == [] then Empty else ExtendPoint(BoxOf(ps[..|ps| - 1]), ps[|ps| - 1])
  }

  function Intersect(a: Box, b: Box): Box {
    if a.Empty? || b.Empty? then Empty else
      Box(Vec3(MaxR(a.lo.x, b.lo.x), MaxR(a.lo.y, b.lo.y), MaxR(a.lo.z, b.lo.z)),
          Vec3(MinR(a.hi.x, b.hi.x), MinR(a.hi.y, b.hi.y), MinR(a.hi.z, b.hi.z)))
  }

  lemma InBoth(p: Vec3, a: Box, b: Box)
    ensures In(p, Intersect(a, b)) <==> In(p, a) && In(p, b)
  {
  }

  lemma {:induction false} BoxOfContains(ps: seq<Vec3>, i: nat)
    requires i < |ps|
    ensures In(ps[i], BoxOf(ps))
  {
    var n := |ps| - 1;
    if i < n {
      BoxOfContains(ps[..n], i);
    }
  }

  lemma {:induction false} BoxOfInside(ps: seq<Vec3>, b: Box)
    requires forall p :: p in ps ==> In(p, b)
    ensures Subset(BoxOf(ps), b)
  {
    if ps != [] {
      var n := |ps| - 1;
      BoxOfInside(ps[..n], b);
      assert ps[n] in ps;
    }
  }

  // ----- the split

  /** The edge passes through the plane. */
  predicate Crosses(a: Vec3, b: Vec3, d: nat, pos: real) {
    (Axis(a, d) < pos && pos < Axis(b, d)) || (Axis(b, d) < pos && pos < Axis(a, d))
  }

  /** Where the edge passes through the plane. */
  function CrossPoint(a: Vec3, b: Vec3, d: nat, pos: real): Vec3
    requires Crosses(a, b, d, pos)
  {
    var t := CrossAt(Axis(a, d), Axis(b, d), pos);
    Vec3(Lerp(a.x, b.x, t), Lerp(a.y, b.y, t), Lerp(a.z, b.z, t))
  }

  /** Position of the plane along an edge. */
  function CrossAt(a: real, b: real, pos: real): real
    requires a != b
  {
    var inv := 1.0 / (b - a);
    (pos - a) * inv
  }

  function Lerp(a: real, b: real, t: real): real {
    a + t * (b - a)
  }

  /** What an edge adds to a side: its first point and the crossing. */
  function EdgePoints(a: Vec3, b: Vec3, d: nat, pos: real, left: bool): seq<Vec3> {
    (if (if left then Axis(a, d) <= pos else Axis(a, d) >= pos) then [a] else [])
    + (if Crosses(a, b, d, pos) then [CrossPoint(a, b, d, pos)] else [])
  }

  /** The points of one side; v lists the corners, the first one again at the end. */
  function SidePoints(v: seq<Vec3>, d: nat, pos: real, left: bool): seq<Vec3> {
    if |v| < 2 then [] else
      SidePoints(v[..|v| - 1], d, pos, left) + EdgePoints(v[|v| - 2], v[|v| - 1], d, pos, left)
  }

  lemma {:induction false} BoxOfAppend(ps: seq<Vec3>, qs: seq<Vec3>)
    requires |qs| <= 2
    ensures |qs| == 0 ==> BoxOf(ps + qs) == BoxOf(ps)
    ensures |qs| == 1 ==> BoxOf(ps + qs) == ExtendPoint(BoxOf(ps), qs[0])
    ensures |qs| == 2 ==> BoxOf(ps + qs) == ExtendPoint(ExtendPoint(BoxOf(ps), qs[0]), qs[1])
  {
    hide ExtendPoint;
    if |qs| == 0 {
      assert ps + qs == ps;
    } else if |qs| == 1 {
      assert (ps + qs)[..|ps|] == ps;
    } else {
      assert (ps + qs)[..|ps| + 1] == ps + [qs[0]];
      assert (ps + [qs[0]])[..|ps|] == ps;
    }
  }

  method SplitPolygon(bounds: Box, d: nat, pos: real, v: seq<Vec3>) returns (left_o: Box, right_o: Box)
    requires 1 <= |v|
    ensures left_o == Intersect(BoxOf(SidePoints(v, d, pos, true)), bounds)
    ensures right_o == Intersect(BoxOf(SidePoints(v, d, pos, false)), bounds)
  {
    hide CrossPoint, ExtendPoint, Intersect, Crosses, Axis, BoxOf, SidePoints;
    var left, right := Empty, Empty;
    NoSide(v[0], d, pos);
    for i := 0 to |v| - 1
      invariant left == BoxOf(SidePoints(v[..i + 1], d, pos, true))
      invariant right == BoxOf(SidePoints(v[..i + 1], d, pos, false))
    {
      var v0, v1 := v[i], v[i + 1];
      assert v[..i + 2] == v[..i + 1] + [v1];
      EdgeBoxed(v[..i + 1], v1, d, pos, true);
      EdgeBoxed(v[..i + 1], v1, d, pos, false);
      if Axis(v0, d) <= pos {
        left := ExtendPoint(left, v0);
      }
      if Axis(v0, d) >= pos {
        right := ExtendPoint(right, v0);
      }
      if Crosses(v0, v1, d, pos) {
        var c := CrossPoint(v0, v1, d, pos);
        left := ExtendPoint(left, c);
        right := ExtendPoint(right, c);
      }
    }
    assert v[..|v|] == v;
    left_o := Intersect(left, bounds);
    right_o := Intersect(right, bounds);
  }

  /** The box of one side after an edge. */
  function EdgeBox(box: Box, a: Vec3, b: Vec3, d: nat, pos: real, left: bool): Box {
    var box1 := if (if left then Axis(a, d) <= pos else Axis(a, d) >= pos) then ExtendPoint(box, a) else box;
    if Crosses(a, b, d, pos) then ExtendPoint(box1, CrossPoint(a, b, d, pos)) else box1
  }

  lemma NoSide(v: Vec3, d: nat, pos: real)
    ensures BoxOf(SidePoints([v], d, pos, true)) == Empty && BoxOf(SidePoints([v], d, pos, false)) == Empty
    ensures forall w: seq<Vec3> :: |w| == 1 ==> BoxOf(SidePoints(w, d, pos, true)) == Empty && BoxOf(SidePoints(w, d, pos, false)) == Empty
  {
  }

  lemma EdgeBoxed(v: seq<Vec3>, x: Vec3, d: nat, pos: real, left: bool)
    requires v != []
    ensures BoxOf(SidePoints(v + [x], d, pos, left)) == EdgeBox(BoxOf(SidePoints(v, d, pos, left)), v[|v| - 1], x, d, pos, left)
  {
    hide ExtendPoint, BoxOf, SidePoints, CrossPoint, Crosses, Axis;
    SidePointsStep(v, x, d, pos, left);
    BoxOfAppend(SidePoints(v, d, pos, left), EdgePoints(v[|v| - 1], x, d, pos, left));
  }

  lemma SidePointsStep(v: seq<Vec3>, x: Vec3, d: nat, pos: real, left: bool)
    requires v != []
    ensures SidePoints(v + [x], d, pos, left) == SidePoints(v, d, pos, left) + EdgePoints(v[|v| - 1], x, d, pos, left)
    ensures |v| == 1 ==> SidePoints(v, d, pos, left) == []
  {
    hide EdgePoints;
    assert (v + [x])[..|v|] == v;
  }

  // ----- coverage

  /** A point of the triangle with the given weights. */
  predicate Weights(a: real, b: real, c: real) {
    0.0 <= a && 0.0 <= b && 0.0 <= c && a + b + c == 1.0
  }

  function Blend(a: real, b: real, c: real, p: Vec3, q: Vec3, r: Vec3): Vec3 {
    Vec3(Times(a, p.x) + Times(b, q.x) + Times(c, r.x), Times(a, p.y) + Times(b, q.y) + Times(c, r.y),
         Times(a, p.z) + Times(b, q.z) + Times(c, r.z))
  }

  predicate InTriangle(x: Vec3, p: Vec3, q: Vec3, r: Vec3, a: real, b: real, c: real) {
    Weights(a, b, c) && x == Blend(a, b, c, p, q, r)
  }

  /** In the plane of coordinate e and height h over the split plane: the part
      of the segment up to height 0 stays below H. */
  predicate CrossBelow(pe: real, ph: real, qe: real, qh: real, H: real) {
    ph < 0.0 && 0.0 < qh ==> pe * qh - qe * ph <= H * (qh - ph)
  }

  /** e stays below a line of slope m through H at height 0. */
  predicate UnderLine(e: real, h: real, H: real, m: real) {
    e <= H + m * h
  }

  lemma SlopeAbove(e: real, h: real, H: real, m: real)
    requires 0.0 < h && (e - H) / h <= m
    ensures UnderLine(e, h, H, m)
  {
    var s := (e - H) / h;
    assert s * h == e - H;
    assert s * h <= m * h;
  }

  lemma SlopeBelow(pe: real, ph: real, qe: real, qh: real, H: real, m: real)
    requires ph <= 0.0 && 0.0 < qh && pe <= H && m == (qe - H) / qh
    requires CrossBelow(pe, ph, qe, qh, H)
    ensures UnderLine(pe, ph, H, m)
  {
    assert m * qh == qe - H;
    if ph < 0.0 {
      Cancel(pe, ph, qe, qh, H, m);
    }
  }

  lemma Cancel(pe: real, ph: real, qe: real, qh: real, H: real, m: real)
    requires ph < 0.0 && 0.0 < qh && m * qh == qe - H && pe * qh - qe * ph <= H * (qh - ph)
    ensures pe <= H + m * ph
  {
    assert qe * ph == m * qh * ph + H * ph;
    assert (pe - H - m * ph) * qh <= 0.0;
  }

  /** One line lies above all three corners. */
  lemma CommonLine(pe: real, ph: real, qe: real, qh: real, re: real, rh: real, H: real) returns (m: real)
    requires (ph <= 0.0 ==> pe <= H) && (qh <= 0.0 ==> qe <= H) && (rh <= 0.0 ==> re <= H)
    requires CrossBelow(pe, ph, qe, qh, H) && CrossBelow(qe, qh, pe, ph, H)
    requires CrossBelow(pe, ph, re, rh, H) && CrossBelow(re, rh, pe, ph, H)
    requires CrossBelow(qe, qh, re, rh, H) && CrossBelow(re, rh, qe, qh, H)
    ensures 0.0 <= m && UnderLine(pe, ph, H, m) && UnderLine(qe, qh, H, m) && UnderLine(re, rh, H, m)
  {
    hide CrossBelow, UnderLine;
    m := 0.0;
    if 0.0 < ph && (pe - H) / ph > m { m := (pe - H) / ph; }
    if 0.0 < qh && (qe - H) / qh > m { m := (qe - H) / qh; }
    if 0.0 < rh && (re - H) / rh > m { m := (re - H) / rh; }
    Under(pe, ph, qe, qh, re, rh, H, m);
    Under(qe, qh, pe, ph, re, rh, H, m);
    Under(re, rh, pe, ph, qe, qh, H, m);
  }

  lemma Under(pe: real, ph: real, qe: real, qh: real, re: real, rh: real, H: real, m: real)
    requires ph <= 0.0 ==> pe <= H
    requires CrossBelow(pe, ph, qe, qh, H) && CrossBelow(pe, ph, re, rh, H)
    requires 0.0 < ph ==> (pe - H) / ph <= m
    requires m == 0.0 || (0.0 < ph && m == (pe - H) / ph) || (0.0 < qh && m == (qe - H) / qh) || (0.0 < rh && m == (re - H) / rh)
    requires 0.0 <= m
    ensures UnderLine(pe, ph, H, m)
  {
    if 0.0 < ph {
      SlopeAbove(pe, ph, H, m);
    } else if 0.0 < qh && m == (qe - H) / qh {
      SlopeBelow(pe, ph, qe, qh, H, m);
    } else if 0.0 < rh && m == (re - H) / rh {
      SlopeBelow(pe, ph, re, rh, H, m);
    }
  }

  /** A product as a term of its own. */
  function Times(x: real, y: real): real {
    x * y
  }

  /** A blend of points under a line that is not above the plane is below H. */
  lemma BlendUnder(a: real, b: real, c: real, pe: real, ph: real, qe: real, qh: real, re: real, rh: real, H: real, m: real)
    requires Weights(a, b, c) && 0.0 <= m && Times(a, ph) + Times(b, qh) + Times(c, rh) <= 0.0
    requires UnderLine(pe, ph, H, m) && UnderLine(qe, qh, H, m) && UnderLine(re, rh, H, m)
    ensures Times(a, pe) + Times(b, qe) + Times(c, re) <= H
  {
    hide Times, UnderLine;
    TermUnder(a, pe, ph, H, m);
    TermUnder(b, qe, qh, H, m);
    TermUnder(c, re, rh, H, m);
    Whole(a, b, c, H);
    Lowered(m, Times(a, ph), Times(b, qh), Times(c, rh));
  }

  lemma TermUnder(a: real, e: real, h: real, H: real, m: real)
    requires 0.0 <= a && UnderLine(e, h, H, m)
    ensures Times(a, e) <= Times(a, H) + Times(m, Times(a, h))
  {
    Weighted(a, e, H + m * h);
    assert a * (H + m * h) == a * H + m * (a * h);
  }

  lemma Whole(a: real, b: real, c: real, H: real)
    requires a + b + c == 1.0
    ensures Times(a, H) + Times(b, H) + Times(c, H) == H
  {
    assert a * H + b * H + c * H == (a + b + c) * H;
  }

  lemma Lowered(m: real, u: real, v: real, w: real)
    requires 0.0 <= m && u + v + w <= 0.0
    ensures Times(m, u) + Times(m, v) + Times(m, w) <= 0.0
  {
    NotPositive(m, u + v + w);
    assert m * u + m * v + m * w == m * (u + v + w);
  }

  lemma Weighted(a: real, x: real, y: real)
    requires 0.0 <= a && x <= y
    ensures a * x <= a * y
  {
  }

  lemma NotPositive(m: real, x: real)
    requires 0.0 <= m && x <= 0.0
    ensures m * x <= 0.0
  {
  }

  // ----- coordinates seen from the plane

  /** Coordinate e, mirrored for a lower bound. */
  function Toward(p: Vec3, e: nat, upper: bool): real {
    if upper then Axis(p, e) else -Axis(p, e)
  }

  /** Distance to the plane, negative on the side. */
  function Height(p: Vec3, d: nat, pos: real, left: bool): real {
    if left then Axis(p, d) - pos else pos - Axis(p, d)
  }

  /** The bound of a box in the direction of coordinate e. */
  function Bound(b: Box, e: nat, upper: bool): real
    requires b.Box?
  {
    if upper then Axis(b.hi, e) else -Axis(b.lo, e)
  }

  /** The box holds the corners of the side and the crossing of the edge. */
  predicate HoldsEdge(box: Box, a: Vec3, b: Vec3, d: nat, pos: real, left: bool) {
    && (Height(a, d, pos, left) <= 0.0 ==> In(a, box))
    && (Crosses(a, b, d, pos) ==> In(CrossPoint(a, b, d, pos), box))
  }

  lemma InBound(p: Vec3, b: Box, e: nat, upper: bool)
    requires In(p, b)
    ensures Toward(p, e, upper) <= Bound(b, e, upper)
  {
  }

  lemma CrossValue(a: Vec3, b: Vec3, d: nat, pos: real, e: nat)
    requires Crosses(a, b, d, pos)
    ensures Axis(CrossPoint(a, b, d, pos), e) * (Axis(b, d) - Axis(a, d))
      == Axis(a, e) * (Axis(b, d) - pos) + Axis(b, e) * (pos - Axis(a, d))
  {
    hide Axis, CrossAt, Lerp;
    var ad, bd := Axis(a, d), Axis(b, d);
    CrossAxis(a, b, CrossAt(ad, bd, pos), e);
    LerpTimes(Axis(a, e), Axis(b, e), ad, bd, pos);
  }

  lemma CrossAxis(a: Vec3, b: Vec3, t: real, e: nat)
    ensures Axis(Vec3(Lerp(a.x, b.x, t), Lerp(a.y, b.y, t), Lerp(a.z, b.z, t)), e) == Lerp(Axis(a, e), Axis(b, e), t)
  {
    hide Lerp;
  }

  lemma LerpTimes(ae: real, be: real, ad: real, bd: real, pos: real)
    requires ad != bd
    ensures Lerp(ae, be, CrossAt(ad, bd, pos)) * (bd - ad) == ae * (bd - pos) + be * (pos - ad)
  {
    hide Lerp;
    var t := CrossAt(ad, bd, pos);
    CrossTimes(ad, bd, pos);
    LerpWide(ae, be, t, bd - ad, pos - ad, bd - pos);
  }

  lemma CrossTimes(ad: real, bd: real, pos: real)
    requires ad != bd
    ensures CrossAt(ad, bd, pos) * (bd - ad) == pos - ad
  {
    Inverse(1.0 / (bd - ad), bd - ad, pos - ad);
  }

  lemma Inverse(inv: real, w: real, u: real)
    requires w != 0.0 && inv == 1.0 / w
    ensures u * inv * w == u
  {
    assert inv * w == 1.0;
    assert u * inv * w == u * (inv * w);
  }

  lemma LerpWide(ae: real, be: real, t: real, w: real, u: real, v: real)
    requires t * w == u && v == w - u
    ensures Lerp(ae, be, t) * w == ae * v + be * u
  {
    assert (ae + t * (be - ae)) * w == ae * w + (t * w) * (be - ae);
  }

  lemma EdgeBelow(box: Box, a: Vec3, b: Vec3, d: nat, pos: real, left: bool, e: nat, upper: bool)
    requires box.Box? && HoldsEdge(box, a, b, d, pos, left)
    ensures var H := Bound(box, e, upper);
      var ae, ah, be, bh := Toward(a, e, upper), Height(a, d, pos, left), Toward(b, e, upper), Height(b, d, pos, left);
      && (ah <= 0.0 ==> ae <= H) && CrossBelow(ae, ah, be, bh, H) && CrossBelow(be, bh, ae, ah, H)
  {
    hide Axis, CrossPoint, In;
    if Height(a, d, pos, left) <= 0.0 {
      InBound(a, box, e, upper);
    }
    if Crosses(a, b, d, pos) {
      var c := CrossPoint(a, b, d, pos);
      CrossValue(a, b, d, pos, e);
      InBound(c, box, e, upper);
      SignedCross(Axis(a, e), Axis(a, d) - pos, Axis(b, e), Axis(b, d) - pos, Axis(c, e), upper, left);
      CrossBoth(Toward(a, e, upper), Height(a, d, pos, left), Toward(b, e, upper), Height(b, d, pos, left),
                Toward(c, e, upper), Bound(box, e, upper));
    }
  }

  lemma SignedCross(ae: real, ah: real, be: real, bh: real, ce: real, upper: bool, left: bool)
    requires ce * (bh - ah) == ae * bh - be * ah
    ensures var se, sh := if upper then 1.0 else -1.0, if left then 1.0 else -1.0;
      (se * ce) * (sh * bh - sh * ah) == (se * ae) * (sh * bh) - (se * be) * (sh * ah)
  {
  }

  lemma CrossBoth(ae: real, ah: real, be: real, bh: real, ce: real, H: real)
    requires ce * (bh - ah) == ae * bh - be * ah && ce <= H
    ensures CrossBelow(ae, ah, be, bh, H) && CrossBelow(be, bh, ae, ah, H)
  {
    if ah < 0.0 && 0.0 < bh {
      Weighted(bh - ah, ce, H);
    }
    if bh < 0.0 && 0.0 < ah {
      Weighted(ah - bh, ce, H);
    }
  }

  /** One coordinate of a point of the triangle on the side. */
  lemma CoordinateCovered(box: Box, p: Vec3, q: Vec3, r: Vec3, d: nat, pos: real, left: bool, a: real, b: real, c: real, x: Vec3,
                          e: nat, upper: bool)
    requires box.Box? && HoldsEdge(box, p, q, d, pos, left) && HoldsEdge(box, q, r, d, pos, left) && HoldsEdge(box, r, p, d, pos, left)
    requires InTriangle(x, p, q, r, a, b, c) && Height(x, d, pos, left) <= 0.0
    ensures Toward(x, e, upper) <= Bound(box, e, upper)
  {
    hide HoldsEdge, CrossBelow, UnderLine, Weights, Toward, Height, Bound, Blend, Times;
    EdgeBelow(box, p, q, d, pos, left, e, upper);
    EdgeBelow(box, q, r, d, pos, left, e, upper);
    EdgeBelow(box, r, p, d, pos, left, e, upper);
    var pe, qe, re := Toward(p, e, upper), Toward(q, e, upper), Toward(r, e, upper);
    var ph, qh, rh := Height(p, d, pos, left), Height(q, d, pos, left), Height(r, d, pos, left);
    var m := CommonLine(pe, ph, qe, qh, re, rh, Bound(box, e, upper));
    BlendToward(x, p, q, r, a, b, c, e, upper);
    BlendHeight(x, p, q, r, a, b, c, d, pos, left);
    BlendUnder(a, b, c, pe, ph, qe, qh, re, rh, Bound(box, e, upper), m);
  }

  lemma BlendAxis(x: Vec3, p: Vec3, q: Vec3, r: Vec3, a: real, b: real, c: real, e: nat)
    requires x == Blend(a, b, c, p, q, r)
    ensures Axis(x, e) == Times(a, Axis(p, e)) + Times(b, Axis(q, e)) + Times(c, Axis(r, e))
  {
    hide Times;
  }

  lemma BlendToward(x: Vec3, p: Vec3, q: Vec3, r: Vec3, a: real, b: real, c: real, e: nat, upper: bool)
    requires x == Blend(a, b, c, p, q, r)
    ensures Toward(x, e, upper) == Times(a, Toward(p, e, upper)) + Times(b, Toward(q, e, upper)) + Times(c, Toward(r, e, upper))
  {
    hide Axis, Blend, Times;
    BlendAxis(x, p, q, r, a, b, c, e);
    Negate(a, b, c, Axis(p, e), Axis(q, e), Axis(r, e));
  }

  lemma Negate(a: real, b: real, c: real, x: real, y: real, z: real)
    ensures -(Times(a, x) + Times(b, y) + Times(c, z)) == Times(a, -x) + Times(b, -y) + Times(c, -z)
  {
  }

  lemma BlendHeight(x: Vec3, p: Vec3, q: Vec3, r: Vec3, a: real, b: real, c: real, d: nat, pos: real, left: bool)
    requires x == Blend(a, b, c, p, q, r) && Weights(a, b, c)
    ensures Height(x, d, pos, left)
      == Times(a, Height(p, d, pos, left)) + Times(b, Height(q, d, pos, left)) + Times(c, Height(r, d, pos, left))
  {
    hide Axis, Blend, Times;
    BlendAxis(x, p, q, r, a, b, c, d);
    Shifted(a, b, c, Axis(p, d), Axis(q, d), Axis(r, d), pos);
    Negate(a, b, c, Axis(p, d) - pos, Axis(q, d) - pos, Axis(r, d) - pos);
  }

  lemma Shifted(a: real, b: real, c: real, x: real, y: real, z: real, s: real)
    requires a + b + c == 1.0
    ensures Times(a, x) + Times(b, y) + Times(c, z) - s == Times(a, x - s) + Times(b, y - s) + Times(c, z - s)
  {
    Whole(a, b, c, s);
  }

  /** The box of one side of a clipped triangle holds all its points there. */
  lemma SideCovered(box: Box, p: Vec3, q: Vec3, r: Vec3, d: nat, pos: real, left: bool, a: real, b: real, c: real, x: Vec3)
    requires HoldsEdge(box, p, q, d, pos, left) && HoldsEdge(box, q, r, d, pos, left) && HoldsEdge(box, r, p, d, pos, left)
    requires InTriangle(x, p, q, r, a, b, c) && Height(x, d, pos, left) <= 0.0
    ensures In(x, box)
  {
    hide HoldsEdge, InTriangle, Height;
    SomeCorner(box, p, q, r, d, pos, left, a, b, c, x);
    forall e: nat, upper: bool | e < 3
      ensures Toward(x, e, upper) <= Bound(box, e, upper)
    {
      CoordinateCovered(box, p, q, r, d, pos, left, a, b, c, x, e, upper);
    }
    assert Toward(x, 0, true) <= Bound(box, 0, true) && Toward(x, 0, false) <= Bound(box, 0, false);
    assert Toward(x, 1, true) <= Bound(box, 1, true) && Toward(x, 1, false) <= Bound(box, 1, false);
    assert Toward(x, 2, true) <= Bound(box, 2, true) && Toward(x, 2, false) <= Bound(box, 2, false);
  }

  /** A point on the side is a blend of corners one of which is on the side. */
  lemma SomeCorner(box: Box, p: Vec3, q: Vec3, r: Vec3, d: nat, pos: real, left: bool, a: real, b: real, c: real, x: Vec3)
    requires HoldsEdge(box, p, q, d, pos, left) && HoldsEdge(box, q, r, d, pos, left) && HoldsEdge(box, r, p, d, pos, left)
    requires InTriangle(x, p, q, r, a, b, c) && Height(x, d, pos, left) <= 0.0
    ensures box.Box?
  {
    hide Blend, Height, Crosses, CrossPoint;
    BlendHeight(x, p, q, r, a, b, c, d, pos, left);
    if Height(p, d, pos, left) > 0.0 && Height(q, d, pos, left) > 0.0 && Height(r, d, pos, left) > 0.0 {
      PositiveBlend(a, b, c, Height(p, d, pos, left), Height(q, d, pos, left), Height(r, d, pos, left));
    }
  }

  lemma PositiveBlend(a: real, b: real, c: real, x: real, y: real, z: real)
    requires Weights(a, b, c) && 0.0 < x && 0.0 < y && 0.0 < z
    ensures 0.0 < Times(a, x) + Times(b, y) + Times(c, z)
  {
    Weighted(a, 0.0, x);
    Weighted(b, 0.0, y);
    Weighted(c, 0.0, z);
    if 0.0 < a {
      assert 0.0 < a * x;
    } else if 0.0 < b {
      assert 0.0 < b * y;
    } else {
      assert 0.0 < c * z;
    }
  }

  // ----- triangles

  lemma SidePointsTriangle(p: Vec3, q: Vec3, r: Vec3, d: nat, pos: real, left: bool)
    ensures SidePoints([p, q, r, p], d, pos, left)
      == EdgePoints(p, q, d, pos, left) + EdgePoints(q, r, d, pos, left) + EdgePoints(r, p, d, pos, left)
  {
    hide EdgePoints, SidePoints;
    SidePointsStep([p, q, r], p, d, pos, left);
    SidePointsStep([p, q], r, d, pos, left);
    SidePointsStep([p], q, d, pos, left);
    assert [p, q, r] + [p] == [p, q, r, p] && [p, q] + [r] == [p, q, r] && [p] + [q] == [p, q];
  }

  /** A box around points that include those of an edge. */
  lemma EdgeHeld(pre: seq<Vec3>, post: seq<Vec3>, a: Vec3, b: Vec3, d: nat, pos: real, left: bool)
    ensures HoldsEdge(BoxOf(pre + EdgePoints(a, b, d, pos, left) + post), a, b, d, pos, left)
  {
    hide CrossPoint, BoxOf, In;
    var es := EdgePoints(a, b, d, pos, left);
    var ps := pre + es + post;
    forall i: nat | i < |es|
      ensures In(es[i], BoxOf(ps))
    {
      assert ps[|pre| + i] == es[i];
      BoxOfContains(ps, |pre| + i);
    }
    assert Height(a, d, pos, left) <= 0.0 ==> es[0] == a;
    assert Crosses(a, b, d, pos) ==> es[|es| - 1] == CrossPoint(a, b, d, pos);
  }

  lemma TriangleEdges(p: Vec3, q: Vec3, r: Vec3, d: nat, pos: real, left: bool)
    ensures var box := BoxOf(SidePoints([p, q, r, p], d, pos, left));
      HoldsEdge(box, p, q, d, pos, left) && HoldsEdge(box, q, r, d, pos, left) && HoldsEdge(box, r, p, d, pos, left)
  {
    hide EdgePoints, HoldsEdge, BoxOf, SidePoints;
    SidePointsTriangle(p, q, r, d, pos, left);
    var e0, e1, e2 := EdgePoints(p, q, d, pos, left), EdgePoints(q, r, d, pos, left), EdgePoints(r, p, d, pos, left);
    EdgeHeld([], e1 + e2, p, q, d, pos, left);
    assert [] + e0 + (e1 + e2) == e0 + e1 + e2;
    EdgeHeld(e0, e2, q, r, d, pos, left);
    EdgeHeld(e0 + e1, [], r, p, d, pos, left);
    assert e0 + e1 + e2 + [] == e0 + e1 + e2;
  }

  function SideBox(v: seq<Vec3>, d: nat, pos: real, left: bool): Box {
    BoxOf(SidePoints(v, d, pos, left))
  }

  /** Every point of the triangle inside the bounds stays in the box of its side. */
  lemma TriangleCovered(bounds: Box, p: Vec3, q: Vec3, r: Vec3, d: nat, pos: real, a: real, b: real, c: real, x: Vec3)
    requires InTriangle(x, p, q, r, a, b, c) && In(x, bounds)
    ensures Axis(x, d) <= pos ==> In(x, Intersect(SideBox([p, q, r, p], d, pos, true), bounds))
    ensures Axis(x, d) >= pos ==> In(x, Intersect(SideBox([p, q, r, p], d, pos, false), bounds))
  {
    hide SidePoints, BoxOf, HoldsEdge, InTriangle, In, Intersect, Axis;
    var v := [p, q, r, p];
    TriangleEdges(p, q, r, d, pos, true);
    TriangleEdges(p, q, r, d, pos, false);
    if Axis(x, d) <= pos {
      SideCovered(SideBox(v, d, pos, true), p, q, r, d, pos, true, a, b, c, x);
    }
    if Axis(x, d) >= pos {
      SideCovered(SideBox(v, d, pos, false), p, q, r, d, pos, false, a, b, c, x);
    }
    InBoth(x, SideBox(v, d, pos, true), bounds);
    InBoth(x, SideBox(v, d, pos, false), bounds);
  }

  datatype Corners = Corners(p: Vec3, q: Vec3, r: Vec3)

  /** splitTrianglePair: both halves are the unions over the two triangles. */
  method SplitTrianglePair(bounds: Box, d: nat, pos: real, tri0: Corners, tri1: Option<Corners>) returns (left: Box, right: Box)
    ensures left == PairBox(bounds, d, pos, tri0, tri1, true) && right == PairBox(bounds, d, pos, tri0, tri1, false)
  {
    left, right := SplitPolygon(bounds, d, pos, [tri0.p, tri0.q, tri0.r, tri0.p]);
    if tri1.Some? {
      var left1, right1 := SplitPolygon(bounds, d, pos, [tri1.value.p, tri1.value.q, tri1.value.r, tri1.value.p]);
      left := Extend(left, left1);
      right := Extend(right, right1);
    }
  }

  function TriBox(bounds: Box, d: nat, pos: real, t: Corners, left: bool): Box {
    Intersect(SideBox([t.p, t.q, t.r, t.p], d, pos, left), bounds)
  }

  function PairBox(bounds: Box, d: nat, pos: real, tri0: Corners, tri1: Option<Corners>, left: bool): Box {
    var b := TriBox(bounds, d, pos, tri0, left);
    if tri1.Some? then Extend(b, TriBox(bounds, d, pos, tri1.value, left)) else b
  }

  lemma InExtend(x: Vec3, a: Box, b: Box)
    requires In(x, a) || In(x, b)
    ensures In(x, Extend(a, b))
  {
  }

  /** A point of one of the triangles of a pair. */
  predicate OnPair(x: Vec3, tri0: Corners, tri1: Option<Corners>, a: real, b: real, c: real) {
    || InTriangle(x, tri0.p, tri0.q, tri0.r, a, b, c)
    || (tri1.Some? && InTriangle(x, tri1.value.p, tri1.value.q, tri1.value.r, a, b, c))
  }

  lemma PairCovered(bounds: Box, tri0: Corners, tri1: Option<Corners>, d: nat, pos: real, a: real, b: real, c: real, x: Vec3)
    requires OnPair(x, tri0, tri1, a, b, c) && In(x, bounds)
    ensures Axis(x, d) <= pos ==> In(x, PairBox(bounds, d, pos, tri0, tri1, true))
    ensures Axis(x, d) >= pos ==> In(x, PairBox(bounds, d, pos, tri0, tri1, false))
  {
    hide SideBox, InTriangle, In, Intersect, Axis, Extend;
    if InTriangle(x, tri0.p, tri0.q, tri0.r, a, b, c) {
      TriangleCovered(bounds, tri0.p, tri0.q, tri0.r, d, pos, a, b, c, x);
    } else {
      TriangleCovered(bounds, tri1.value.p, tri1.value.q, tri1.value.r, d, pos, a, b, c, x);
    }
    if tri1.Some? {
      if Axis(x, d) <= pos {
        InExtend(x, TriBox(bounds, d, pos, tri0, true), TriBox(bounds, d, pos, tri1.value, true));
      }
      if Axis(x, d) >= pos {
        InExtend(x, TriBox(bounds, d, pos, tri0, false), TriBox(bounds, d, pos, tri1.value, false));
      }
    }
  }

  // ----- recursive splitting

  /** Every split keeps the point in one of the halves. */
  ghost predicate KeepsPoint(sp: Presplit.Splitter, x: Vec3) {
    forall p: PrimRef :: sp(p).Some? && In(x, p.bounds) ==> In(x, sp(p).value.0.bounds) || In(x, sp(p).value.1.bounds)
  }

  lemma {:induction false} SubPrimsCover(sp: Presplit.Splitter, p: PrimRef, k: nat, x: Vec3) returns (i: nat)
    requires 1 <= k && KeepsPoint(sp, x) && In(x, p.bounds)
    ensures i < |Presplit.SubPrims(sp, p, k)| && In(x, Presplit.SubPrims(sp, p, k)[i].bounds)
    decreases k
  {
    hide In;
    i := 0;
    if k != 1 && sp(p).Some? {
      var (l, r) := sp(p).value;
      if In(x, l.bounds) {
        i := SubPrimsCover(sp, l, k / 2, x);
      } else {
        var j := SubPrimsCover(sp, r, k - k / 2, x);
        i := |Presplit.SubPrims(sp, l, k / 2)| + j;
      }
    }
  }

  /** The planes the grid chooses, for any choice. */
  type Planes = PrimRef -> Option<(nat, real)>

  /** Splitting a triangle or a pair at the planes of the grid. */
  function PairSplitter(planes: Planes, tri0: Corners, tri1: Option<Corners>): Presplit.Splitter {
    (prim: PrimRef) =>
      match planes(prim)
      case None => None
      case Some((d, pos)) =>
        Some((PrimRef(PairBox(prim.bounds, d, pos, tri0, tri1, true), prim.geomID, prim.primID),
              PrimRef(PairBox(prim.bounds, d, pos, tri0, tri1, false), prim.geomID, prim.primID)))
  }

  /** The parts of a triangle reference still cover what it covered. */
  lemma TrianglePartsCover(planes: Planes, tri0: Corners, tri1: Option<Corners>, prim: PrimRef, k: nat, a: real, b: real, c: real,
                           x: Vec3) returns (i: nat)
    requires 1 <= k && OnPair(x, tri0, tri1, a, b, c) && In(x, prim.bounds)
    ensures var parts := Presplit.SubPrims(PairSplitter(planes, tri0, tri1), prim, k);
      i < |parts| <= k && In(x, parts[i].bounds)
  {
    hide In, OnPair, PairBox;
    var sp := PairSplitter(planes, tri0, tri1);
    forall p: PrimRef | sp(p).Some? && In(x, p.bounds)
      ensures In(x, sp(p).value.0.bounds) || In(x, sp(p).value.1.bounds)
    {
      PairCovered(p.bounds, tri0, tri1, planes(p).value.0, planes(p).value.1, a, b, c, x);
    }
    i := SubPrimsCover(sp, prim, k, x);
  }

  // ----- quads

  /** The corners of a quad, which is rendered as the triangles (p0, p1, p3) and
      (p2, p3, p1). */
  datatype Corners4 = Corners4(p0: Vec3, p1: Vec3, p2: Vec3, p3: Vec3) {
    function Outline(): seq<Vec3> {
      [p0, p1, p2, p3, p0]
    }
  }

  predicate OnQuad(x: Vec3, q: Corners4, a: real, b: real, c: real) {
    InTriangle(x, q.p0, q.p1, q.p3, a, b, c) || InTriangle(x, q.p2, q.p3, q.p1, a, b, c)
  }

  function QuadBox(bounds: Box, d: nat, pos: real, q: Corners4, left: bool): Box {
    Intersect(SideBox(q.Outline(), d, pos, left), bounds)
  }

  method SplitQuad(bounds: Box, d: nat, pos: real, q: Corners4) returns (left: Box, right: Box)
    ensures left == QuadBox(bounds, d, pos, q, true) && right == QuadBox(bounds, d, pos, q, false)
  {
    left, right := SplitPolygon(bounds, d, pos, q.Outline());
  }

  lemma SidePointsQuad(q: Corners4, d: nat, pos: real, left: bool)
    ensures SidePoints(q.Outline(), d, pos, left)
      == EdgePoints(q.p0, q.p1, d, pos, left) + EdgePoints(q.p1, q.p2, d, pos, left) + EdgePoints(q.p2, q.p3, d, pos, left)
       + EdgePoints(q.p3, q.p0, d, pos, left)
  {
    hide EdgePoints, SidePoints;
    var v1 := [q.p0];
    var v2 := v1 + [q.p1];
    var v3 := v2 + [q.p2];
    var v4 := v3 + [q.p3];
    SidePointsStep(v1, q.p1, d, pos, left);
    SidePointsStep(v2, q.p2, d, pos, left);
    SidePointsStep(v3, q.p3, d, pos, left);
    SidePointsStep(v4, q.p0, d, pos, left);
    assert v4 + [q.p0] == q.Outline();
  }

  lemma QuadEdges(q: Corners4, d: nat, pos: real, left: bool)
    ensures var box := SideBox(q.Outline(), d, pos, left);
      && HoldsEdge(box, q.p0, q.p1, d, pos, left) && HoldsEdge(box, q.p1, q.p2, d, pos, left)
      && HoldsEdge(box, q.p2, q.p3, d, pos, left) && HoldsEdge(box, q.p3, q.p0, d, pos, left)
  {
    hide EdgePoints, HoldsEdge, BoxOf, SidePoints;
    SidePointsQuad(q, d, pos, left);
    var e0, e1 := EdgePoints(q.p0, q.p1, d, pos, left), EdgePoints(q.p1, q.p2, d, pos, left);
    var e2, e3 := EdgePoints(q.p2, q.p3, d, pos, left), EdgePoints(q.p3, q.p0, d, pos, left);
    var all := e0 + e1 + e2 + e3;
    EdgeHeld([], e1 + e2 + e3, q.p0, q.p1, d, pos, left);
    assert [] + e0 + (e1 + e2 + e3) == all;
    EdgeHeld(e0, e2 + e3, q.p1, q.p2, d, pos, left);
    assert e0 + e1 + (e2 + e3) == all;
    EdgeHeld(e0 + e1, e3, q.p2, q.p3, d, pos, left);
    EdgeHeld(e0 + e1 + e2, [], q.p3, q.p0, d, pos, left);
    assert all + [] == all;
  }

  /** The first corner of the edge, when it is on the side, or the crossing of
      the edge is as far as v in the direction of coordinate e. */
  predicate EdgeReaches(a: Vec3, b: Vec3, d: nat, pos: real, left: bool, e: nat, upper: bool, v: real) {
    || (Height(a, d, pos, left) <= 0.0 && v <= Toward(a, e, upper))
    || (Crosses(a, b, d, pos) && v <= Toward(CrossPoint(a, b, d, pos), e, upper))
  }

  /** Some corner of the side or some crossing of an edge is as far as v. */
  predicate Reached(q: Corners4, d: nat, pos: real, left: bool, e: nat, upper: bool, v: real) {
    || EdgeReaches(q.p0, q.p1, d, pos, left, e, upper, v) || EdgeReaches(q.p1, q.p2, d, pos, left, e, upper, v)
    || EdgeReaches(q.p2, q.p3, d, pos, left, e, upper, v) || EdgeReaches(q.p3, q.p0, d, pos, left, e, upper, v)
  }

  /** The diagonal is no edge of the polygon.  In every coordinate its crossing
      with the plane lies between the least and the greatest of the corners of
      the side and the crossings of the four edges. */
  ghost predicate DiagonalHeld(q: Corners4, d: nat, pos: real, left: bool) {
    Crosses(q.p1, q.p3, d, pos) ==>
      forall e: nat, upper: bool :: e < 3 ==> Reached(q, d, pos, left, e, upper, Toward(CrossPoint(q.p1, q.p3, d, pos), e, upper))
  }

  /** A bound of the box of points is a coordinate of one of them. */
  lemma {:induction false} BoxOfAttained(ps: seq<Vec3>, e: nat, upper: bool) returns (p: Vec3)
    requires ps != []
    ensures p in ps && BoxOf(ps).Box? && Toward(p, e, upper) == Bound(BoxOf(ps), e, upper)
  {
    var n := |ps| - 1;
    p := ps[n];
    if n != 0 {
      var p0 := BoxOfAttained(ps[..n], e, upper);
      ExtendBound(BoxOf(ps[..n]), ps[n], e, upper);
      if Toward(p, e, upper) < Toward(p0, e, upper) {
        p := p0;
      }
    } else {
      assert ps[..0] == [];
    }
  }

  lemma ExtendBound(b: Box, p: Vec3, e: nat, upper: bool)
    requires b.Box?
    ensures ExtendPoint(b, p).Box?
    ensures Bound(ExtendPoint(b, p), e, upper) == MaxR(Bound(b, e, upper), Toward(p, e, upper))
  {
  }

  /** How far the box of a side goes is how far the quad reaches there. */
  lemma BoxReached(q: Corners4, d: nat, pos: real, left: bool, e: nat, upper: bool, v: real)
    ensures var box := SideBox(q.Outline(), d, pos, left);
      Reached(q, d, pos, left, e, upper, v) <==> box.Box? && v <= Bound(box, e, upper)
  {
    hide BoxOf, SidePoints, EdgePoints, CrossPoint, Crosses, Toward, Bound, In, Height;
    var box := SideBox(q.Outline(), d, pos, left);
    if Reached(q, d, pos, left, e, upper, v) {
      QuadEdges(q, d, pos, left);
      EdgeInside(box, q.p0, q.p1, d, pos, left, e, upper, v);
      EdgeInside(box, q.p1, q.p2, d, pos, left, e, upper, v);
      EdgeInside(box, q.p2, q.p3, d, pos, left, e, upper, v);
      EdgeInside(box, q.p3, q.p0, d, pos, left, e, upper, v);
    }
    if box.Box? && v <= Bound(box, e, upper) {
      SidePointsQuad(q, d, pos, left);
      var ps := SidePoints(q.Outline(), d, pos, left);
      NoPoints(ps);
      var p := BoxOfAttained(ps, e, upper);
      if p in EdgePoints(q.p0, q.p1, d, pos, left) {
        EdgePointReaches(q.p0, q.p1, d, pos, left, e, upper, p);
      } else if p in EdgePoints(q.p1, q.p2, d, pos, left) {
        EdgePointReaches(q.p1, q.p2, d, pos, left, e, upper, p);
      } else if p in EdgePoints(q.p2, q.p3, d, pos, left) {
        EdgePointReaches(q.p2, q.p3, d, pos, left, e, upper, p);
      } else {
        EdgePointReaches(q.p3, q.p0, d, pos, left, e, upper, p);
      }
    }
  }

  lemma NoPoints(ps: seq<Vec3>)
    ensures BoxOf(ps).Box? ==> ps != []
  {
  }

  lemma EdgeInside(box: Box, a: Vec3, b: Vec3, d: nat, pos: real, left: bool, e: nat, upper: bool, v: real)
    requires HoldsEdge(box, a, b, d, pos, left)
    ensures EdgeReaches(a, b, d, pos, left, e, upper, v) ==> box.Box? && v <= Bound(box, e, upper)
  {
    hide CrossPoint, Height, Toward, Bound, Crosses;
    if Height(a, d, pos, left) <= 0.0 {
      InBound(a, box, e, upper);
    }
    if Crosses(a, b, d, pos) {
      InBound(CrossPoint(a, b, d, pos), box, e, upper);
    }
  }

  lemma EdgePointReaches(a: Vec3, b: Vec3, d: nat, pos: real, left: bool, e: nat, upper: bool, p: Vec3)
    requires p in EdgePoints(a, b, d, pos, left)
    ensures forall v: real :: v <= Toward(p, e, upper) ==> EdgeReaches(a, b, d, pos, left, e, upper, v)
  {
    hide CrossPoint, Toward;
  }

  /** The condition on the corners says that the crossing of the diagonal lies
      in the box of the side. */
  lemma HeldIsInside(q: Corners4, d: nat, pos: real, left: bool)
    requires Crosses(q.p1, q.p3, d, pos)
    ensures DiagonalHeld(q, d, pos, left) <==> In(CrossPoint(q.p1, q.p3, d, pos), SideBox(q.Outline(), d, pos, left))
  {
    hide CrossPoint, SideBox, Reached, Crosses, In, Toward, Bound;
    var c, box := CrossPoint(q.p1, q.p3, d, pos), SideBox(q.Outline(), d, pos, left);
    forall e: nat, upper: bool
      ensures Reached(q, d, pos, left, e, upper, Toward(c, e, upper)) <==> box.Box? && Toward(c, e, upper) <= Bound(box, e, upper)
    {
      BoxReached(q, d, pos, left, e, upper, Toward(c, e, upper));
    }
    InBounds(c, box);
    if DiagonalHeld(q, d, pos, left) {
      assert Reached(q, d, pos, left, 0, true, Toward(c, 0, true));
    }
  }

  lemma InBounds(p: Vec3, b: Box)
    ensures In(p, b) <==> b.Box? && forall e: nat, upper: bool :: e < 3 ==> Toward(p, e, upper) <= Bound(b, e, upper)
  {
    if b.Box? && forall e: nat, upper: bool :: e < 3 ==> Toward(p, e, upper) <= Bound(b, e, upper) {
      assert Toward(p, 0, true) <= Bound(b, 0, true) && Toward(p, 0, false) <= Bound(b, 0, false);
      assert Toward(p, 1, true) <= Bound(b, 1, true) && Toward(p, 1, false) <= Bound(b, 1, false);
      assert Toward(p, 2, true) <= Bound(b, 2, true) && Toward(p, 2, false) <= Bound(b, 2, false);
    }
  }

  lemma CrossSym(a: Vec3, b: Vec3, d: nat, pos: real)
    requires Crosses(a, b, d, pos)
    ensures CrossPoint(b, a, d, pos) == CrossPoint(a, b, d, pos)
  {
    hide CrossAt, Lerp, Axis;
    var s, t := CrossAt(Axis(a, d), Axis(b, d), pos), CrossAt(Axis(b, d), Axis(a, d), pos);
    CrossAtSum(Axis(a, d), Axis(b, d), pos);
    LerpSym(a.x, b.x, s, t);
    LerpSym(a.y, b.y, s, t);
    LerpSym(a.z, b.z, s, t);
  }

  lemma CrossAtSum(a: real, b: real, pos: real)
    requires a != b
    ensures CrossAt(a, b, pos) + CrossAt(b, a, pos) == 1.0
    ensures a < pos < b || b < pos < a ==> 0.0 < CrossAt(a, b, pos) < 1.0
  {
    hide CrossAt;
    CrossTimes(a, b, pos);
    CrossTimes(b, a, pos);
    var s, t, w := CrossAt(a, b, pos), CrossAt(b, a, pos), b - a;
    SumOne(s, t, w, pos - a, pos - b);
  }

  lemma SumOne(s: real, t: real, w: real, u: real, v: real)
    requires w != 0.0 && s * w == u && t * -w == v && u - v == w
    ensures s + t == 1.0
    ensures (0.0 < u < w || w < u < 0.0) ==> 0.0 < s < 1.0
  {
    assert (s + t - 1.0) * w == 0.0;
  }

  lemma LerpSym(a: real, b: real, s: real, t: real)
    requires s + t == 1.0
    ensures Lerp(a, b, s) == Lerp(b, a, t)
  {
    assert t == 1.0 - s;
  }

  /** A crossing is a point of the triangle on the plane. */
  lemma CrossInTriangle(p: Vec3, a: Vec3, b: Vec3, d: nat, pos: real)
    requires Crosses(a, b, d, pos)
    ensures var t := CrossAt(Axis(a, d), Axis(b, d), pos);
      InTriangle(CrossPoint(a, b, d, pos), p, a, b, 0.0, 1.0 - t, t)
    ensures Axis(CrossPoint(a, b, d, pos), d) == pos
  {
    hide CrossAt, Axis;
    var t := CrossAt(Axis(a, d), Axis(b, d), pos);
    CrossAtSum(Axis(a, d), Axis(b, d), pos);
    CrossAxis(a, b, t, d);
    CrossTimes(Axis(a, d), Axis(b, d), pos);
  }

  lemma HoldsCorner(box: Box, a: Vec3, b: Vec3, c: Vec3, d: nat, pos: real, left: bool)
    requires HoldsEdge(box, a, b, d, pos, left) && (Crosses(a, c, d, pos) ==> In(CrossPoint(a, c, d, pos), box))
    ensures HoldsEdge(box, a, c, d, pos, left)
  {
  }

  /** With the diagonal held a side keeps all its points. */
  lemma QuadPointCovered(q: Corners4, d: nat, pos: real, left: bool, x: Vec3, a: real, b: real, c: real)
    requires DiagonalHeld(q, d, pos, left)
    requires OnQuad(x, q, a, b, c) && Height(x, d, pos, left) <= 0.0
    ensures In(x, SideBox(q.Outline(), d, pos, left))
  {
    hide SideBox, InTriangle, In, Height, CrossPoint, HoldsEdge, DiagonalHeld;
    var box := SideBox(q.Outline(), d, pos, left);
    QuadEdges(q, d, pos, left);
    if Crosses(q.p1, q.p3, d, pos) {
      HeldIsInside(q, d, pos, left);
      CrossSym(q.p1, q.p3, d, pos);
    }
    HoldsCorner(box, q.p1, q.p2, q.p3, d, pos, left);
    HoldsCorner(box, q.p3, q.p0, q.p1, d, pos, left);
    if InTriangle(x, q.p0, q.p1, q.p3, a, b, c) {
      SideCovered(box, q.p0, q.p1, q.p3, d, pos, left, a, b, c, x);
    } else {
      SideCovered(box, q.p2, q.p3, q.p1, d, pos, left, a, b, c, x);
    }
  }

  /** The box of one side holds no point strictly on the other. */
  lemma OtherSide(q: Corners4, d: nat, pos: real, left: bool, x: Vec3)
    requires In(x, SideBox(q.Outline(), d, pos, !left))
    ensures 0.0 <= Height(x, d, pos, left)
  {
    hide BoxOf, SidePoints, CrossPoint, Crosses;
    var ps := SidePoints(q.Outline(), d, pos, !left);
    NoPoints(ps);
    InBound(x, BoxOf(ps), d, !left);
    var p := BoxOfAttained(ps, d, !left);
    SidePointsQuad(q, d, pos, !left);
    if p in EdgePoints(q.p0, q.p1, d, pos, !left) {
      EdgePointHeight(q.p0, q.p1, d, pos, left, p);
    } else if p in EdgePoints(q.p1, q.p2, d, pos, !left) {
      EdgePointHeight(q.p1, q.p2, d, pos, left, p);
    } else if p in EdgePoints(q.p2, q.p3, d, pos, !left) {
      EdgePointHeight(q.p2, q.p3, d, pos, left, p);
    } else {
      EdgePointHeight(q.p3, q.p0, d, pos, left, p);
    }
  }

  lemma EdgePointHeight(a: Vec3, b: Vec3, d: nat, pos: real, left: bool, p: Vec3)
    requires p in EdgePoints(a, b, d, pos, !left)
    ensures 0.0 <= Height(p, d, pos, left)
  {
    hide CrossPoint, Axis;
    if Crosses(a, b, d, pos) {
      CrossInTriangle(a, a, b, d, pos);
    }
  }

  /** A point of the diagonal. */
  function OnDiagonal(q: Corners4, u: real): Vec3 {
    Blend(0.0, 1.0 - u, u, q.p0, q.p1, q.p3)
  }

  /** Where the crossing of the diagonal is not held, a point of the diagonal
      strictly on that side is in neither box. */
  lemma DiagonalLost(q: Corners4, d: nat, pos: real, left: bool) returns (u: real)
    requires !DiagonalHeld(q, d, pos, left)
    ensures 0.0 <= u <= 1.0 && OnQuad(OnDiagonal(q, u), q, 0.0, 1.0 - u, u)
    ensures Height(OnDiagonal(q, u), d, pos, left) < 0.0
    ensures !In(OnDiagonal(q, u), SideBox(q.Outline(), d, pos, left))
    ensures !In(OnDiagonal(q, u), SideBox(q.Outline(), d, pos, !left))
  {
    hide SideBox, CrossPoint, Crosses, Reached, Toward, Bound, Blend, Height;
    var c, box := CrossPoint(q.p1, q.p3, d, pos), SideBox(q.Outline(), d, pos, left);
    var e: nat, upper: bool :| e < 3 && !Reached(q, d, pos, left, e, upper, Toward(c, e, upper));
    BoxReached(q, d, pos, left, e, upper, Toward(c, e, upper));
    var near := SideEnd(q, d, pos, left);
    QuadEdges(q, d, pos, left);
    InBound(if near then q.p1 else q.p3, box, e, upper);
    u := Before(q, d, pos, left, near, e, upper, Bound(box, e, upper));
    if In(OnDiagonal(q, u), box) {
      InBound(OnDiagonal(q, u), box, e, upper);
    }
    if In(OnDiagonal(q, u), SideBox(q.Outline(), d, pos, !left)) {
      OtherSide(q, d, pos, left, OnDiagonal(q, u));
    }
  }

  /** Which end of a crossing diagonal is on the side: is it p1? */
  function SideEnd(q: Corners4, d: nat, pos: real, left: bool): (near: bool)
    requires Crosses(q.p1, q.p3, d, pos)
    ensures Height(if near then q.p1 else q.p3, d, pos, left) < 0.0 && 0.0 < Height(if near then q.p3 else q.p1, d, pos, left)
  {
    Height(q.p1, d, pos, left) < 0.0
  }

  /** Between the crossing and the end on the side there is a point of the
      diagonal that is still farther than H. */
  lemma Before(q: Corners4, d: nat, pos: real, left: bool, near: bool, e: nat, upper: bool, H: real) returns (u: real)
    requires Crosses(q.p1, q.p3, d, pos) && near == SideEnd(q, d, pos, left)
    requires Toward(if near then q.p1 else q.p3, e, upper) <= H < Toward(CrossPoint(q.p1, q.p3, d, pos), e, upper)
    ensures 0.0 <= u <= 1.0 && OnQuad(OnDiagonal(q, u), q, 0.0, 1.0 - u, u)
    ensures Height(OnDiagonal(q, u), d, pos, left) < 0.0 && H < Toward(OnDiagonal(q, u), e, upper)
  {
    hide Crosses, CrossAt, Blend, Axis;
    var t := CrossAt(Axis(q.p1, d), Axis(q.p3, d), pos);
    CrossAtSum(Axis(q.p1, d), Axis(q.p3, d), pos);
    CrossOnDiagonal(q, d, pos);
    assert 0.0 < t < 1.0 by {
      CrossStrict(q, d, pos);
    }
    var se, c := Toward(if near then q.p1 else q.p3, e, upper), Toward(OnDiagonal(q, t), e, upper);
    var r := HalfWayTo(se, c, H);
    u := if near then t - Times(t, r) else t + Times(1.0 - t, r);
    Fractions(t, r);
    DiagonalMix(q, t, r, near, e, upper);
    DiagonalHeight(q, t, r, near, d, pos, left);
  }

  lemma CrossStrict(q: Corners4, d: nat, pos: real)
    requires Crosses(q.p1, q.p3, d, pos)
    ensures 0.0 < CrossAt(Axis(q.p1, d), Axis(q.p3, d), pos) < 1.0
  {
    hide CrossAt;
    CrossAtSum(Axis(q.p1, d), Axis(q.p3, d), pos);
  }

  lemma CrossOnDiagonal(q: Corners4, d: nat, pos: real)
    requires Crosses(q.p1, q.p3, d, pos)
    ensures var t := CrossAt(Axis(q.p1, d), Axis(q.p3, d), pos);
      CrossPoint(q.p1, q.p3, d, pos) == OnDiagonal(q, t) && Axis(OnDiagonal(q, t), d) == pos
  {
    hide CrossAt;
    CrossInTriangle(q.p0, q.p1, q.p3, d, pos);
  }

  /** The share of the way from c to s that leaves half the excess over H. */
  lemma HalfWayTo(s: real, c: real, H: real) returns (r: real)
    requires s <= H < c
    ensures 0.0 < r < 1.0 && H < c - Times(r, c - s)
  {
    r := (c - H) / (2.0 * (c - s));
    ProperShare(r, 2.0 * (c - s), c - H);
  }

  lemma ProperShare(r: real, w: real, u: real)
    requires 0.0 < u < w && r == u / w
    ensures 0.0 < r < 1.0 && r * w == u
  {
    assert r * w == u;
    assert (1.0 - r) * w == w - u;
    SameSign(r, w);
    SameSign(1.0 - r, w);
  }

  lemma SameSign(a: real, w: real)
    requires 0.0 < w
    ensures 0.0 < a * w ==> 0.0 < a
  {
    if a <= 0.0 {
      NotPositive(w, a);
    }
  }

  lemma Fractions(t: real, r: real)
    requires 0.0 < t < 1.0 && 0.0 < r < 1.0
    ensures 0.0 <= t - Times(t, r) <= 1.0 && 0.0 <= t + Times(1.0 - t, r) <= 1.0
  {
    hide Times;
    Part(t, r);
    Part(1.0 - t, r);
  }

  lemma Part(a: real, r: real)
    requires 0.0 <= a && 0.0 <= r <= 1.0
    ensures 0.0 <= Times(a, r) <= a
  {
    Weighted(a, 0.0, r);
    Weighted(a, r, 1.0);
  }

  /** The point of share r from the crossing to an end of the diagonal. */
  lemma DiagonalMix(q: Corners4, t: real, r: real, near: bool, e: nat, upper: bool)
    ensures var u := if near then t - Times(t, r) else t + Times(1.0 - t, r);
      var c := Toward(OnDiagonal(q, t), e, upper);
      Toward(OnDiagonal(q, u), e, upper) == c - Times(r, c - Toward(if near then q.p1 else q.p3, e, upper))
  {
    hide Blend, Axis;
    var u := if near then t - Times(t, r) else t + Times(1.0 - t, r);
    BlendAxis(OnDiagonal(q, t), q.p0, q.p1, q.p3, 0.0, 1.0 - t, t, e);
    BlendAxis(OnDiagonal(q, u), q.p0, q.p1, q.p3, 0.0, 1.0 - u, u, e);
    MixValues(Axis(q.p0, e), Axis(q.p1, e), Axis(q.p3, e), t, r);
  }

  lemma MixValues(z: real, a: real, b: real, t: real, r: real)
    ensures var c, u := Times(0.0, z) + Times(1.0 - t, a) + Times(t, b), t - Times(t, r);
      Times(0.0, z) + Times(1.0 - u, a) + Times(u, b) == c - Times(r, c - a)
      && -(Times(0.0, z) + Times(1.0 - u, a) + Times(u, b)) == -c - Times(r, -c + a)
    ensures var c, u := Times(0.0, z) + Times(1.0 - t, a) + Times(t, b), t + Times(1.0 - t, r);
      Times(0.0, z) + Times(1.0 - u, a) + Times(u, b) == c - Times(r, c - b)
      && -(Times(0.0, z) + Times(1.0 - u, a) + Times(u, b)) == -c - Times(r, -c + b)
  {
  }

  lemma DiagonalHeight(q: Corners4, t: real, r: real, near: bool, d: nat, pos: real, left: bool)
    requires 0.0 < r && Axis(OnDiagonal(q, t), d) == pos && Height(if near then q.p1 else q.p3, d, pos, left) < 0.0
    ensures var u := if near then t - Times(t, r) else t + Times(1.0 - t, r); Height(OnDiagonal(q, u), d, pos, left) < 0.0
  {
    hide Blend, Axis;
    DiagonalMix(q, t, r, near, d, left);
    var h := Height(if near then q.p1 else q.p3, d, pos, left);
    assert r * -h > 0.0;
  }

  /** The split keeps every point of the quad inside the bounds in a half. */
  ghost predicate QuadKept(bounds: Box, d: nat, pos: real, q: Corners4) {
    forall x: Vec3, a: real, b: real, c: real :: OnQuad(x, q, a, b, c) && In(x, bounds) ==>
      In(x, QuadBox(bounds, d, pos, q, true)) || In(x, QuadBox(bounds, d, pos, q, false))
  }

  lemma QuadKeptIf(bounds: Box, d: nat, pos: real, q: Corners4)
    requires DiagonalHeld(q, d, pos, true) && DiagonalHeld(q, d, pos, false)
    ensures QuadKept(bounds, d, pos, q)
  {
    hide OnQuad, In, SideBox, Intersect, DiagonalHeld;
    forall x: Vec3, a: real, b: real, c: real | OnQuad(x, q, a, b, c) && In(x, bounds)
      ensures In(x, QuadBox(bounds, d, pos, q, true)) || In(x, QuadBox(bounds, d, pos, q, false))
    {
      var left := Height(x, d, pos, true) <= 0.0;
      QuadPointCovered(q, d, pos, left, x, a, b, c);
      InBoth(x, SideBox(q.Outline(), d, pos, left), bounds);
    }
  }

  lemma QuadLoses(bounds: Box, d: nat, pos: real, q: Corners4, left: bool) returns (x: Vec3, b: real, c: real)
    requires !DiagonalHeld(q, d, pos, left) && In(q.p1, bounds) && In(q.p3, bounds)
    ensures OnQuad(x, q, 0.0, b, c) && In(x, bounds) && Height(x, d, pos, left) < 0.0
    ensures !In(x, QuadBox(bounds, d, pos, q, true)) && !In(x, QuadBox(bounds, d, pos, q, false))
  {
    hide OnQuad, In, SideBox, Intersect, DiagonalHeld, OnDiagonal;
    var u := DiagonalLost(q, d, pos, left);
    x, b, c := OnDiagonal(q, u), 1.0 - u, u;
    DiagonalInside(q, u, bounds);
    InBoth(x, SideBox(q.Outline(), d, pos, true), bounds);
    InBoth(x, SideBox(q.Outline(), d, pos, false), bounds);
    assert left || !left;
  }

  lemma DiagonalInside(q: Corners4, u: real, bounds: Box)
    requires In(q.p1, bounds) && In(q.p3, bounds) && 0.0 <= u <= 1.0
    ensures In(OnDiagonal(q, u), bounds)
  {
    BetweenEnds(q.p0.x, q.p1.x, q.p3.x, u, bounds.lo.x, bounds.hi.x);
    BetweenEnds(q.p0.y, q.p1.y, q.p3.y, u, bounds.lo.y, bounds.hi.y);
    BetweenEnds(q.p0.z, q.p1.z, q.p3.z, u, bounds.lo.z, bounds.hi.z);
  }

  lemma BetweenEnds(z: real, a: real, b: real, u: real, lo: real, hi: real)
    requires lo <= a <= hi && lo <= b <= hi && 0.0 <= u <= 1.0
    ensures lo <= Times(0.0, z) + Times(1.0 - u, a) + Times(u, b) <= hi
  {
    Above(a, b, 1.0 - u, u, lo);
    Above(-a, -b, 1.0 - u, u, -hi);
    Negate(0.0, 1.0 - u, u, z, a, b);
    NoTerm(z);
  }

  lemma Above(a: real, b: real, v: real, u: real, lo: real)
    requires lo <= a && lo <= b && 0.0 <= u && 0.0 <= v && v + u == 1.0
    ensures lo <= Times(v, a) + Times(u, b)
  {
    hide Times;
    LowerTerm(v, lo, a);
    LowerTerm(u, lo, b);
    Whole(v, u, 0.0, lo);
    NoTerm(lo);
  }

  lemma LowerTerm(a: real, x: real, y: real)
    requires 0.0 <= a && x <= y
    ensures Times(a, x) <= Times(a, y)
  {
    Weighted(a, x, y);
  }

  lemma NoTerm(x: real)
    ensures Times(0.0, x) == 0.0
  {
  }

  /** Splitting a quad keeps all its points in some half exactly when the
      diagonal is held on both sides: for every bounds that contain the
      diagonal, such as the box of a quad that was not split before. */
  lemma QuadKeptIff(bounds: Box, d: nat, pos: real, q: Corners4)
    ensures DiagonalHeld(q, d, pos, true) && DiagonalHeld(q, d, pos, false) ==> QuadKept(bounds, d, pos, q)
    ensures In(q.p1, bounds) && In(q.p3, bounds) ==>
              (QuadKept(bounds, d, pos, q) <==> DiagonalHeld(q, d, pos, true) && DiagonalHeld(q, d, pos, false))
  {
    hide OnQuad, In, QuadBox, DiagonalHeld;
    if DiagonalHeld(q, d, pos, true) && DiagonalHeld(q, d, pos, false) {
      QuadKeptIf(bounds, d, pos, q);
    } else if In(q.p1, bounds) && In(q.p3, bounds) {
      var x, b, c := QuadLoses(bounds, d, pos, q, !DiagonalHeld(q, d, pos, true));
    }
  }

  /** The same without a condition on the bounds: the split is safe in all
      bounds exactly when the diagonal is held. */
  lemma QuadKeptAlwaysIff(d: nat, pos: real, q: Corners4)
    ensures (forall bounds: Box :: QuadKept(bounds, d, pos, q)) <==> DiagonalHeld(q, d, pos, true) && DiagonalHeld(q, d, pos, false)
  {
    hide QuadKept, DiagonalHeld;
    forall bounds: Box
      ensures DiagonalHeld(q, d, pos, true) && DiagonalHeld(q, d, pos, false) ==> QuadKept(bounds, d, pos, q)
    {
      QuadKeptIff(bounds, d, pos, q);
    }
    var own := BoxOf(q.Outline());
    BoxOfContains(q.Outline(), 1);
    BoxOfContains(q.Outline(), 3);
    QuadKeptIff(own, d, pos, q);
  }

  /** Splitting a quad at the planes of the grid. */
  function QuadSplitter(planes: Planes, q: Corners4): Presplit.Splitter {
    (prim: PrimRef) =>
      match planes(prim)
      case None => None
      case Some((d, pos)) =>
        Some((PrimRef(QuadBox(prim.bounds, d, pos, q, true), prim.geomID, prim.primID),
              PrimRef(QuadBox(prim.bounds, d, pos, q, false), prim.geomID, prim.primID)))
  }

  /** The diagonal is held at every plane at which the recursion splits. */
  ghost predicate HeldThroughout(planes: Planes, q: Corners4, prim: PrimRef, k: nat)
    decreases k
  {
    k <= 1 || planes(prim).None? ||
    (var (d, pos) := planes(prim).value;
     var (l, r) := QuadSplitter(planes, q)(prim).value;
     && DiagonalHeld(q, d, pos, true) && DiagonalHeld(q, d, pos, false)
     && HeldThroughout(planes, q, l, k / 2) && HeldThroughout(planes, q, r, k - k / 2))
  }

  /** The parts of a quad reference cover what it covered when the diagonal is
      held at every split. */
  lemma {:induction false} QuadPartsCover(planes: Planes, q: Corners4, prim: PrimRef, k: nat, a: real, b: real, c: real, x: Vec3)
    returns (i: nat)
    requires 1 <= k && OnQuad(x, q, a, b, c) && In(x, prim.bounds) && HeldThroughout(planes, q, prim, k)
    ensures var parts := Presplit.SubPrims(QuadSplitter(planes, q), prim, k);
      i < |parts| <= k && In(x, parts[i].bounds)
    decreases k
  {
    hide In, OnQuad, QuadBox, DiagonalHeld;
    i := 0;
    var sp := QuadSplitter(planes, q);
    if k != 1 && planes(prim).Some? {
      var (d, pos) := planes(prim).value;
      var (l, r) := sp(prim).value;
      QuadKeptIf(prim.bounds, d, pos, q);
      if In(x, l.bounds) {
        i := QuadPartsCover(planes, q, l, k / 2, a, b, c, x);
      } else {
        var j := QuadPartsCover(planes, q, r, k - k / 2, a, b, c, x);
        i := |Presplit.SubPrims(sp, l, k / 2)| + j;
      }
    }
  }

  /** Parts stay within their reference. */
  lemma {:induction false} QuadPartsInside(planes: Planes, q: Corners4, prim: PrimRef, k: nat, i: nat, x: Vec3)
    requires 1 <= k && i < |Presplit.SubPrims(QuadSplitter(planes, q), prim, k)|
    requires In(x, Presplit.SubPrims(QuadSplitter(planes, q), prim, k)[i].bounds)
    ensures In(x, prim.bounds)
    decreases k
  {
    hide In, SideBox, Intersect, Presplit.SubPrims;
    var sp := QuadSplitter(planes, q);
    Presplit.SubPrimsCases(sp, prim, k);
    if k != 1 && planes(prim).Some? {
      var (d, pos) := planes(prim).value;
      var (l, r) := sp(prim).value;
      var n := |Presplit.SubPrims(sp, l, k / 2)|;
      if i < n {
        QuadPartsInside(planes, q, l, k / 2, i, x);
        InBoth(x, SideBox(q.Outline(), d, pos, true), prim.bounds);
      } else {
        QuadPartsInside(planes, q, r, k - k / 2, i - n, x);
        InBoth(x, SideBox(q.Outline(), d, pos, false), prim.bounds);
      }
    }
  }

  /** What the first split loses stays lost, however many parts follow. */
  lemma QuadPartsLose(planes: Planes, q: Corners4, prim: PrimRef, k: nat) returns (x: Vec3, b: real, c: real)
    requires 2 <= k && planes(prim).Some? && In(q.p1, prim.bounds) && In(q.p3, prim.bounds)
    requires var (d, pos) := planes(prim).value; !DiagonalHeld(q, d, pos, true) || !DiagonalHeld(q, d, pos, false)
    ensures OnQuad(x, q, 0.0, b, c) && In(x, prim.bounds)
    ensures forall i: nat :: i < |Presplit.SubPrims(QuadSplitter(planes, q), prim, k)| ==>
              !In(x, Presplit.SubPrims(QuadSplitter(planes, q), prim, k)[i].bounds)
  {
    hide In, OnQuad, QuadBox, DiagonalHeld;
    var (d, pos) := planes(prim).value;
    x, b, c := QuadLoses(prim.bounds, d, pos, q, !DiagonalHeld(q, d, pos, true));
    var sp := QuadSplitter(planes, q);
    var (l, r) := sp(prim).value;
    var n := |Presplit.SubPrims(sp, l, k / 2)|;
    forall i: nat | i < |Presplit.SubPrims(sp, prim, k)|
      ensures !In(x, Presplit.SubPrims(sp, prim, k)[i].bounds)
    {
      if In(x, Presplit.SubPrims(sp, prim, k)[i].bounds) {
        if i < n {
          QuadPartsInside(planes, q, l, k / 2, i, x);
        } else {
          QuadPartsInside(planes, q, r, k - k / 2, i - n, x);
        }
      }
    }
  }

  // ----- quads whose diagonals cross

  /** The diagonals of the quad have a common point: it is flat and convex. */
  predicate DiagonalsCross(q: Corners4, a: real, b: real) {
    && 0.0 <= a <= 1.0 && 0.0 < b < 1.0
    && Blend(0.0, 1.0 - a, a, q.p1, q.p0, q.p2) == Blend(0.0, 1.0 - b, b, q.p0, q.p1, q.p3)
  }

  /** Two points under a line through H at height 0 have their crossing below H. */
  lemma LineCross(pe: real, ph: real, qe: real, qh: real, H: real, m: real)
    requires ph < 0.0 < qh && UnderLine(pe, ph, H, m) && UnderLine(qe, qh, H, m)
    ensures CrossBelow(pe, ph, qe, qh, H)
  {
    Weighted(qh, pe, H + m * ph);
    Weighted(-ph, qe, H + m * qh);
    assert qh * (H + m * ph) + -ph * (H + m * qh) == H * (qh - ph);
  }

  /** The fourth corner of a flat quad is under the line when two are and the
      opposite one is on it. */
  lemma FourthUnder(e0: real, h0: real, e1: real, h1: real, e2: real, h2: real, e3: real, h3: real, H: real, m: real, a: real, b: real)
    requires 0.0 <= a <= 1.0 && 0.0 <= b < 1.0
    requires Times(1.0 - a, e0) + Times(a, e2) == Times(1.0 - b, e1) + Times(b, e3)
    requires Times(1.0 - a, h0) + Times(a, h2) == Times(1.0 - b, h1) + Times(b, h3)
    requires UnderLine(e0, h0, H, m) && UnderLine(e2, h2, H, m) && e3 == H + m * h3
    ensures UnderLine(e1, h1, H, m)
  {
    hide Times, UnderLine;
    var f0, f1, f2 := e0 - H - m * h0, e1 - H - m * h1, e2 - H - m * h2;
    Excess(e0, h0, H, m);
    Excess(e1, h1, H, m);
    Excess(e2, h2, H, m);
    MixExcess(e0, h0, e2, h2, H, m, a);
    MixExcess(e1, h1, e3, h3, H, m, b);
    NoTimes(b, e3 - H - m * h3);
    Below(1.0 - a, f0);
    Below(a, f2);
    NotAbove(1.0 - b, f1);
  }

  lemma Excess(e: real, h: real, H: real, m: real)
    ensures UnderLine(e, h, H, m) <==> e - H - m * h <= 0.0
  {
  }

  lemma MixExcess(e: real, h: real, f: real, k: real, H: real, m: real, t: real)
    ensures Times(1.0 - t, e) + Times(t, f) - H - Times(m, Times(1.0 - t, h) + Times(t, k))
         == Times(1.0 - t, e - H - m * h) + Times(t, f - H - m * k)
  {
  }

  lemma NoTimes(a: real, x: real)
    ensures x == 0.0 ==> Times(a, x) == 0.0
  {
  }

  lemma Below(a: real, x: real)
    requires 0.0 <= a
    ensures x <= 0.0 ==> Times(a, x) <= 0.0
  {
    if x <= 0.0 {
      NotPositive(a, x);
    }
  }

  lemma NotAbove(w: real, x: real)
    requires 0.0 < w
    ensures Times(w, x) <= 0.0 ==> x <= 0.0
  {
    if 0.0 < x {
      assert 0.0 < w * x;
    }
  }

  /** Where the edges stay below H, the diagonal between 1 and 3 does, too. */
  lemma ConvexBelow(e0: real, h0: real, e1: real, h1: real, e2: real, h2: real, e3: real, h3: real, H: real, a: real, b: real)
    requires h1 < 0.0 < h3 && e1 <= H && (h0 <= 0.0 ==> e0 <= H) && (h2 <= 0.0 ==> e2 <= H)
    requires CrossBelow(e1, h1, e0, h0, H) && CrossBelow(e1, h1, e2, h2, H) && CrossBelow(e0, h0, e3, h3, H) && CrossBelow(e2, h2, e3, h3, H)
    requires 0.0 <= a <= 1.0 && 0.0 <= b < 1.0
    requires Times(1.0 - a, e0) + Times(a, e2) == Times(1.0 - b, e1) + Times(b, e3)
    requires Times(1.0 - a, h0) + Times(a, h2) == Times(1.0 - b, h1) + Times(b, h3)
    ensures CrossBelow(e1, h1, e3, h3, H)
  {
    hide Times, UnderLine, CrossBelow;
    var m := (e3 - H) / h3;
    var far := 3;
    if 0.0 < h0 && (e0 - H) / h0 > m { m, far := (e0 - H) / h0, 0; }
    if 0.0 < h2 && (e2 - H) / h2 > m { m, far := (e2 - H) / h2, 2; }
    SlopeAbove(e3, h3, H, m);
    if far == 0 {
      SlopeBelow(e1, h1, e0, h0, H, m);
    } else if far == 2 {
      SlopeBelow(e1, h1, e2, h2, H, m);
    } else {
      SideUnder(e0, h0, e3, h3, H, m);
      SideUnder(e2, h2, e3, h3, H, m);
      assert m * h3 == e3 - H;
      FourthUnder(e0, h0, e1, h1, e2, h2, e3, h3, H, m, a, b);
    }
    LineCross(e1, h1, e3, h3, H, m);
  }

  lemma SideUnder(e: real, h: real, e3: real, h3: real, H: real, m: real)
    requires 0.0 < h3 && m == (e3 - H) / h3 && (h <= 0.0 ==> e <= H) && CrossBelow(e, h, e3, h3, H)
    requires 0.0 < h ==> (e - H) / h <= m
    ensures UnderLine(e, h, H, m)
  {
    if 0.0 < h {
      SlopeAbove(e, h, H, m);
    } else {
      SlopeBelow(e, h, e3, h3, H, m);
    }
  }

  /** One coordinate of the crossing of the diagonal. */
  lemma CrossingBelow(q: Corners4, d: nat, pos: real, left: bool, e: nat, upper: bool, a: real, b: real)
    requires Crosses(q.p1, q.p3, d, pos) && DiagonalsCross(q, a, b)
    ensures var box := SideBox(q.Outline(), d, pos, left);
      box.Box? && Toward(CrossPoint(q.p1, q.p3, d, pos), e, upper) <= Bound(box, e, upper)
  {
    hide SideBox, CrossPoint, Crosses, Toward, Bound, CrossBelow, Times, HoldsEdge, Height, Blend;
    var box := SideBox(q.Outline(), d, pos, left);
    QuadEdges(q, d, pos, left);
    var near := SideEnd(q, d, pos, left);
    SideCorner(box, if near then q.p1 else q.p3, if near then q.p2 else q.p0, d, pos, left);
    var H := Bound(box, e, upper);
    EdgeBelow(box, q.p0, q.p1, d, pos, left, e, upper);
    EdgeBelow(box, q.p1, q.p2, d, pos, left, e, upper);
    EdgeBelow(box, q.p2, q.p3, d, pos, left, e, upper);
    EdgeBelow(box, q.p3, q.p0, d, pos, left, e, upper);
    var e0, e1, e2, e3 := Toward(q.p0, e, upper), Toward(q.p1, e, upper), Toward(q.p2, e, upper), Toward(q.p3, e, upper);
    var h0, h1, h2, h3 := Height(q.p0, d, pos, left), Height(q.p1, d, pos, left), Height(q.p2, d, pos, left), Height(q.p3, d, pos, left);
    CommonPoint(q, d, pos, left, e, upper, a, b);
    if near {
      ConvexBelow(e0, h0, e1, h1, e2, h2, e3, h3, H, a, b);
    } else {
      ConvexBelow(e0, h0, e3, h3, e2, h2, e1, h1, H, a, 1.0 - b);
    }
    CrossingUnder(q, d, pos, left, e, upper, H);
  }

  lemma SideCorner(box: Box, a: Vec3, b: Vec3, d: nat, pos: real, left: bool)
    requires HoldsEdge(box, a, b, d, pos, left) && Height(a, d, pos, left) <= 0.0
    ensures box.Box?
  {
  }

  /** The common point of the diagonals in two coordinates. */
  lemma CommonPoint(q: Corners4, d: nat, pos: real, left: bool, e: nat, upper: bool, a: real, b: real)
    requires DiagonalsCross(q, a, b)
    ensures Times(1.0 - a, Toward(q.p0, e, upper)) + Times(a, Toward(q.p2, e, upper))
         == Times(1.0 - b, Toward(q.p1, e, upper)) + Times(b, Toward(q.p3, e, upper))
    ensures Times(1.0 - a, Height(q.p0, d, pos, left)) + Times(a, Height(q.p2, d, pos, left))
         == Times(1.0 - b, Height(q.p1, d, pos, left)) + Times(b, Height(q.p3, d, pos, left))
  {
    hide Toward, Height, Times, Blend;
    var x := OnDiagonal(q, b);
    BlendToward(x, q.p0, q.p1, q.p3, 0.0, 1.0 - b, b, e, upper);
    BlendToward(x, q.p1, q.p0, q.p2, 0.0, 1.0 - a, a, e, upper);
    BlendHeight(x, q.p0, q.p1, q.p3, 0.0, 1.0 - b, b, d, pos, left);
    BlendHeight(x, q.p1, q.p0, q.p2, 0.0, 1.0 - a, a, d, pos, left);
    NoTerm(Toward(q.p0, e, upper));
    NoTerm(Toward(q.p1, e, upper));
    NoTerm(Height(q.p0, d, pos, left));
    NoTerm(Height(q.p1, d, pos, left));
  }

  lemma CrossingUnder(q: Corners4, d: nat, pos: real, left: bool, e: nat, upper: bool, H: real)
    requires Crosses(q.p1, q.p3, d, pos)
    requires var e1, h1, e3, h3 := Toward(q.p1, e, upper), Height(q.p1, d, pos, left), Toward(q.p3, e, upper), Height(q.p3, d, pos, left);
      if h1 < 0.0 then CrossBelow(e1, h1, e3, h3, H) else CrossBelow(e3, h3, e1, h1, H)
    ensures Toward(CrossPoint(q.p1, q.p3, d, pos), e, upper) <= H
  {
    hide CrossPoint, Axis;
    var c := CrossPoint(q.p1, q.p3, d, pos);
    CrossValue(q.p1, q.p3, d, pos, e);
    var e1, h1, e3, h3 := Toward(q.p1, e, upper), Height(q.p1, d, pos, left), Toward(q.p3, e, upper), Height(q.p3, d, pos, left);
    SignedCross(Axis(q.p1, e), Axis(q.p1, d) - pos, Axis(q.p3, e), Axis(q.p3, d) - pos, Axis(c, e), upper, left);
    assert Toward(c, e, upper) * (h3 - h1) == e1 * h3 - e3 * h1;
    ShareBelow(Toward(c, e, upper), h3 - h1, H);
  }

  lemma ShareBelow(c: real, w: real, H: real)
    requires w != 0.0
    ensures 0.0 < w && c * w <= H * w ==> c <= H
    ensures w < 0.0 && H * w <= c * w ==> c <= H
  {
    assert (c - H) * w == c * w - H * w;
    if H < c {
      if 0.0 < w {
        assert 0.0 < (c - H) * w;
      } else {
        assert 0.0 < (c - H) * -w;
      }
    }
  }

  /** Every split of a flat convex quad is safe. */
  lemma ConvexQuadHeld(q: Corners4, d: nat, pos: real, left: bool, a: real, b: real)
    requires DiagonalsCross(q, a, b)
    ensures DiagonalHeld(q, d, pos, left)
  {
    hide SideBox, CrossPoint, Crosses, Toward, Bound, Reached, DiagonalsCross;
    if Crosses(q.p1, q.p3, d, pos) {
      var c := CrossPoint(q.p1, q.p3, d, pos);
      forall e: nat, upper: bool | e < 3
        ensures Reached(q, d, pos, left, e, upper, Toward(c, e, upper))
      {
        CrossingBelow(q, d, pos, left, e, upper, a, b);
        BoxReached(q, d, pos, left, e, upper, Toward(c, e, upper));
      }
    }
  }

  lemma {:induction false} ConvexThroughout(planes: Planes, q: Corners4, prim: PrimRef, k: nat, a: real, b: real)
    requires DiagonalsCross(q, a, b)
    ensures HeldThroughout(planes, q, prim, k)
    decreases k
  {
    hide DiagonalHeld, DiagonalsCross, QuadBox;
    if 1 < k && planes(prim).Some? {
      var (d, pos) := planes(prim).value;
      var (l, r) := QuadSplitter(planes, q)(prim).value;
      ConvexQuadHeld(q, d, pos, true, a, b);
      ConvexQuadHeld(q, d, pos, false, a, b);
      ConvexThroughout(planes, q, l, k / 2, a, b);
      ConvexThroughout(planes, q, r, k - k / 2, a, b);
    }
  }

  /** The parts of a flat convex quad cover it at every depth and plane. */
  lemma ConvexQuadPartsCover(planes: Planes, q: Corners4, s: real, t: real, prim: PrimRef, k: nat, a: real, b: real, c: real, x: Vec3)
    returns (i: nat)
    requires 1 <= k && DiagonalsCross(q, s, t) && OnQuad(x, q, a, b, c) && In(x, prim.bounds)
    ensures var parts := Presplit.SubPrims(QuadSplitter(planes, q), prim, k);
      i < |parts| <= k && In(x, parts[i].bounds)
  {
    ConvexThroughout(planes, q, prim, k, s, t);
    i := QuadPartsCover(planes, q, prim, k, a, b, c, x);
  }

  /** A quad with a reflex corner: a point of its diagonal, inside its own box,
      is in neither half. */
  lemma QuadCounterexample()
    ensures var q := Corners4(Vec3(2.0, 0.0, 0.0), Vec3(0.0, 0.0, 0.0), Vec3(2.0, 0.1, 0.0), Vec3(2.0, 10.0, 0.0));
      var x, own := Vec3(0.8, 4.0, 0.0), BoxOf(q.Outline());
      && OnQuad(x, q, 0.0, 0.6, 0.4) && In(x, own)
      && !In(x, QuadBox(own, 0, 1.0, q, true)) && !In(x, QuadBox(own, 0, 1.0, q, false))
  {
    hide BoxOf, SideBox, OnQuad, OnDiagonal, In, Intersect;
    var q := Corners4(Vec3(2.0, 0.0, 0.0), Vec3(0.0, 0.0, 0.0), Vec3(2.0, 0.1, 0.0), Vec3(2.0, 10.0, 0.0));
    var x, own := Vec3(0.8, 4.0, 0.0), BoxOf(q.Outline());
    BoxOfContains(q.Outline(), 1);
    BoxOfContains(q.Outline(), 3);
    DiagonalInside(q, 0.4, own);
    DiagonalPoint(q, x);
    FlatLeft(q, x);
    if In(x, SideBox(q.Outline(), 0, 1.0, false)) {
      OtherSide(q, 0, 1.0, true, x);
    }
    InBoth(x, SideBox(q.Outline(), 0, 1.0, true), own);
    InBoth(x, SideBox(q.Outline(), 0, 1.0, false), own);
  }

  lemma DiagonalPoint(q: Corners4, x: Vec3)
    requires q.p1 == Vec3(0.0, 0.0, 0.0) && q.p3 == Vec3(2.0, 10.0, 0.0) && x == Vec3(0.8, 4.0, 0.0)
    ensures OnDiagonal(q, 0.4) == x && OnQuad(x, q, 0.0, 0.6, 0.4)
  {
  }

  lemma FlatLeft(q: Corners4, x: Vec3)
    requires q == Corners4(Vec3(2.0, 0.0, 0.0), Vec3(0.0, 0.0, 0.0), Vec3(2.0, 0.1, 0.0), Vec3(2.0, 10.0, 0.0)) && 0.1 < x.y
    ensures !In(x, SideBox(q.Outline(), 0, 1.0, true))
  {
    hide CrossPoint, BoxOf, SidePoints;
    SidePointsQuad(q, 0, 1.0, true);
    HalfWay(q.p0, q.p1);
    HalfWay(q.p1, q.p2);
    assert EdgePoints(q.p0, q.p1, 0, 1.0, true) == [Vec3(1.0, 0.0, 0.0)];
    assert EdgePoints(q.p1, q.p2, 0, 1.0, true) == [q.p1, Vec3(1.0, 0.05, 0.0)];
    assert EdgePoints(q.p2, q.p3, 0, 1.0, true) == [] && EdgePoints(q.p3, q.p0, 0, 1.0, true) == [];
    BoxOfInside(SidePoints(q.Outline(), 0, 1.0, true), Box(Vec3(0.0, 0.0, 0.0), Vec3(2.0, 0.1, 0.0)));
  }

  lemma HalfWay(a: Vec3, b: Vec3)
    requires (a.x == 0.0 && b.x == 2.0) || (a.x == 2.0 && b.x == 0.0)
    ensures Crosses(a, b, 0, 1.0) && CrossPoint(a, b, 0, 1.0) == Vec3(1.0, (a.y + b.y) / 2.0, (a.z + b.z) / 2.0)
  {
    assert CrossAt(a.x, b.x, 1.0) == 0.5;
  }
}
