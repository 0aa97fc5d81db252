/** The 64-byte internal node with six children: packed child references and
    child boxes quantised to 8 bits in a grid that is spanned by the node's box
    (rtbuild/qnode.h).  Floating-point numbers are exact reals; the widening by
    one ulp stays. */
module QNode {
  import opened Geometry

  const NUM_CHILDREN: nat := 6

  /** One unit in the last place of 1 in single precision. */
  const EPSILON: real := 1.0 / 8388608.0

  const NODE_TYPE_INTERNAL: nat := 0
  const NODE_TYPE_INSTANCE: nat := 1
  const NODE_TYPE_PROCEDURAL: nat := 3
  const NODE_TYPE_QUAD: nat := 4

  // ----- powers of two

  function Pow2(e: int): (r: real)
    ensures 0.0 < r
    decreases if e < 0 then -e else e
  {
    if e == 0 then 1.0 else if 0 < e then 2.0 * Pow2(e - 1) else Pow2(e + 1) / 2.0
  }

  lemma Pow2Next(e: int)
    ensures Pow2(e + 1) == 2.0 * Pow2(e)
  {
  }

  lemma {:induction false} Pow2Inverse(e: int)
    ensures Pow2(e) * Pow2(-e) == 1.0
    decreases e < 0, if e < 0 then -e else e
  {
    hide Pow2;
    if 0 < e {
      Pow2Inverse(e - 1);
      Pow2Next(e - 1);
      Pow2Next(-e);
      Halve(Pow2(e - 1), Pow2(-e));
    } else if e < 0 {
      Pow2Inverse(-e);
    } else {
      Pow2Zero();
    }
  }

  lemma Pow2Zero()
    ensures Pow2(0) == 1.0
  {
  }

  lemma Halve(a: real, b: real)
    requires a * (2.0 * b) == 1.0
    ensures (2.0 * a) * b == 1.0
  {
  }

  lemma {:induction false} Pow2Mono(e: int, f: int)
    requires e <= f
    ensures Pow2(e) <= Pow2(f)
    decreases f - e
  {
    if e < f {
      Pow2Mono(e, f - 1);
      Pow2Next(f - 1);
    }
  }

  lemma FloorHalf(len: real)
    requires 1.0 <= len
    ensures 0 <= (len / 2.0).Floor < len.Floor
  {
    var f := len.Floor;
    assert 1 <= f && len < f as real + 1.0;
  }

  /** Mantissa and exponent of a number. */
  predicate IsFrexp(len: real, r: (real, int)) {
    0.5 <= r.0 < 1.0 && len == r.0 * Pow2(r.1)
  }

  /** Scaling by two moves the exponent. */
  lemma DoubleFrexp(len: real, half: real, m: real, e: int)
    requires len == 2.0 * half
    ensures IsFrexp(half, (m, e)) <==> IsFrexp(len, (m, e + 1))
  {
    hide Pow2;
    Pow2Next(e);
  }

  lemma NoExponent(len: real)
    requires 0.5 <= len < 1.0
    ensures IsFrexp(len, (len, 0))
  {
    Pow2Zero();
  }

  function FrexpLarge(len: real): (r: (real, int))
    requires 0.5 <= len
    ensures IsFrexp(len, r)
    decreases len.Floor
  {
    hide IsFrexp;
    if len < 1.0 then
      NoExponent(len);
      (len, 0)
    else
      FloorHalf(len);
      var (m, e) := FrexpLarge(len / 2.0);
      DoubleFrexp(len, len / 2.0, m, e);
      (m, e + 1)
  }

  lemma FloorReciprocal(len: real)
    requires 0.0 < len < 0.5
    ensures 0 <= (1.0 / (2.0 * len)).Floor < (1.0 / len).Floor
  {
    var x := 1.0 / len;
    assert x * len == 1.0;
    assert 2.0 < x by {
      if x <= 2.0 {
        Below(x, len);
      }
    }
    assert 1.0 / (2.0 * len) == x / 2.0 by {
      assert (x / 2.0) * (2.0 * len) == 1.0;
    }
    FloorHalf(x);
  }

  lemma Below(x: real, len: real)
    requires 0.0 < len < 0.5 && x <= 2.0
    ensures x * len < 1.0
  {
    if 0.0 < x {
      assert x * len <= 2.0 * len;
    }
  }

  function FrexpSmall(len: real): (r: (real, int))
    requires 0.0 < len < 1.0
    ensures IsFrexp(len, r)
    decreases (1.0 / len).Floor
  {
    hide IsFrexp;
    if 0.5 <= len then
      NoExponent(len);
      (len, 0)
    else
      FloorReciprocal(len);
      var (m, e) := FrexpSmall(2.0 * len);
      DoubleFrexp(2.0 * len, len, m, e - 1);
      (m, e - 1)
  }

  /** The mantissa in [0.5, 1) and the exponent; zero has exponent zero. */
  function Frexp(len: real): (r: (real, int))
    requires 0.0 <= len
    ensures len == r.0 * Pow2(r.1)
    ensures if len == 0.0 then r == (0.0, 0) else 0.5 <= r.0 < 1.0
  {
    if len == 0.0 then (0.0, 0) else if 0.5 <= len then FrexpLarge(len) else FrexpSmall(len)
  }

  // ----- one dimension of the quantisation grid

  function Clamp(i: int, lo: int, hi: int): int {
    if i < lo then lo else if hi < i then hi else i
  }

  function Ceil(x: real): int {
    -((-x).Floor)
  }

  /** Grid exponent for a box that is len wide: len must fit 255/256 of 2^exp. */
  function GridExp(len: real): int
    requires 0.0 <= len
  {
    var (mant, e) := Frexp(len);
    var e1 := if mant > 255.0 / 256.0 then e + 1 else e;
    if e1 < -128 then -128 else e1
  }

  /** The position of x in grid steps. */
  function GridPos(x: real, base: real, exp: int): real {
    (x - base) * Pow2(8 - exp)
  }

  function QLower(x: real, base: real, exp: int): nat {
    Clamp(GridPos(x, base, exp).Floor, 0, 255)
  }

  function QUpper(x: real, base: real, exp: int): nat {
    Clamp(Ceil(GridPos(x, base, exp)), 0, 255)
  }

  function Dequantize(q: nat, base: real, exp: int): real {
    base + q as real * Pow2(exp - 8)
  }

  /** A box that is no wider than the node's box fits the 255 grid steps. */
  lemma GridFits(len: real)
    requires 0.0 <= len
    ensures len <= 255.0 * Pow2(GridExp(len) - 8)
  {
    hide Pow2;
    var (mant, e) := Frexp(len);
    var e1 := if mant > 255.0 / 256.0 then e + 1 else e;
    Pow2Steps8(e1);
    Pow2Next(e);
    Width(len, mant, Pow2(e), Pow2(e1 - 8));
    Pow2Mono(e1 - 8, GridExp(len) - 8);
  }

  /** Among the exponents from 0 on it is the least whose grid fits. */
  lemma GridExpLeast(len: real, e: int)
    requires 0.0 <= len && 0 <= e
    ensures GridExp(len) <= e <==> len <= 255.0 * Pow2(e - 8)
  {
    hide Pow2;
    if GridExp(len) <= e {
      GridFits(len);
      Pow2Mono(GridExp(len) - 8, e - 8);
    } else {
      var (mant, e0) := Frexp(len);
      Pow2Steps8(e0);
      Pow2Next(e0 - 9);
      TooWide(len, mant, e0);
      Pow2Mono(e - 8, GridExp(len) - 9);
    }
  }

  lemma TooWide(len: real, mant: real, e: int)
    requires len == mant * Pow2(e) && 0.5 <= mant && Pow2(e) == 256.0 * Pow2(e - 8) && Pow2(e - 8) == 2.0 * Pow2(e - 9)
    ensures 255.0 * Pow2(e - 9) < len
    ensures mant > 255.0 / 256.0 ==> 255.0 * Pow2(e - 8) < len
  {
    hide Pow2;
    ScaleLe(0.5, mant, Pow2(e));
    if mant > 255.0 / 256.0 {
      ScaleLt(255.0 / 256.0, mant, Pow2(e));
    }
  }

  lemma Width(len: real, mant: real, pe: real, q: real)
    requires len == mant * pe && mant < 1.0 && 0.0 < pe && 0.0 < q
    requires if mant > 255.0 / 256.0 then 2.0 * pe == 256.0 * q else pe == 256.0 * q
    ensures len <= 255.0 * q
  {
    if mant > 255.0 / 256.0 {
      ScaleLe(mant, 1.0, pe);
    } else {
      ScaleLe(mant, 255.0 / 256.0, pe);
    }
  }

  lemma ScaleLe(a: real, b: real, p: real)
    requires a <= b && 0.0 < p
    ensures a * p <= b * p
  {
  }

  lemma ScaleLt(a: real, b: real, p: real)
    requires a < b && 0.0 < p
    ensures a * p < b * p
  {
  }

  lemma Pow2Steps8(e: int)
    ensures Pow2(e) == 256.0 * Pow2(e - 8)
  {
    hide Pow2;
    Pow2Next(e - 1);
    Pow2Next(e - 2);
    Pow2Next(e - 3);
    Pow2Next(e - 4);
    Pow2Next(e - 5);
    Pow2Next(e - 6);
    Pow2Next(e - 7);
    Pow2Next(e - 8);
  }

  /** The distance of two neighbouring positions of the grid. */
  function GridStep(exp: int): (q: real)
    ensures 0.0 < q
  {
    Pow2(exp - 8)
  }

  /** Quantising never moves a bound into the box, nor a whole grid step away from
      it, and needs no clamping. */
  lemma QuantizeConservative(x: real, base: real, exp: int)
    requires base <= x <= base + 255.0 * Pow2(exp - 8)
    ensures QLower(x, base, exp) <= QUpper(x, base, exp) <= 255
    ensures Dequantize(QLower(x, base, exp), base, exp) <= x <= Dequantize(QUpper(x, base, exp), base, exp)
    ensures QLower(x, base, exp) == GridPos(x, base, exp).Floor
    ensures QUpper(x, base, exp) == Ceil(GridPos(x, base, exp))
    ensures x - GridStep(exp) < Dequantize(QLower(x, base, exp), base, exp)
    ensures Dequantize(QUpper(x, base, exp), base, exp) < x + GridStep(exp)
  {
    hide Pow2;
    Pow2Inverse(8 - exp);
    GridSteps(x - base, Pow2(8 - exp), Pow2(exp - 8), GridPos(x, base, exp));
  }

  /** y grid steps of size q are the distance d. */
  lemma GridSteps(d: real, p: real, q: real, y: real)
    requires 0.0 < p && 0.0 < q && p * q == 1.0 && y == d * p && 0.0 <= d <= 255.0 * q
    ensures 0 <= y.Floor <= Ceil(y) <= 255
    ensures y.Floor as real * q <= d <= Ceil(y) as real * q
    ensures d - q < y.Floor as real * q && Ceil(y) as real * q < d + q
  {
    Assoc(d, p, q, y);
    Positive(d, p, y);
    Bounded(d, p, q, y);
    CeilBounds(y);
    ScaleLe(y.Floor as real, y, q);
    ScaleLe(y, Ceil(y) as real, q);
    ScaleLt(y - 1.0, y.Floor as real, q);
    ScaleLt(Ceil(y) as real, y + 1.0, q);
    OneStep(y, q);
  }

  lemma OneStep(y: real, q: real)
    ensures (y - 1.0) * q == y * q - q && (y + 1.0) * q == y * q + q
  {
  }

  lemma CeilBounds(y: real)
    ensures y <= Ceil(y) as real < y + 1.0
    ensures y.Floor <= Ceil(y)
    ensures y <= 255.0 ==> Ceil(y) <= 255
  {
  }

  lemma Positive(d: real, p: real, y: real)
    requires 0.0 <= d && 0.0 < p && y == d * p
    ensures 0.0 <= y
  {
  }

  lemma Bounded(d: real, p: real, q: real, y: real)
    requires 0.0 < p && p * q == 1.0 && y == d * p && d <= 255.0 * q
    ensures y <= 255.0
  {
    ScaleLe(d, 255.0 * q, p);
    assert (255.0 * q) * p == 255.0 * (p * q);
  }

  lemma Assoc(d: real, p: real, q: real, y: real)
    requires p * q == 1.0 && y == d * p
    ensures y * q == d
  {
    assert y * q == d * (p * q);
  }

  // ----- the node

  /** The 2-bit size of a child and the 4-bit start primitive or type, and its
      quantised box. */
  datatype ChildData = ChildData(blockIncr: nat, startPrim: nat,
                                 lowerX: nat, upperX: nat, lowerY: nat, upperY: nat, lowerZ: nat, upperZ: nat)

  datatype Node = Node(nodeType: nat, childOffset: int, nodeMask: bv8, lower: Vec3, expX: int, expY: int, expZ: int,
                       child: seq<ChildData>)
  {
    predicate WellFormed() {
      |child| == NUM_CHILDREN
    }

    predicate IsFatLeaf() {
      nodeType != NODE_TYPE_INTERNAL
    }

    /** Only the top bits of one dimension are looked at. */
    predicate ValidChild(i: nat)
      requires WellFormed() && i < NUM_CHILDREN
    {
      child[i].lowerX / 128 % 2 == 0 || child[i].upperX / 128 % 2 == 1
    }

    function ChildType(i: nat): nat
      requires WellFormed() && i < NUM_CHILDREN
    {
      if IsFatLeaf() then nodeType else child[i].startPrim
    }

    function ChildStartPrim(i: nat): nat
      requires WellFormed() && i < NUM_CHILDREN
    {
      if IsFatLeaf() then child[i].startPrim else 0
    }

    /** Distance of child i from the node in 64-byte blocks. */
    function ChildOffset(i: nat): int
      requires WellFormed() && i < NUM_CHILDREN
    {
      if i == 0 then childOffset else ChildOffset(i - 1) + child[i - 1].blockIncr
    }

    /** A box that is widened by an ulp and one step of the node's grid. */
    function Slack(b: Box): Box
      requires b.Box?
    {
      var c := ConservativeBox(b);
      Box(Vec3(c.lo.x - GridStep(expX), c.lo.y - GridStep(expY), c.lo.z - GridStep(expZ)),
          Vec3(c.hi.x + GridStep(expX), c.hi.y + GridStep(expY), c.hi.z + GridStep(expZ)))
    }

    /** The box of the valid children before child k. */
    function BoundsUpTo(k: nat): Box
      requires WellFormed() && k <= NUM_CHILDREN
    {
      if k == 0 then Empty
      else if ValidChild(k - 1) then Extend(BoundsUpTo(k - 1), ChildBounds(k - 1))
      else BoundsUpTo(k - 1)
    }

    /** The box of all valid children. */
    function Bounds(): Box
      requires WellFormed()
    {
      BoundsUpTo(NUM_CHILDREN)
    }

    /** The dequantised box of child i. */
    function ChildBounds(i: nat): Box
      requires WellFormed() && i < NUM_CHILDREN
    {
      var c := child[i];
      Box(Vec3(Dequantize(c.lowerX, lower.x, expX), Dequantize(c.lowerY, lower.y, expY), Dequantize(c.lowerZ, lower.z, expZ)),
          Vec3(Dequantize(c.upperX, lower.x, expX), Dequantize(c.upperY, lower.y, expY), Dequantize(c.upperZ, lower.z, expZ)))
    }
  }

  // ----- writing a node

  function MaxAbs(b: Box): (m: real)
    requires b.Box?
    ensures 0.0 <= m
  {
    MaxR(MaxR(MaxR(Abs(b.lo.x), Abs(b.lo.y)), Abs(b.lo.z)), MaxR(MaxR(Abs(b.hi.x), Abs(b.hi.y)), Abs(b.hi.z)))
  }

  /** Enlarges a box by one ulp of its largest coordinate. */
  function ConservativeBox(b: Box): Box
    requires b.Box?
  {
    Enlarge(b, EPSILON * MaxAbs(b))
  }

  function Enlarge(b: Box, err: real): Box
    requires b.Box?
  {
    Box(Vec3(b.lo.x - err, b.lo.y - err, b.lo.z - err), Vec3(b.hi.x + err, b.hi.y + err, b.hi.z + err))
  }

  /** Exponent of the grid for a range, widened by one ulp. */
  function SpanExp(lo: real, hi: real): int
    requires lo <= hi
  {
    SpanPositive(hi - lo);
    GridExp((hi - lo) * (1.0 + EPSILON))
  }

  lemma SpanPositive(d: real)
    requires 0.0 <= d
    ensures 0.0 <= d <= d * (1.0 + EPSILON)
  {
  }

  const InvalidChild := ChildData(0, 0, 0x80, 0, 0x80, 0, 0x80, 0)

  /** An empty node whose grid spans the box. */
  function NewNode(box: Box, nodeType: nat): (n: Node)
    requires Proper(box)
    ensures n.WellFormed() && forall i: nat :: i < NUM_CHILDREN ==> n.child[i] == InvalidChild
  {
    ConservativeProper(box);
    var b := ConservativeBox(box);
    Node(nodeType, 0, 0xFF, b.lo, SpanExp(b.lo.x, b.hi.x), SpanExp(b.lo.y, b.hi.y), SpanExp(b.lo.z, b.hi.z),
         [InvalidChild, InvalidChild, InvalidChild, InvalidChild, InvalidChild, InvalidChild])
  }

  /** Every face moves by the same share of the largest coordinate. */
  lemma WideningIs(b: Box, d: nat)
    requires b.Box? && d < 3
    ensures Axis(b.lo, d) - Axis(ConservativeBox(b).lo, d) == EPSILON * MaxAbs(b) == Axis(ConservativeBox(b).hi, d) - Axis(b.hi, d)
    ensures Abs(Axis(b.lo, d)) <= MaxAbs(b) && Abs(Axis(b.hi, d)) <= MaxAbs(b)
    ensures exists e: nat :: e < 3 && (MaxAbs(b) == Abs(Axis(b.lo, e)) || MaxAbs(b) == Abs(Axis(b.hi, e)))
  {
    if MaxAbs(b) == Abs(b.lo.x) || MaxAbs(b) == Abs(b.hi.x) {
      assert MaxAbs(b) == Abs(Axis(b.lo, 0)) || MaxAbs(b) == Abs(Axis(b.hi, 0));
    } else if MaxAbs(b) == Abs(b.lo.y) || MaxAbs(b) == Abs(b.hi.y) {
      assert MaxAbs(b) == Abs(Axis(b.lo, 1)) || MaxAbs(b) == Abs(Axis(b.hi, 1));
    } else {
      assert MaxAbs(b) == Abs(Axis(b.lo, 2)) || MaxAbs(b) == Abs(Axis(b.hi, 2));
    }
  }

  lemma ConservativeProper(b: Box)
    requires Proper(b)
    ensures Proper(ConservativeBox(b)) && Subset(b, ConservativeBox(b))
  {
  }

  /** Coordinates of valid vertices and bounds are smaller in magnitude. */
  const FLT_LARGE: real := 1844000021914058752.0

  predicate InRange(b: Box) {
    b.Box? && MaxAbs(b) < FLT_LARGE
  }

  /** Exponents of boxes of valid coordinates fit eight signed bits. */
  lemma ExponentsFit(box: Box, nodeType: nat)
    requires Proper(box) && InRange(box)
    ensures var n := NewNode(box, nodeType);
      -128 <= n.expX <= 62 && -128 <= n.expY <= 62 && -128 <= n.expZ <= 62
  {
    hide GridExp, MaxAbs, Pow2, SpanExp;
    ConservativeProper(box);
    InRangeAxes(box);
    var b := ConservativeBox(box);
    ScaleLe(MaxAbs(box), FLT_LARGE, EPSILON);
    SpanFits(b.lo.x, b.hi.x);
    SpanFits(b.lo.y, b.hi.y);
    SpanFits(b.lo.z, b.hi.z);
  }

  lemma InRangeAxes(b: Box)
    requires Proper(b) && InRange(b)
    ensures -FLT_LARGE < b.lo.x && -FLT_LARGE < b.lo.y && -FLT_LARGE < b.lo.z
    ensures b.hi.x < FLT_LARGE && b.hi.y < FLT_LARGE && b.hi.z < FLT_LARGE
  {
  }

  lemma SpanFits(lo: real, hi: real)
    requires lo <= hi && 0.0 - FLT_LARGE * (1.0 + EPSILON) <= lo && hi <= FLT_LARGE * (1.0 + EPSILON)
    ensures -128 <= SpanExp(lo, hi) <= 62
  {
    hide GridExp, Pow2;
    SpanPositive(hi - lo);
    var len := (hi - lo) * (1.0 + EPSILON);
    assert len <= 2.0 * FLT_LARGE * (1.0 + EPSILON) * (1.0 + EPSILON);
    Pow2At54();
    GridExpLeast(len, 62);
    ExpAtLeast(len);
  }

  lemma ExpAtLeast(len: real)
    requires 0.0 <= len
    ensures -128 <= GridExp(len)
  {
  }

  lemma Pow2At54()
    ensures Pow2(54) == 18014398509481984.0
  {
    hide Pow2;
    Pow2Zero();
    Pow2Steps8(8);
    Pow2Steps8(16);
    Pow2Steps8(24);
    Pow2Steps8(32);
    Pow2Steps8(40);
    Pow2Steps8(48);
    Pow2Next(48);
    Pow2Next(49);
    Pow2Next(50);
    Pow2Next(51);
    Pow2Next(52);
    Pow2Next(53);
  }

  /** setChild: size, type or start primitive, and quantised box of child i. */
  function SetChild(n: Node, i: nat, bounds: Box, ty: nat, blockDelta: nat, curPrim: nat): (r: Node)
    requires n.WellFormed() && i < NUM_CHILDREN && Proper(bounds)
    requires blockDelta < 4 && curPrim < 16 && ty < 16
    requires if n.IsFatLeaf() then n.nodeType == ty else curPrim == 0
    ensures r.WellFormed()
  {
    ConservativeProper(bounds);
    var delta := if i == NUM_CHILDREN - 1 then 0 else blockDelta;
    var start := if n.IsFatLeaf() then curPrim else ty;
    var b := ConservativeBox(bounds);
    n.(child := n.child[i := ChildData(delta % 4, start % 16,
      QLower(b.lo.x, n.lower.x, n.expX), QUpper(b.hi.x, n.lower.x, n.expX),
      QLower(b.lo.y, n.lower.y, n.expY), QUpper(b.hi.y, n.lower.y, n.expY),
      QLower(b.lo.z, n.lower.z, n.expZ), QUpper(b.hi.z, n.lower.z, n.expZ))])
  }

  // ----- reading back what was written

  /** The enlarged box of a child lies inside the enlarged box of the node. */
  lemma ConservativeMono(a: Box, b: Box)
    requires Proper(a) && Proper(b) && Subset(a, b)
    ensures Subset(ConservativeBox(a), ConservativeBox(b))
  {
    hide MaxAbs;
    MaxAbsMono(a, b);
    ScaleLe(MaxAbs(a), MaxAbs(b), EPSILON);
    EnlargeMono(a, b, MaxAbs(a) * EPSILON, MaxAbs(b) * EPSILON);
  }

  lemma EnlargeMono(a: Box, b: Box, err: real, err1: real)
    requires Proper(a) && Proper(b) && Subset(a, b) && err <= err1
    ensures Subset(Enlarge(a, err), Enlarge(b, err1))
  {
  }

  lemma MaxAbsMono(a: Box, b: Box)
    requires Proper(a) && Proper(b) && Subset(a, b)
    ensures MaxAbs(a) <= MaxAbs(b)
  {
    hide Abs;
    AbsBound(a.lo.x, a.hi.x, b.lo.x, b.hi.x);
    AbsBound(a.lo.y, a.hi.y, b.lo.y, b.hi.y);
    AbsBound(a.lo.z, a.hi.z, b.lo.z, b.hi.z);
    MaxBound(Abs(b.lo.x), Abs(b.lo.y), Abs(b.lo.z), Abs(b.hi.x), Abs(b.hi.y), Abs(b.hi.z));
    MaxLeast(Abs(a.lo.x), Abs(a.lo.y), Abs(a.lo.z), Abs(a.hi.x), Abs(a.hi.y), Abs(a.hi.z), MaxAbs(b));
  }

  lemma MaxBound(a: real, b: real, c: real, d: real, e: real, f: real)
    ensures var m := MaxR(MaxR(MaxR(a, b), c), MaxR(MaxR(d, e), f)); a <= m && b <= m && c <= m && d <= m && e <= m && f <= m
  {
  }

  lemma MaxLeast(a: real, b: real, c: real, d: real, e: real, f: real, m: real)
    requires a <= m && b <= m && c <= m && d <= m && e <= m && f <= m
    ensures MaxR(MaxR(MaxR(a, b), c), MaxR(MaxR(d, e), f)) <= m
  {
  }

  lemma AbsBound(al: real, ah: real, bl: real, bh: real)
    requires bl <= al <= ah <= bh
    ensures Abs(al) <= MaxR(Abs(bl), Abs(bh)) && Abs(ah) <= MaxR(Abs(bl), Abs(bh))
  {
  }

  /** One dimension: a coordinate range of a child in the grid of its node. */
  lemma AxisContains(lo: real, hi: real, l: real, h: real, exp: int)
    requires l <= lo <= hi <= h && exp == SpanExp(l, h)
    ensures QLower(lo, l, exp) <= QUpper(hi, l, exp) <= 255
    ensures Dequantize(QLower(lo, l, exp), l, exp) <= lo && hi <= Dequantize(QUpper(hi, l, exp), l, exp)
    ensures lo - GridStep(exp) < Dequantize(QLower(lo, l, exp), l, exp) && Dequantize(QUpper(hi, l, exp), l, exp) < hi + GridStep(exp)
  {
    hide GridExp, QLower, QUpper, Dequantize, Pow2;
    SpanPositive(h - l);
    GridFits((h - l) * (1.0 + EPSILON));
    QuantizeConservative(lo, l, exp);
    QuantizeConservative(hi, l, exp);
    QuantizeMono(lo, hi, l, exp);
  }

  lemma QuantizeMono(x: real, y: real, base: real, exp: int)
    requires x <= y
    ensures QUpper(x, base, exp) <= QUpper(y, base, exp)
  {
    hide Pow2;
    ScaleLe(x - base, y - base, Pow2(8 - exp));
    CeilMono(GridPos(x, base, exp), GridPos(y, base, exp));
  }

  lemma CeilMono(a: real, b: real)
    requires a <= b
    ensures Ceil(a) <= Ceil(b)
  {
  }

  /** A child that was set reads as valid; its dequantised box contains the box it
      was given and exceeds it by an ulp and a grid step at most; the other
      children are untouched. */
  lemma SetChildReads(n: Node, i: nat, box: Box, bounds: Box, ty: nat, blockDelta: nat, curPrim: nat)
    requires n.WellFormed() && i < NUM_CHILDREN && Proper(box) && Proper(bounds) && Subset(bounds, box)
    requires blockDelta < 4 && curPrim < 16 && ty < 16
    requires if n.IsFatLeaf() then n.nodeType == ty else curPrim == 0
    requires OnGrid(n, box)
    ensures var r := SetChild(n, i, bounds, ty, blockDelta, curPrim);
      && r.ValidChild(i) && r.ChildType(i) == ty && r.ChildStartPrim(i) == curPrim
      && Subset(bounds, r.ChildBounds(i)) && Subset(r.ChildBounds(i), n.Slack(bounds))
      && r.child[i].blockIncr == (if i == NUM_CHILDREN - 1 then 0 else blockDelta)
      && r == n.(child := n.child[i := r.child[i]])
  {
    hide SpanExp, QLower, QUpper, Dequantize, ConservativeBox, GridStep;
    ConservativeProper(bounds);
    ConservativeProper(box);
    ConservativeMono(bounds, box);
    var b, g := ConservativeBox(bounds), ConservativeBox(box);
    AxisContains(b.lo.x, b.hi.x, g.lo.x, g.hi.x, n.expX);
    AxisContains(b.lo.y, b.hi.y, g.lo.y, g.hi.y, n.expY);
    AxisContains(b.lo.z, b.hi.z, g.lo.z, g.hi.z, n.expZ);
    TopBits(QLower(b.lo.x, g.lo.x, n.expX), QUpper(b.hi.x, g.lo.x, n.expX));
  }

  lemma TopBits(l: nat, u: nat)
    requires l <= u <= 255
    ensures l / 128 % 2 == 0 || u / 128 % 2 == 1
  {
  }

  /** The grid of the node was set up for the box. */
  ghost predicate OnGrid(n: Node, box: Box)
    requires Proper(box)
  {
    var b := ConservativeBox(box);
    && n.lower == b.lo
    && Proper(b)
    && n.expX == SpanExp(b.lo.x, b.hi.x)
    && n.expY == SpanExp(b.lo.y, b.hi.y)
    && n.expZ == SpanExp(b.lo.z, b.hi.z)
  }

  lemma NewNodeOnGrid(box: Box, nodeType: nat)
    requires Proper(box)
    ensures OnGrid(NewNode(box, nodeType), box)
    ensures forall i: nat :: i < NUM_CHILDREN ==> !NewNode(box, nodeType).ValidChild(i)
  {
    hide SpanExp, ConservativeBox;
    ConservativeProper(box);
  }

  /** The grid is as fine as eight bits allow: 255 steps of half its size do not
      span the node's box, except at the least exponent and for boxes without
      extent. */
  lemma GridIsFine(l: real, h: real)
    requires l <= h
    ensures var exp := SpanExp(l, h);
      || 255.0 * GridStep(exp) < 2.0 * (h - l) * (1.0 + EPSILON)
      || exp == -128
      || (h == l && exp == 0)
  {
    hide Pow2, GridExp;
    SpanPositive(h - l);
    var len := (h - l) * (1.0 + EPSILON);
    StepIsFine(len);
  }

  lemma StepIsFine(len: real)
    requires 0.0 <= len
    ensures 255.0 * GridStep(GridExp(len)) < 2.0 * len || GridExp(len) == -128 || (len == 0.0 && GridExp(len) == 0)
  {
    hide Pow2;
    if len != 0.0 {
      var (mant, e0) := Frexp(len);
      Pow2Steps8(e0);
      Pow2Next(e0 - 9);
      Pow2Next(e0 - 8);
      TooWide(len, mant, e0);
    }
  }

  /** The grid of a node over a box, in every dimension. */
  lemma NodeIsFine(n: Node, box: Box)
    requires Proper(box) && OnGrid(n, box)
    ensures var b := ConservativeBox(box);
      && FineStep(b.lo.x, b.hi.x, n.expX) && FineStep(b.lo.y, b.hi.y, n.expY) && FineStep(b.lo.z, b.hi.z, n.expZ)
  {
    hide SpanExp, GridStep, ConservativeBox;
    var b := ConservativeBox(box);
    GridIsFine(b.lo.x, b.hi.x);
    GridIsFine(b.lo.y, b.hi.y);
    GridIsFine(b.lo.z, b.hi.z);
  }

  predicate FineStep(l: real, h: real, exp: int) {
    255.0 * GridStep(exp) < 2.0 * (h - l) * (1.0 + EPSILON) || exp == -128 || (h == l && exp == 0)
  }
}
