/** Choosing a split plane by Morton codes
    (rtbuild/math/emath.h:274-294 and rtbuild/builders/primrefgen_presplit.h:27-76). */
module Morton {
  import opened Common
  import opened Geometry
  import opened Bvh

  const GRID_SIZE: nat := 1024

  // ----- bits

  /** Spreads the low ten bits to every third position. */
  function Spread(v: bv32): bv32 {
    var v1 := (v | (v << 16)) & 0x030000FF;
    var v2 := (v1 | (v1 << 8)) & 0x0300F00F;
    var v3 := (v2 | (v2 << 4)) & 0x030C30C3;
    (v3 | (v3 << 2)) & 0x09249249
  }

  function BitInterleave(x: bv32, y: bv32, z: bv32): bv32 {
    Parts(Spread(x), Spread(y), Spread(z))
  }

  function Parts(a: bv32, b: bv32, c: bv32): bv32 {
    a | (b << 1) | (c << 2)
  }

  function Xor(a: bv32, b: bv32): bv32 {
    a ^ b
  }

  predicate Hit(v: bv32, m: bv32) {
    v & m != 0
  }

  predicate OneHot(m: bv32) {
    m != 0 && m & (m - 1) == 0
  }

  /** All bits above the single bit m are zero. */
  predicate UpTo(v: bv32, m: bv32) {
    v & !(m | (m - 1)) == 0
  }

  /** m is bit number k. */
  predicate IsBit(k: nat, m: bv32) {
    if k == 0 then m == 1 else m & 1 == 0 && IsBit(k - 1, m >> 1)
  }

  lemma {:induction false} IsBitOneHot(k: nat, m: bv32)
    requires IsBit(k, m)
    ensures OneHot(m)
  {
    if k != 0 {
      IsBitOneHot(k - 1, m >> 1);
      EvenOneHot(m);
    }
  }

  lemma EvenOneHot(m: bv32)
    requires m & 1 == 0 && OneHot(m >> 1)
    ensures OneHot(m)
  {
  }

  function Shift(v: bv32, d: nat): bv32 {
    if d == 0 then v else if d == 1 then v << 1 else v << 2
  }

  function Pick(d: nat, x: bv32, y: bv32, z: bv32): bv32 {
    if d == 0 then x else if d == 1 then y else z
  }

  /** A grid coordinate: ten bits, or the upper end of the grid. */
  predicate Coord(x: bv32) {
    x <= 1024
  }

  lemma SpreadBits(x: bv32, m: bv32)
    requires OneHot(m) && m < 1024 && Coord(x)
    ensures OneHot(Spread(m)) && Spread(m) < 0x1000_0000
    ensures Spread(x) & Spread(m) != 0 <==> x & m != 0
  {
  }

  lemma SpreadNext(m: bv32)
    requires OneHot(m) && m < 1024 && m & 1 == 0
    ensures Spread(m) == Spread(m >> 1) << 3 && Spread(m >> 1) < 0x200_0000
  {
  }

  function Twice(w: bv32): bv32 {
    w << 1
  }

  /** One of the first 30 bits. */
  predicate Low(w: bv32) {
    w < 0x4000_0000
  }

  lemma ShiftBit(k: nat, w: bv32)
    requires IsBit(k, w) && Low(w)
    ensures IsBit(k + 1, Twice(w))
  {
    UnShift(w);
  }

  lemma UnShift(w: bv32)
    requires w < 0x4000_0000
    ensures (w << 1) & 1 == 0 && (w << 1) >> 1 == w
  {
  }

  lemma {:induction false} SpreadIsBit(k: nat, m: bv32)
    requires IsBit(k, m) && m < 1024
    ensures IsBit(3 * k, Spread(m))
  {
    if k == 0 {
      assert Spread(1) == 1;
    } else {
      IsBitOneHot(k, m);
      Halved(m);
      SpreadIsBit(k - 1, m >> 1);
      SpreadNext(m);
      ShiftThrice(3 * k - 3, Spread(m >> 1));
    }
  }

  lemma Halved(m: bv32)
    requires m < 1024
    ensures m >> 1 < 1024
  {
  }

  lemma ShiftThrice(k: nat, w: bv32)
    requires IsBit(k, w) && w < 0x200_0000
    ensures IsBit(k + 3, w << 3)
  {
    hide IsBit, Twice, Low;
    assert IsBit(k + 3, Twice(Twice(Twice(w)))) by {
      TwiceThrice(k, w);
    }
    Steps(w);
  }

  lemma TwiceThrice(k: nat, w: bv32)
    requires IsBit(k, w) && w < 0x200_0000
    ensures IsBit(k + 3, Twice(Twice(Twice(w))))
  {
    hide IsBit, Twice, Low;
    Steps(w);
    ShiftBit(k, w);
    var v := Twice(w);
    ShiftBit(k + 1, v);
    var u := Twice(v);
    ShiftBit(k + 2, u);
  }

  lemma Steps(w: bv32)
    requires w < 0x200_0000
    ensures Twice(Twice(w)) == w << 2 && Twice(Twice(Twice(w))) == w << 3
    ensures Low(w) && Low(Twice(w)) && Low(Twice(Twice(w)))
  {
  }

  /** Bit k of coordinate d is bit 3k+d of the code. */
  lemma InterleavePlaces(x: bv32, y: bv32, z: bv32, k: nat, m: bv32, d: nat)
    requires IsBit(k, m) && m < 1024 && d < 3 && Coord(x) && Coord(y) && Coord(z)
    ensures IsBit(3 * k + d, Shift(Spread(m), d))
    ensures Hit(BitInterleave(x, y, z), Shift(Spread(m), d)) <==> Hit(Pick(d, x, y, z), m)
  {
    hide Spread, BitInterleave, Shift, Coord, OneHot, Hit;
    IsBitOneHot(k, m);
    SpreadIsBit(k, m);
    CodeBit(x, y, z, m, d);
    SpreadRange(m);
    ShiftedBit(3 * k, Spread(m), d);
  }

  lemma SpreadRange(m: bv32)
    requires OneHot(m) && m < 1024
    ensures Spread(m) < 0x1000_0000
  {
  }

  lemma CodeBit(x: bv32, y: bv32, z: bv32, m: bv32, d: nat)
    requires OneHot(m) && m < 1024 && d < 3 && Coord(x) && Coord(y) && Coord(z)
    ensures Hit(BitInterleave(x, y, z), Shift(Spread(m), d)) <==> Hit(Pick(d, x, y, z), m)
  {
    hide Spread, Parts, Shift, Coord, OneHot, Hit;
    SpreadHit(x, m);
    SpreadHit(y, m);
    SpreadHit(z, m);
    SpreadSparse(x);
    SpreadSparse(y);
    SpreadSparse(z);
    SpreadSparse(m);
    if d == 0 {
      PartHit0(Spread(x), Spread(y), Spread(z), Spread(m));
    } else if d == 1 {
      PartHit1(Spread(x), Spread(y), Spread(z), Spread(m));
    } else {
      PartHit2(Spread(x), Spread(y), Spread(z), Spread(m));
    }
  }

  lemma SpreadHit(x: bv32, m: bv32)
    requires OneHot(m) && m < 1024 && Coord(x)
    ensures Hit(Spread(x), Spread(m)) <==> Hit(x, m)
  {
  }

  /** Only every third bit may be set. */
  predicate Sparse(a: bv32) {
    a & 0xF6DB_6DB6 == 0
  }

  lemma SpreadSparse(x: bv32)
    ensures Sparse(Spread(x))
  {
  }

  /** The three spread coordinates do not overlap. */
  lemma PartHit0(a: bv32, b: bv32, c: bv32, n: bv32)
    requires Sparse(a) && Sparse(b) && Sparse(c) && Sparse(n)
    ensures Hit(Parts(a, b, c), Shift(n, 0)) <==> Hit(a, n)
  {
  }

  lemma PartHit1(a: bv32, b: bv32, c: bv32, n: bv32)
    requires Sparse(a) && Sparse(b) && Sparse(c) && Sparse(n)
    ensures Hit(Parts(a, b, c), Shift(n, 1)) <==> Hit(b, n)
  {
  }

  lemma PartHit2(a: bv32, b: bv32, c: bv32, n: bv32)
    requires Sparse(a) && Sparse(b) && Sparse(c) && Sparse(n)
    ensures Hit(Parts(a, b, c), Shift(n, 2)) <==> Hit(c, n)
  {
  }

  lemma ShiftedBit(k: nat, w: bv32, d: nat)
    requires IsBit(k, w) && w < 0x1000_0000 && d < 3
    ensures IsBit(k + d, Shift(w, d))
  {
    hide IsBit, Twice, Low;
    DoubleShift(w);
    ShiftBit(k, w);
    if d == 2 {
      ShiftBit(k + 1, Twice(w));
    }
  }

  lemma DoubleShift(w: bv32)
    requires w < 0x1000_0000
    ensures Twice(w) == w << 1 && Twice(Twice(w)) == w << 2 && Low(w) && Low(Twice(w))
  {
  }

  // ----- the highest differing bit

  /** Level and dimension of a bit, with the mask of the level. */
  datatype Place = Place(level: nat, dim: nat, mask: bv32) {
    predicate Valid() {
      dim < 3 && level < 10 && IsBit(level, mask) && mask < 1024
    }

    /** Bit 3 * level + dim of a code. */
    function CodeBit(): bv32 {
      Shift(Spread(mask), dim)
    }
  }

  /** The bit below a place. */
  function Lower(q: Place): Place
    requires 0 < q.level || 0 < q.dim
  {
    if 0 < q.dim then q.(dim := q.dim - 1) else Place(q.level - 1, 2, q.mask >> 1)
  }

  ghost predicate Highest(v: bv32, q: Place) {
    q.Valid() && Hit(v, q.CodeBit()) && UpTo(v, q.CodeBit())
  }

  /** No bit above the place is set. */
  ghost predicate NoneHigher(v: bv32, q: Place) {
    v != 0 && q.Valid() && UpTo(v, q.CodeBit())
  }

  lemma GoLower(v: bv32, q: Place)
    requires NoneHigher(v, q) && !Hit(v, q.CodeBit())
    ensures (0 < q.level || 0 < q.dim) && NoneHigher(v, Lower(q))
  {
    hide UpTo, Spread, IsBit, OneHot, Shift, Hit;
    IsBitOneHot(q.level, q.mask);
    if 0 < q.dim {
      LowerDim(v, q.mask, q.dim);
    } else {
      LowerLevel(v, q);
    }
  }

  /** The highest set bit at or below a place. */
  ghost function HighPlace(v: bv32, q: Place): (r: Place)
    requires NoneHigher(v, q)
    ensures r.dim < 3
    decreases q.level, q.dim
  {
    if Hit(v, q.CodeBit()) then q else
      GoLower(v, q);
      HighPlace(v, Lower(q))
  }

  lemma {:induction false} HighPlaceIs(v: bv32, q: Place)
    requires NoneHigher(v, q)
    ensures Highest(v, HighPlace(v, q))
    decreases q.level, q.dim
  {
    hide UpTo, Hit, Place.CodeBit, IsBit;
    if !Hit(v, q.CodeBit()) {
      GoLower(v, q);
      HighPlaceIs(v, Lower(q));
    }
  }

  /** The highest set bit of a code, as 31 - lzcnt(v) finds it. */
  method TopBit(v: bv32) returns (q: Place)
    requires NoneHigher(v, TOP)
    ensures Highest(v, q) && q == HighPlace(v, TOP)
  {
    hide UpTo, IsBit, Hit, Place.CodeBit;
    q := TOP;
    while !Hit(v, q.CodeBit())
      invariant NoneHigher(v, q) && HighPlace(v, q) == HighPlace(v, TOP)
      decreases q.level, q.dim
    {
      GoLower(v, q);
      q := Lower(q);
    }
    HighPlaceIs(v, TOP);
  }

  lemma LowerDim(v: bv32, m: bv32, d: nat)
    requires OneHot(m) && m < 1024 && 0 < d < 3 && UpTo(v, Shift(Spread(m), d)) && !Hit(v, Shift(Spread(m), d))
    ensures UpTo(v, Shift(Spread(m), d - 1))
  {
  }

  lemma LowerLevel(v: bv32, q: Place)
    requires q.Valid() && q.dim == 0 && UpTo(v, q.CodeBit()) && !Hit(v, q.CodeBit()) && v != 0
    ensures 0 < q.level && Place(q.level - 1, 2, q.mask >> 1).Valid() && UpTo(v, Place(q.level - 1, 2, q.mask >> 1).CodeBit())
  {
    hide UpTo, Spread, OneHot, Hit;
    IsBitOneHot(q.level, q.mask);
    Halved(q.mask);
    if q.level == 0 {
      Lowest(v);
    } else {
      LowerMask(v, q.mask);
    }
  }

  lemma LowerMask(v: bv32, m: bv32)
    requires OneHot(m) && m < 1024 && m & 1 == 0 && UpTo(v, Spread(m)) && !Hit(v, Spread(m))
    ensures UpTo(v, Spread(m >> 1) << 2)
  {
  }

  lemma Lowest(v: bv32)
    ensures UpTo(v, Spread(1)) && !Hit(v, Spread(1)) ==> v == 0
  {
  }

  /** Bit 29: the highest bit of a code. */
  const TOP: Place := Place(9, 2, 0x200)

  lemma TopValid()
    ensures TOP.Valid()
  {
    assert IsBit(0, 0x1);
    assert IsBit(1, 0x2);
    assert IsBit(2, 0x4);
    assert IsBit(3, 0x8);
    assert IsBit(4, 0x10);
    assert IsBit(5, 0x20);
    assert IsBit(6, 0x40);
    assert IsBit(7, 0x80);
    assert IsBit(8, 0x100);
  }

  lemma CodesFit(x: bv32, y: bv32, z: bv32, x1: bv32, y1: bv32, z1: bv32)
    ensures UpTo(Xor(BitInterleave(x, y, z), BitInterleave(x1, y1, z1)), TOP.CodeBit())
  {
  }

  /** Coordinates that agree, or are ordered and within ten bits. */
  predicate Ordered(l: bv32, u: bv32) {
    Coord(l) && Coord(u) && (l == u || l < u < 1024)
  }

  /** In the dimension of the highest differing bit the lower end lies below the
      split and the upper end does not. */
  lemma SplitBetween(xl: bv32, yl: bv32, zl: bv32, xu: bv32, yu: bv32, zu: bv32, m: bv32, d: nat)
    requires Ordered(xl, xu) && Ordered(yl, yu) && Ordered(zl, zu) && GridBit(m) && d < 3
    requires var v := Xor(BitInterleave(xl, yl, zl), BitInterleave(xu, yu, zu));
      Hit(v, Shift(Spread(m), d)) && UpTo(v, Shift(Spread(m), d))
    ensures Between(Pick(d, xl, yl, zl), Pick(d, xu, yu, zu), m)
  {
    hide Spread, UpTo, Ordered, Hit, Xor, BitInterleave, Shift, Beneath, GridBit, Between;
    CodeBits(xl, yl, zl, xu, yu, zu, m, d);
    forall n: bv32 | GridBit(n) && Higher(n, m)
      ensures !Hit(Xor(Pick(d, xl, yl, zl), Pick(d, xu, yu, zu)), n)
    {
      CodeBits(xl, yl, zl, xu, yu, zu, n, d);
      NoneAbove(Xor(BitInterleave(xl, yl, zl), BitInterleave(xu, yu, zu)), m, n, d);
    }
    AllBeneath(Xor(Pick(d, xl, yl, zl), Pick(d, xu, yu, zu)), m);
    OrderByBit(Pick(d, xl, yl, zl), Pick(d, xu, yu, zu), m);
  }

  /** The codes differ in a bit exactly when the coordinates do. */
  lemma CodeBits(xl: bv32, yl: bv32, zl: bv32, xu: bv32, yu: bv32, zu: bv32, m: bv32, d: nat)
    requires Ordered(xl, xu) && Ordered(yl, yu) && Ordered(zl, zu) && GridBit(m) && d < 3
    ensures Hit(Xor(BitInterleave(xl, yl, zl), BitInterleave(xu, yu, zu)), Shift(Spread(m), d))
      <==> Hit(Xor(Pick(d, xl, yl, zl), Pick(d, xu, yu, zu)), m)
  {
    hide Spread, Ordered, Hit, Xor, BitInterleave, Shift, OneHot, Coord;
    OrderedCoords(xl, xu);
    OrderedCoords(yl, yu);
    OrderedCoords(zl, zu);
    CodeBit(xl, yl, zl, m, d);
    CodeBit(xu, yu, zu, m, d);
    SpreadBits(0, m);
    ShiftOneHot(Spread(m), d);
    HitXor(BitInterleave(xl, yl, zl), BitInterleave(xu, yu, zu), Shift(Spread(m), d));
    HitXor(Pick(d, xl, yl, zl), Pick(d, xu, yu, zu), m);
  }

  lemma OrderedCoords(l: bv32, u: bv32)
    requires Ordered(l, u)
    ensures Coord(l) && Coord(u) && Coord(0)
  {
  }

  lemma ShiftOneHot(w: bv32, d: nat)
    requires OneHot(w) && w < 0x1000_0000 && d < 3
    ensures OneHot(Shift(w, d))
  {
  }

  lemma HitXor(p: bv32, q: bv32, n: bv32)
    requires OneHot(n)
    ensures Hit(Xor(p, q), n) <==> (Hit(p, n) != Hit(q, n))
  {
    hide OneHot, Hit, Xor;
    if Hit(p, n) && Hit(q, n) {
      HitBoth(p, q, n);
    } else if Hit(p, n) {
      HitFirst(p, q, n);
    } else if Hit(q, n) {
      HitSecond(p, q, n);
    } else {
      HitNone(p, q, n);
    }
  }

  lemma HitBoth(p: bv32, q: bv32, n: bv32)
    requires OneHot(n) && Hit(p, n) && Hit(q, n)
    ensures !Hit(Xor(p, q), n)
  {
  }

  lemma HitFirst(p: bv32, q: bv32, n: bv32)
    requires OneHot(n) && Hit(p, n) && !Hit(q, n)
    ensures Hit(Xor(p, q), n)
  {
  }

  lemma HitSecond(p: bv32, q: bv32, n: bv32)
    requires OneHot(n) && !Hit(p, n) && Hit(q, n)
    ensures Hit(Xor(p, q), n)
  {
  }

  lemma HitNone(p: bv32, q: bv32, n: bv32)
    requires OneHot(n) && !Hit(p, n) && !Hit(q, n)
    ensures !Hit(Xor(p, q), n)
  {
  }

  predicate Higher(n: bv32, m: bv32) {
    m < n
  }

  lemma NoneAbove(v: bv32, m: bv32, n: bv32, d: nat)
    requires GridBit(m) && GridBit(n) && Higher(n, m) && d < 3 && UpTo(v, Shift(Spread(m), d))
    ensures !Hit(v, Shift(Spread(n), d))
  {
    hide Spread, UpTo, Hit, Shift;
    SpreadHigher(m, n);
    if d == 0 {
      NoneAbove0(v, Spread(m), Spread(n));
    } else if d == 1 {
      NoneAbove1(v, Spread(m), Spread(n));
    } else {
      NoneAbove2(v, Spread(m), Spread(n));
    }
  }

  lemma SpreadHigher(m: bv32, n: bv32)
    requires GridBit(m) && GridBit(n) && Higher(n, m)
    ensures OneHot(Spread(m)) && OneHot(Spread(n)) && Spread(m) < Spread(n) < 0x1000_0000
  {
  }

  lemma NoneAbove0(v: bv32, w: bv32, u: bv32)
    requires OneHot(w) && OneHot(u) && w < u < 0x1000_0000 && UpTo(v, Shift(w, 0))
    ensures !Hit(v, Shift(u, 0))
  {
  }

  lemma NoneAbove1(v: bv32, w: bv32, u: bv32)
    requires OneHot(w) && OneHot(u) && w < u < 0x1000_0000 && UpTo(v, Shift(w, 1))
    ensures !Hit(v, Shift(u, 1))
  {
  }

  lemma NoneAbove2(v: bv32, w: bv32, u: bv32)
    requires OneHot(w) && OneHot(u) && w < u < 0x1000_0000 && UpTo(v, Shift(w, 2))
    ensures !Hit(v, Shift(u, 2))
  {
  }

  /** Without a bit above m. */
  lemma AllBeneath(x: bv32, m: bv32)
    requires GridBit(m) && forall n: bv32 :: GridBit(n) && Higher(n, m) ==> !Hit(x, n)
    ensures Beneath(x, m)
  {
    assert GridBit(2) && GridBit(4) && GridBit(8) && GridBit(16) && GridBit(32);
    assert GridBit(64) && GridBit(128) && GridBit(256) && GridBit(512);
  }

  /** x & ~(m - 1) */
  function RoundTo(x: bv32, m: bv32): bv32 {
    x & !(m - 1)
  }

  /** u rounded down to the bit m still lies above l. */
  predicate Between(l: bv32, u: bv32, m: bv32) {
    l < RoundTo(u, m) <= u
  }

  predicate GridBit(m: bv32) {
    OneHot(m) && m < 1024
  }

  /** Among the low ten bits none above m is set. */
  predicate Beneath(x: bv32, m: bv32) {
    x & 0x3FF & !(m | (m - 1)) == 0
  }

  lemma OrderByBit(l: bv32, u: bv32, m: bv32)
    requires Ordered(l, u) && GridBit(m) && Hit(Xor(l, u), m) && Beneath(Xor(l, u), m)
    ensures Between(l, u, m)
  {
  }

  lemma SameCodes(xl: bv32, yl: bv32, zl: bv32, xu: bv32, yu: bv32, zu: bv32)
    requires Ordered(xl, xu) && Ordered(yl, yu) && Ordered(zl, zu)
    ensures BitInterleave(xl, yl, zl) == BitInterleave(xu, yu, zu) <==> xl == xu && yl == yu && zl == zu
  {
  }

  // ----- integers as words

  function Append(a: bv32, b: bool): bv32 {
    (a << 1) | (if b then 1 else 0)
  }

  /** The word of a number. */
  function Word(n: nat): bv32 {
    if n == 0 then 0 else Append(Word(n / 2), n % 2 == 1)
  }

  /** t is the word of the power of two T. */
  predicate Power(T: nat, t: bv32) {
    if T == 1 then t == 1 else 0 < T && T % 2 == 0 && t & 1 == 0 && t != 0 && Power(T / 2, t >> 1)
  }

  predicate Less(a: bv32, b: bv32) {
    a < b
  }

  lemma {:induction false} WordBelow(n: nat, T: nat, t: bv32)
    requires Power(T, t) && n < T
    ensures Less(Word(n), t)
  {
    hide Less, Append;
    if n == 0 {
      PowerPositive(T, t);
    } else {
      WordBelow(n / 2, T / 2, t >> 1);
      AppendBelow(Word(n / 2), n % 2 == 1, t);
    }
  }

  lemma PowerPositive(T: nat, t: bv32)
    requires Power(T, t)
    ensures Less(0, t)
  {
  }

  lemma AppendBelow(a: bv32, b: bool, t: bv32)
    requires Less(a, t >> 1) && t & 1 == 0
    ensures Less(Append(a, b), t)
  {
  }

  lemma Power2048()
    ensures Power(2048, 0x800)
  {
    assert Power(1, 0x1);
    assert Power(2, 0x2);
    assert Power(4, 0x4);
    assert Power(8, 0x8);
    assert Power(16, 0x10);
    assert Power(32, 0x20);
    assert Power(64, 0x40);
    assert Power(128, 0x80);
    assert Power(256, 0x100);
    assert Power(512, 0x200);
    assert Power(1024, 0x400);
  }

  /** A word of a grid coordinate. */
  predicate Small(a: bv32) {
    a < 0x800
  }

  lemma SmallWord(n: nat)
    requires n < 2048
    ensures Small(Word(n))
  {
    Power2048();
    WordBelow(n, 2048, 0x800);
  }

  /** Words are ordered like their numbers. */
  lemma {:induction false} WordOrder(i: nat, j: nat)
    requires i < j < 2048
    ensures Less(Word(i), Word(j))
  {
    hide Less, Append, Small;
    SmallWord(i / 2);
    SmallWord(j / 2);
    if i / 2 < j / 2 {
      WordOrder(i / 2, j / 2);
      AppendOrder(Word(i / 2), i % 2 == 1, Word(j / 2), j % 2 == 1);
    } else {
      AppendLast(Word(j / 2));
    }
    WordStep(i);
    WordStep(j);
  }

  lemma WordStep(n: nat)
    ensures Word(n) == Append(Word(n / 2), n % 2 == 1)
  {
  }

  lemma AppendOrder(a: bv32, x: bool, b: bv32, y: bool)
    requires Less(a, b) && Small(a) && Small(b)
    ensures Less(Append(a, x), Append(b, y))
  {
  }

  lemma AppendLast(a: bv32)
    ensures Less(Append(a, false), Append(a, true))
  {
  }

  lemma WordOrderBack(i: nat, j: nat)
    requires i < 2048 && j < 2048
    ensures Less(Word(i), Word(j)) <==> i < j
    ensures Word(i) == Word(j) <==> i == j
  {
    hide Word;
    if i < j {
      WordOrder(i, j);
      LessOne(Word(i), Word(j));
    } else if j < i {
      WordOrder(j, i);
      LessOne(Word(j), Word(i));
    } else {
      NotLess(Word(i));
    }
  }

  lemma LessOne(a: bv32, b: bv32)
    requires Less(a, b)
    ensures !Less(b, a) && a != b
  {
  }

  lemma NotLess(a: bv32)
    ensures !Less(a, a)
  {
  }

  function TwoTo(k: nat): (n: nat)
    ensures 1 <= n
  {
    if k == 0 then 1 else 2 * TwoTo(k - 1)
  }

  /** u without its lowest bits. */
  function RoundDown(u: nat, level: nat): nat {
    Multiple(u, TwoTo(level));
    u / TwoTo(level) * TwoTo(level)
  }

  lemma Multiple(u: nat, p: nat)
    requires 1 <= p
    ensures 0 <= u / p * p <= u
  {
    var q := DivFloor(u, p);
  }

  lemma {:induction false} WordRounds(u: nat, level: nat, m: bv32)
    requires IsBit(level, m)
    ensures Word(RoundDown(u, level)) == RoundTo(Word(u), m)
    decreases level
  {
    hide RoundTo, Append, RoundDown;
    if level == 0 {
      RoundNone(u, Word(u));
    } else {
      WordRounds(u / 2, level - 1, m >> 1);
      HalfRound(u, level);
      WordStep(u);
      WordStep(RoundDown(u, level));
      IsBitOneHot(level, m);
      AppendRound(Word(u / 2), u % 2 == 1, m);
    }
  }

  lemma RoundNone(u: nat, w: bv32)
    ensures RoundDown(u, 0) == u && RoundTo(w, 1) == w
  {
  }

  lemma HalfRound(u: nat, level: nat)
    requires 0 < level
    ensures RoundDown(u, level) / 2 == RoundDown(u / 2, level - 1) && RoundDown(u, level) % 2 == 0
    ensures RoundDown(u, level) <= u
  {
    var p := TwoTo(level - 1);
    HalfQuotient(u, p);
    var q := u / 2 / p;
    RoundParts(u, p, q);
  }

  lemma HalfQuotient(u: nat, p: nat)
    requires 1 <= p
    ensures u / (2 * p) == u / 2 / p
  {
    var q := DivFloor(u / 2, p);
    Doubled(u, p, q);
    DivUnique(u, 2 * p, q);
  }

  lemma Doubled(u: nat, p: nat, q: nat)
    requires q * p <= u / 2 < (q + 1) * p
    ensures q * (2 * p) <= u < (q + 1) * (2 * p)
  {
    assert q * (2 * p) == 2 * (q * p) && (q + 1) * (2 * p) == 2 * ((q + 1) * p);
  }

  lemma RoundParts(u: nat, p: nat, q: nat)
    requires 1 <= p && q == u / (2 * p)
    ensures q * (2 * p) == 2 * (q * p) && q * (2 * p) <= u
  {
    var r := DivFloor(u, 2 * p);
  }

  lemma AppendRound(a: bv32, b: bool, m: bv32)
    requires OneHot(m) && m & 1 == 0
    ensures RoundTo(Append(a, b), m) == Append(RoundTo(a, m >> 1), false)
  {
    hide OneHot, Append, Above, MaskedBy, Twice, RoundTo;
    RoundIs(Append(a, b), m);
    RoundIs(a, m >> 1);
    AboveHalf(m);
    AppendMasked(a, b, Above(m >> 1));
  }

  /** ~(m - 1) */
  function Above(m: bv32): bv32 {
    !(m - 1)
  }

  function MaskedBy(x: bv32, k: bv32): bv32 {
    x & k
  }

  lemma RoundIs(x: bv32, m: bv32)
    ensures RoundTo(x, m) == MaskedBy(x, Above(m))
  {
  }

  lemma AboveHalf(m: bv32)
    requires OneHot(m) && m & 1 == 0
    ensures Above(m) == Twice(Above(m >> 1))
  {
  }

  lemma AppendMasked(a: bv32, b: bool, k: bv32)
    ensures MaskedBy(Append(a, b), Twice(k)) == Append(MaskedBy(a, k), false)
  {
  }

  // ----- the grid

  datatype Grid = Grid(base: Vec3, extend: real) {
    function Scale(): real {
      if extend == 0.0 then 0.0 else GRID_SIZE as real / extend
    }
  }

  function NewGrid(bounds: Box): Grid
    requires bounds.Box?
  {
    Grid(bounds.lo, MaxR(bounds.hi.x - bounds.lo.x, MaxR(bounds.hi.y - bounds.lo.y, bounds.hi.z - bounds.lo.z)))
  }

  function GridOf(x: real, base: real, scale: real): real {
    (x - base) * scale
  }

  function GLower(g: Grid, p: Box, d: nat): real
    requires p.Box?
  {
    GridOf(Axis(p.lo, d), Axis(g.base, d), g.Scale()) + 0.2
  }

  function GUpper(g: Grid, p: Box, d: nat): real
    requires p.Box?
  {
    GridOf(Axis(p.hi, d), Axis(g.base, d), g.Scale()) - 0.2
  }

  function ILower(g: Grid, p: Box, d: nat): int
    requires p.Box?
  {
    GLower(g, p, d).Floor
  }

  /** Empty dimensions take the lower coordinate. */
  function IUpper(g: Grid, p: Box, d: nat): int
    requires p.Box?
  {
    if GLower(g, p, d) >= GUpper(g, p, d) then ILower(g, p, d) else GUpper(g, p, d).Floor
  }

  /** The reference lies in the box of the grid. */
  ghost predicate OnGrid(g: Grid, p: Box) {
    && p.Box? && 0.0 <= g.extend
    && forall d: nat :: d < 3 ==> Axis(g.base, d) <= Axis(p.lo, d) <= Axis(p.hi, d) <= Axis(g.base, d) + g.extend
  }

  /** The grid of the scene serves every reference in it. */
  lemma InsideGrid(bounds: Box, p: Box)
    requires Proper(bounds) && Proper(p) && Subset(p, bounds)
    ensures OnGrid(NewGrid(bounds), p)
  {
  }

  lemma GridRange(x: real, base: real, extend: real)
    requires base <= x <= base + extend && 0.0 < extend
    ensures 0.0 <= GridOf(x, base, 1024.0 / extend) <= 1024.0
  {
    var s := 1024.0 / extend;
    assert s * extend == 1024.0;
    assert (x - base) * s <= extend * s;
  }

  lemma Coordinates(g: Grid, p: Box, d: nat)
    requires OnGrid(g, p) && d < 3
    ensures p.Box?
    ensures 0 <= ILower(g, p, d) <= IUpper(g, p, d) <= 1024
    ensures ILower(g, p, d) == IUpper(g, p, d) || IUpper(g, p, d) < 1024
  {
    hide GridOf;
    if g.extend == 0.0 {
      NoScale(Axis(p.lo, d), Axis(g.base, d));
      NoScale(Axis(p.hi, d), Axis(g.base, d));
    } else {
      GridRange(Axis(p.lo, d), Axis(g.base, d), g.extend);
      GridRange(Axis(p.hi, d), Axis(g.base, d), g.extend);
    }
    Floors(GLower(g, p, d), GUpper(g, p, d));
  }

  lemma NoScale(x: real, base: real)
    ensures GridOf(x, base, 0.0) == 0.0
  {
  }

  lemma Floors(a: real, b: real)
    requires 0.2 <= a <= 1024.2 && b <= 1023.8
    ensures 0 <= a.Floor <= 1024
    ensures a < b ==> a.Floor <= b.Floor <= 1023
  {
  }

  /** A grid position strictly between the coordinates lies strictly inside. */
  lemma PlaneInside(g: Grid, p: Box, d: nat, i: int)
    requires OnGrid(g, p) && d < 3 && ILower(g, p, d) < i <= IUpper(g, p, d)
    ensures Axis(p.lo, d) < PlaneAt(g, d, i) < Axis(p.hi, d)
  {
    hide GridOf;
    if g.extend == 0.0 {
      NoScale(Axis(p.lo, d), Axis(g.base, d));
      NoScale(Axis(p.hi, d), Axis(g.base, d));
    } else {
      Between2(Axis(p.lo, d), Axis(p.hi, d), Axis(g.base, d), g.extend, i);
    }
  }

  /** World position of a grid plane. */
  function PlaneAt(g: Grid, d: nat, i: int): real {
    Axis(g.base, d) + i as real * (1.0 / 1024.0) * g.extend
  }

  lemma Between2(lo: real, hi: real, base: real, extend: real, i: int)
    requires 0.0 < extend
    requires GridOf(lo, base, 1024.0 / extend) < i as real < GridOf(hi, base, 1024.0 / extend)
    ensures lo < base + i as real * (1.0 / 1024.0) * extend < hi
  {
    var s := 1024.0 / extend;
    assert s * extend == 1024.0;
    Unscale(lo - base, s, extend, i as real);
    Unscale(hi - base, s, extend, i as real);
  }

  lemma Unscale(x: real, s: real, e: real, y: real)
    requires 0.0 < e && s * e == 1024.0
    ensures x * s < y ==> x < y * (1.0 / 1024.0) * e
    ensures y < x * s ==> y * (1.0 / 1024.0) * e < x
  {
    assert x * 1024.0 == (x * s) * e;
    if x * s < y {
      assert (x * s) * e < y * e;
    }
    if y < x * s {
      assert y * e < (x * s) * e;
    }
  }

  /** The codes of the corners of a reference. */
  function LowerCode(g: Grid, p: Box): bv32
    requires OnGrid(g, p)
  {
    Coordinates(g, p, 0);
    Coordinates(g, p, 1);
    Coordinates(g, p, 2);
    BitInterleave(Word(ILower(g, p, 0)), Word(ILower(g, p, 1)), Word(ILower(g, p, 2)))
  }

  function UpperCode(g: Grid, p: Box): bv32
    requires OnGrid(g, p)
  {
    Coordinates(g, p, 0);
    Coordinates(g, p, 1);
    Coordinates(g, p, 2);
    BitInterleave(Word(IUpper(g, p, 0)), Word(IUpper(g, p, 1)), Word(IUpper(g, p, 2)))
  }

  ghost predicate SameCoordinates(g: Grid, p: Box)
    requires p.Box?
  {
    forall d: nat :: d < 3 ==> ILower(g, p, d) == IUpper(g, p, d)
  }

  lemma CodesEqual(g: Grid, p: Box)
    requires OnGrid(g, p)
    ensures LowerCode(g, p) == UpperCode(g, p) <==> SameCoordinates(g, p)
    ensures LowerCode(g, p) != UpperCode(g, p) ==> NoneHigher(Xor(LowerCode(g, p), UpperCode(g, p)), TOP)
  {
    hide ILower, IUpper, Word, BitInterleave, Ordered, OnGrid, UpTo, Place.CodeBit;
    Coordinates(g, p, 0);
    Coordinates(g, p, 1);
    Coordinates(g, p, 2);
    var xl, yl, zl := ILower(g, p, 0), ILower(g, p, 1), ILower(g, p, 2);
    var xu, yu, zu := IUpper(g, p, 0), IUpper(g, p, 1), IUpper(g, p, 2);
    OrderedWords(xl, xu);
    OrderedWords(yl, yu);
    OrderedWords(zl, zu);
    SameCodes(Word(xl), Word(yl), Word(zl), Word(xu), Word(yu), Word(zu));
    CodesFit(Word(xl), Word(yl), Word(zl), Word(xu), Word(yu), Word(zu));
    XorZero(LowerCode(g, p), UpperCode(g, p));
    TopValid();
  }

  /** The plane at the highest bit in which the two codes differ. */
  ghost function GridPlane(g: Grid, p: Box): Option<(nat, real)>
    requires OnGrid(g, p)
  {
    CodesEqual(g, p);
    if LowerCode(g, p) == UpperCode(g, p) then None else
      var q := HighPlace(Xor(LowerCode(g, p), UpperCode(g, p)), TOP);
      Coordinates(g, p, q.dim);
      Some((q.dim, PlaneAt(g, q.dim, RoundDown(IUpper(g, p, q.dim), q.level))))
  }

  /** It lies strictly inside the reference; there is none only when the grid
      coordinates agree in all dimensions. */
  lemma GridPlaneInside(g: Grid, p: Box)
    requires OnGrid(g, p)
    ensures var split := GridPlane(g, p);
      && (split.Some? ==> split.value.0 < 3 && Axis(p.lo, split.value.0) < split.value.1 < Axis(p.hi, split.value.0))
      && (split.None? <==> SameCoordinates(g, p))
  {
    hide ILower, IUpper, Word, BitInterleave, Ordered, UpTo, Hit, PlaneAt, Axis, OnGrid, RoundDown, SameCoordinates, Xor, HighPlace;
    CodesEqual(g, p);
    if LowerCode(g, p) != UpperCode(g, p) {
      var q := HighPlace(Xor(LowerCode(g, p), UpperCode(g, p)), TOP);
      HighPlaceIs(Xor(LowerCode(g, p), UpperCode(g, p)), TOP);
      SplitPlane(g, p, q);
    }
  }

  /** The split position of a reference. */
  method SplitPos(g: Grid, p: Box) returns (split: Option<(nat, real)>)
    requires OnGrid(g, p)
    ensures split == GridPlane(g, p)
    ensures split.Some? ==> split.value.0 < 3 && Axis(p.lo, split.value.0) < split.value.1 < Axis(p.hi, split.value.0)
    ensures split.None? <==> SameCoordinates(g, p)
  {
    hide ILower, IUpper, Word, BitInterleave, Ordered, UpTo, Hit, PlaneAt, Axis, OnGrid, RoundDown, SameCoordinates, Xor, HighPlace,
      Place.CodeBit, IsBit;
    CodesEqual(g, p);
    GridPlaneInside(g, p);
    var lower_code, upper_code := ComputeMC(g, p);
    if lower_code == upper_code {
      return None;
    }
    var q := TopBit(Xor(lower_code, upper_code));
    Coordinates(g, p, q.dim);
    var isplit := RoundDown(IUpper(g, p, q.dim), q.level);
    split := Some((q.dim, PlaneAt(g, q.dim, isplit)));
  }

  /** The codes of both corners of a reference: they differ exactly when some
      split plane passes through it. */
  method ComputeMC(g: Grid, p: Box) returns (lower_code: bv32, upper_code: bv32)
    requires OnGrid(g, p)
    ensures lower_code == LowerCode(g, p) && upper_code == UpperCode(g, p)
    ensures lower_code == upper_code <==> SameCoordinates(g, p)
  {
    hide ILower, IUpper, Word, BitInterleave, SameCoordinates, OnGrid;
    Coordinates(g, p, 0);
    Coordinates(g, p, 1);
    Coordinates(g, p, 2);
    lower_code := BitInterleave(Word(ILower(g, p, 0)), Word(ILower(g, p, 1)), Word(ILower(g, p, 2)));
    upper_code := BitInterleave(Word(IUpper(g, p, 0)), Word(IUpper(g, p, 1)), Word(IUpper(g, p, 2)));
    CodesEqual(g, p);
  }

  /** Which references of a scene can be split at all: those with different
      grid coordinates in some dimension. */
  method Splittable(bounds: Box, boxes: seq<Box>) returns (flags: seq<bool>)
    requires Proper(bounds) && forall i: nat :: i < |boxes| ==> Proper(boxes[i]) && Subset(boxes[i], bounds)
    ensures |flags| == |boxes|
    ensures forall i: nat :: i < |boxes| ==> Proper(boxes[i]) && (flags[i] <==>
              exists d: nat :: d < 3 && ILower(NewGrid(bounds), boxes[i], d) != IUpper(NewGrid(bounds), boxes[i], d))
  {
    hide ILower, IUpper, NewGrid, Subset, OnGrid;
    flags := [];
    var g := NewGrid(bounds);
    for i := 0 to |boxes|
      invariant |flags| == i
      invariant forall j: nat :: j < i ==> (flags[j] <==> exists d: nat :: d < 3 && ILower(g, boxes[j], d) != IUpper(g, boxes[j], d))
    {
      InsideGrid(bounds, boxes[i]);
      var lower_code, upper_code := ComputeMC(g, boxes[i]);
      flags := flags + [lower_code != upper_code];
    }
  }

  lemma OrderedWords(l: nat, u: nat)
    requires l <= u <= 1024 && (l == u || u < 1024)
    ensures Ordered(Word(l), Word(u)) && (Word(l) == Word(u) <==> l == u)
  {
    hide Word;
    WordOrderBack(l, u);
    WordOrderBack(u, 1024);
    WordOrderBack(l, 1024);
    Word1024();
  }

  lemma Word1024()
    ensures Word(1024) == 1024
  {
    assert Word(1) == 1;
    assert Word(2) == 2;
    assert Word(4) == 4;
    assert Word(8) == 8;
    assert Word(16) == 16;
    assert Word(32) == 32;
    assert Word(64) == 64;
    assert Word(128) == 128;
    assert Word(256) == 256;
    assert Word(512) == 512;
  }

  lemma XorZero(a: bv32, b: bv32)
    ensures Xor(a, b) == 0 ==> a == b
  {
  }

  lemma SplitPlane(g: Grid, p: Box, q: Place)
    requires OnGrid(g, p) && Highest(Xor(LowerCode(g, p), UpperCode(g, p)), q)
    ensures q.dim < 3 && 0 <= IUpper(g, p, q.dim)
    ensures Axis(p.lo, q.dim) < PlaneAt(g, q.dim, RoundDown(IUpper(g, p, q.dim), q.level)) < Axis(p.hi, q.dim)
  {
    hide ILower, IUpper, OnGrid, Word, BitInterleave, Ordered, UpTo, Hit, PlaneAt, Axis, Xor, RoundDown, Between, RoundTo, Place.Valid,
      Place.CodeBit, IsBit;
    PlaceFacts(q);
    Coordinates(g, p, 0);
    Coordinates(g, p, 1);
    Coordinates(g, p, 2);
    var xl, yl, zl := ILower(g, p, 0), ILower(g, p, 1), ILower(g, p, 2);
    var xu, yu, zu := IUpper(g, p, 0), IUpper(g, p, 1), IUpper(g, p, 2);
    OrderedWords(xl, xu);
    OrderedWords(yl, yu);
    OrderedWords(zl, zu);
    PlaceBetween(Word(xl), Word(yl), Word(zl), Word(xu), Word(yu), Word(zu), q);
    if q.dim == 0 {
      PlaneOf(g, p, 0, xl, xu, q.level, q.mask);
    } else if q.dim == 1 {
      PlaneOf(g, p, 1, yl, yu, q.level, q.mask);
    } else {
      assert q.dim == 2;
      PlaneOf(g, p, 2, zl, zu, q.level, q.mask);
    }
  }

  lemma PlaceFacts(q: Place)
    requires q.Valid()
    ensures q.dim < 3 && IsBit(q.level, q.mask)
  {
  }

  lemma PlaceBetween(xl: bv32, yl: bv32, zl: bv32, xu: bv32, yu: bv32, zu: bv32, q: Place)
    requires q.Valid() && Ordered(xl, xu) && Ordered(yl, yu) && Ordered(zl, zu)
    requires var v := Xor(BitInterleave(xl, yl, zl), BitInterleave(xu, yu, zu));
      Hit(v, q.CodeBit()) && UpTo(v, q.CodeBit())
    ensures q.dim == 0 ==> Between(xl, xu, q.mask)
    ensures q.dim == 1 ==> Between(yl, yu, q.mask)
    ensures q.dim == 2 ==> Between(zl, zu, q.mask)
  {
    hide BitInterleave, Ordered, UpTo, Hit, Xor, Shift, Spread, IsBit, Between, OneHot, RoundTo;
    IsBitOneHot(q.level, q.mask);
    SplitBetween(xl, yl, zl, xu, yu, zu, q.mask, q.dim);
  }

  lemma PlaneOf(g: Grid, p: Box, d: nat, l: nat, u: nat, level: nat, m: bv32)
    requires OnGrid(g, p) && d < 3 && l == ILower(g, p, d) && u == IUpper(g, p, d) && l <= 1024 && u <= 1024
    requires IsBit(level, m) && Between(Word(l), Word(u), m)
    ensures Axis(p.lo, d) < PlaneAt(g, d, RoundDown(u, level)) < Axis(p.hi, d)
  {
    hide ILower, IUpper, Word, PlaneAt, Axis, IsBit, RoundDown, Between, RoundTo;
    WordRounds(u, level, m);
    RoundedBetween(l, u, level, m);
    PlaneInside(g, p, d, RoundDown(u, level));
  }

  lemma RoundedBetween(l: nat, u: nat, level: nat, m: bv32)
    requires l <= 1024 && u <= 1024 && Between(Word(l), Word(u), m) && Word(RoundDown(u, level)) == RoundTo(Word(u), m)
    ensures l < RoundDown(u, level) <= u
  {
    hide Word, RoundTo, RoundDown, Less;
    RoundDownLe(u, level);
    BetweenLess(Word(l), Word(u), m);
    WordOrderBack(l, RoundDown(u, level));
  }

  lemma RoundDownLe(u: nat, level: nat)
    ensures RoundDown(u, level) <= u
  {
    var q := DivFloor(u, TwoTo(level));
  }

  lemma BetweenLess(l: bv32, u: bv32, m: bv32)
    requires Between(l, u, m)
    ensures Less(l, RoundTo(u, m))
  {
    hide RoundTo;
  }
}
