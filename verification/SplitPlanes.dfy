/** Which plane the Morton codes choose, in terms of the scene and the reference:
    of all grid planes well inside the reference the one with the most factors of
    two in its number (rtbuild/builders/primrefgen_presplit.h:31-76). */
module SplitPlanes {
  import opened Common
  import opened Geometry
  import opened Morton

  // ----- factors of two

  /** How often i can be halved. */
  function Twos(i: nat): nat {
    if i == 0 || i % 2 == 1 then 0 else 1 + Twos(i / 2)
  }

  lemma {:induction false} TwosDivide(i: nat, k: nat)
    requires 0 < i
    ensures k <= Twos(i) <==> i % TwoTo(k) == 0
    decreases k
  {
    if k == 0 {
      ByOne(i);
    } else if i % 2 == 0 {
      TwosDivide(i / 2, k - 1);
      HalfDivides(i, TwoTo(k - 1));
    } else {
      OddDivides(i, TwoTo(k - 1));
    }
  }

  lemma ByOne(i: nat)
    ensures i % 1 == 0
  {
  }

  lemma HalfDivides(i: nat, p: nat)
    requires 1 <= p && i % 2 == 0
    ensures i % (2 * p) == 0 <==> (i / 2) % p == 0
  {
    var q, h := i / 2 / p, i / 2;
    var r := DivFloor(h, p);
    HalfQuotient(i, p);
    RoundParts(i, p, r);
    assert i == 2 * h && h == p * r + h % p && i == (2 * p) * r + i % (2 * p) by {
      Quotient(h, p);
      Quotient(i, 2 * p);
    }
    assert (2 * p) * r == 2 * (p * r);
  }

  lemma Quotient(a: nat, p: nat)
    requires 1 <= p
    ensures a == p * (a / p) + a % p
  {
  }

  lemma OddDivides(i: nat, p: nat)
    requires 1 <= p && i % 2 == 1
    ensures i % (2 * p) != 0
  {
    Quotient(i, 2 * p);
    var q := i / (2 * p);
    assert (2 * p) * q == 2 * (p * q);
  }

  lemma TwosBelow(i: nat, k: nat)
    requires 0 < i < TwoTo(k)
    ensures Twos(i) < k
  {
    TwosDivide(i, k);
    SmallRest(i, TwoTo(k));
  }

  lemma SmallRest(i: nat, p: nat)
    requires i < p
    ensures i % p == i
  {
  }

  lemma TwoTo10()
    ensures TwoTo(9) == 512 && TwoTo(10) == 1024 && Twos(512) == 9
  {
    assert TwoTo(5) == 32;
    assert Twos(16) == 4;
  }

  // ----- no bit above the chosen one

  lemma GridBitOf(k: nat) returns (m: bv32)
    requires k < 10
    ensures IsBit(k, m) && GridBit(m)
  {
    hide OneHot;
    TopValid();
    m := if k == 0 then 0x1 else if k == 1 then 0x2 else if k == 2 then 0x4 else if k == 3 then 0x8 else if k == 4 then 0x10
         else if k == 5 then 0x20 else if k == 6 then 0x40 else if k == 7 then 0x80 else if k == 8 then 0x100 else 0x200;
    FirstBits();
    IsBitOneHot(k, m);
  }

  lemma FirstBits()
    ensures IsBit(0, 0x1) && IsBit(1, 0x2) && IsBit(2, 0x4) && IsBit(3, 0x8) && IsBit(4, 0x10)
    ensures IsBit(5, 0x20) && IsBit(6, 0x40) && IsBit(7, 0x80) && IsBit(8, 0x100) && IsBit(9, 0x200)
  {
    assert IsBit(0, 0x1);
    assert IsBit(1, 0x2);
    assert IsBit(2, 0x4);
    assert IsBit(3, 0x8);
    assert IsBit(4, 0x10);
    assert IsBit(5, 0x20);
    assert IsBit(6, 0x40);
    assert IsBit(7, 0x80);
    assert IsBit(8, 0x100);
  }

  /** Bits of higher levels are larger. */
  lemma {:induction false} LevelOrder(j: nat, k: nat, m: bv32, n: bv32)
    requires IsBit(j, m) && IsBit(k, n) && GridBit(m) && GridBit(n)
    ensures j < k ==> Higher(n, m)
    ensures j == k ==> m == n
    decreases k
  {
    hide OneHot;
    if k == 0 {
      if j != 0 {
        BitNotOne(j, m);
      }
    } else if j == 0 {
      BitNotOne(k, n);
    } else {
      IsBitOneHot(j, m);
      IsBitOneHot(k, n);
      IsBitOneHot(j - 1, m >> 1);
      IsBitOneHot(k - 1, n >> 1);
      HalfGrid(m);
      HalfGrid(n);
      LevelOrder(j - 1, k - 1, m >> 1, n >> 1);
      HalfOrder(m, n);
    }
  }

  lemma BitNotOne(k: nat, m: bv32)
    requires IsBit(k, m) && k != 0 && GridBit(m)
    ensures Higher(m, 1) && m != 1
  {
    OneEven(m);
  }

  lemma OneEven(m: bv32)
    ensures m & 1 == 0 && m != 0 ==> 1 < m
  {
  }

  lemma HalfGrid(m: bv32)
    ensures m < 1024 ==> m >> 1 < 1024
  {
  }

  lemma HalfOrder(m: bv32, n: bv32)
    requires m & 1 == 0 && n & 1 == 0 && m < 1024 && n < 1024
    ensures m >> 1 < n >> 1 ==> m < n
    ensures m >> 1 == n >> 1 ==> m == n
  {
  }

  lemma AboveNone(v: bv32, a: bv32, b: bv32)
    requires OneHot(a) && OneHot(b) && a < b && UpTo(v, a)
    ensures !Hit(v, b)
  {
  }

  /** Places are ordered by level, then by dimension. */
  lemma PlaceOrder(m: bv32, d: nat, n: bv32, e: nat)
    requires GridBit(m) && GridBit(n) && d < 3 && e < 3 && (Higher(n, m) || (n == m && d < e))
    ensures OneHot(Shift(Spread(m), d)) && OneHot(Shift(Spread(n), e)) && Shift(Spread(m), d) < Shift(Spread(n), e)
  {
    hide Spread, Shift, OneHot;
    SpreadBits(0, m);
    SpreadBits(0, n);
    ShiftOneHot(Spread(m), d);
    ShiftOneHot(Spread(n), e);
    if Higher(n, m) {
      SpreadApart(m, n);
    }
    ShiftOrder(Spread(m), d, Spread(n), e);
  }

  lemma SpreadApart(m: bv32, n: bv32)
    requires GridBit(m) && GridBit(n) && Higher(n, m)
    ensures Spread(m) << 2 < Spread(n)
  {
  }

  lemma ShiftOrder(a: bv32, d: nat, b: bv32, e: nat)
    requires a < 0x1000_0000 && b < 0x1000_0000 && d < 3 && e < 3 && OneHot(a) && OneHot(b)
    requires a << 2 < b || (a == b && d < e)
    ensures Shift(a, d) < Shift(b, e)
  {
  }

  /** Coordinates agree above the highest differing bit of the codes. */
  lemma AgreeAbove(xl: bv32, yl: bv32, zl: bv32, xu: bv32, yu: bv32, zu: bv32, q: Place, k: nat, m: bv32, e: nat)
    requires Ordered(xl, xu) && Ordered(yl, yu) && Ordered(zl, zu) && q.Valid() && e < 3
    requires UpTo(Xor(BitInterleave(xl, yl, zl), BitInterleave(xu, yu, zu)), q.CodeBit())
    requires IsBit(k, m) && GridBit(m) && (q.level < k || (k == q.level && q.dim < e))
    ensures RoundTo(Pick(e, xl, yl, zl), m) == RoundTo(Pick(e, xu, yu, zu), m)
  {
    hide Spread, UpTo, Ordered, Hit, Xor, BitInterleave, Shift, OneHot, RoundTo, IsBit, Pick;
    IsBitOneHot(q.level, q.mask);
    LevelOrder(q.level, k, q.mask, m);
    var l, u := Pick(e, xl, yl, zl), Pick(e, xu, yu, zu);
    PickOrdered(xl, yl, zl, xu, yu, zu, e);
    forall n: bv32 | GridBit(n) && (n == m || Higher(n, m))
      ensures !Hit(Xor(l, u), n)
    {
      BitAbove(xl, yl, zl, xu, yu, zu, q, n, e);
    }
    NoneFrom(Xor(l, u), m);
    SameRounded(l, u, m);
  }

  lemma PickOrdered(xl: bv32, yl: bv32, zl: bv32, xu: bv32, yu: bv32, zu: bv32, e: nat)
    requires Ordered(xl, xu) && Ordered(yl, yu) && Ordered(zl, zu) && e < 3
    ensures Ordered(Pick(e, xl, yl, zl), Pick(e, xu, yu, zu))
  {
    hide Ordered;
  }

  lemma BitAbove(xl: bv32, yl: bv32, zl: bv32, xu: bv32, yu: bv32, zu: bv32, q: Place, n: bv32, e: nat)
    requires Ordered(xl, xu) && Ordered(yl, yu) && Ordered(zl, zu) && q.Valid() && e < 3
    requires UpTo(Xor(BitInterleave(xl, yl, zl), BitInterleave(xu, yu, zu)), q.CodeBit())
    requires GridBit(n) && (Higher(n, q.mask) || (n == q.mask && q.dim < e))
    ensures !Hit(Xor(Pick(e, xl, yl, zl), Pick(e, xu, yu, zu)), n)
  {
    hide Spread, UpTo, Ordered, Hit, Xor, BitInterleave, Shift, OneHot, IsBit, Pick;
    IsBitOneHot(q.level, q.mask);
    CodeBits(xl, yl, zl, xu, yu, zu, n, e);
    PlaceOrder(q.mask, q.dim, n, e);
    AboveNone(Xor(BitInterleave(xl, yl, zl), BitInterleave(xu, yu, zu)), Shift(Spread(q.mask), q.dim), Shift(Spread(n), e));
  }

  /** Without a bit from m on. */
  lemma NoneFrom(x: bv32, m: bv32)
    requires GridBit(m) && forall n: bv32 :: GridBit(n) && (n == m || Higher(n, m)) ==> !Hit(x, n)
    ensures x & 0x3FF & !(m - 1) == 0
  {
    assert GridBit(1) && GridBit(2) && GridBit(4) && GridBit(8) && GridBit(16) && GridBit(32);
    assert GridBit(64) && GridBit(128) && GridBit(256) && GridBit(512);
  }

  lemma SameRounded(l: bv32, u: bv32, m: bv32)
    requires Ordered(l, u) && GridBit(m) && Xor(l, u) & 0x3FF & !(m - 1) == 0
    ensures RoundTo(l, m) == RoundTo(u, m)
  {
  }

  // ----- the plane of a reference

  /** A multiple of 2^k between two numbers changes what rounding to it gives. */
  lemma RoundingDiffers(l: nat, u: nat, j: nat, k: nat, m: bv32)
    requires l < j <= u <= 1024 && k <= Twos(j) && IsBit(k, m)
    ensures RoundTo(Word(l), m) != RoundTo(Word(u), m)
  {
    hide Word, RoundTo, RoundDown, Twos, IsBit;
    TwosDivide(j, k);
    MultipleBelow(j, u, k);
    RoundDownLe(l, k);
    RoundDownLe(u, k);
    WordRounds(l, k, m);
    WordRounds(u, k, m);
    WordOrderBack(RoundDown(l, k), RoundDown(u, k));
  }

  lemma MultipleBelow(j: nat, u: nat, k: nat)
    requires j % TwoTo(k) == 0 && j <= u
    ensures j <= RoundDown(u, k)
  {
    var p := TwoTo(k);
    Quotient(j, p);
    var q := DivFloor(u, p);
    assert p * (j / p) == (j / p) * p;
    MulMono(if q < j / p then q + 1 else j / p, if q < j / p then j / p else q, p);
  }

  /** Grid plane i of dimension d lies between the coordinates of the reference. */
  ghost predicate Cuts(g: Grid, p: Box, d: nat, i: int)
    requires p.Box?
  {
    d < 3 && ILower(g, p, d) < i <= IUpper(g, p, d)
  }

  lemma MostTwos(g: Grid, p: Box, q: Place, e: nat, j: nat)
    requires OnGrid(g, p) && Highest(Xor(LowerCode(g, p), UpperCode(g, p)), q) && Cuts(g, p, e, j)
    ensures Twos(j) < q.level || (Twos(j) == q.level && e <= q.dim)
  {
    hide ILower, IUpper, OnGrid, Word, BitInterleave, Ordered, UpTo, Hit, Xor, Twos, TwoTo, Place.CodeBit, RoundTo, IsBit, Place.Valid;
    PlaceFacts(q);
    Coordinates(g, p, 0);
    Coordinates(g, p, 1);
    Coordinates(g, p, 2);
    var xl, yl, zl := ILower(g, p, 0), ILower(g, p, 1), ILower(g, p, 2);
    var xu, yu, zu := IUpper(g, p, 0), IUpper(g, p, 1), IUpper(g, p, 2);
    OrderedWords(xl, xu);
    OrderedWords(yl, yu);
    OrderedWords(zl, zu);
    TwoTo10();
    TwosBelow(j, 10);
    var k := Twos(j);
    if q.level < k || (k == q.level && q.dim < e) {
      var m := GridBitOf(k);
      AgreeAbove(Word(xl), Word(yl), Word(zl), Word(xu), Word(yu), Word(zu), q, k, m, e);
      RoundingDiffers(if e == 0 then xl else if e == 1 then yl else zl, if e == 0 then xu else if e == 1 then yu else zu, j, k, m);
    }
  }

  /** The plane that is chosen. */
  ghost predicate Chosen(g: Grid, p: Box, d: nat, i: nat)
    requires p.Box?
  {
    && Cuts(g, p, d, i)
    && forall e: nat, j: nat :: Cuts(g, p, e, j) ==> Twos(j) <= Twos(i) && (Twos(j) == Twos(i) ==> e < d || (e == d && j == i))
  }

  lemma PlaceChosen(g: Grid, p: Box, q: Place)
    requires OnGrid(g, p) && Highest(Xor(LowerCode(g, p), UpperCode(g, p)), q)
    ensures p.Box? && q.dim < 3 && 0 <= IUpper(g, p, q.dim) && Chosen(g, p, q.dim, RoundDown(IUpper(g, p, q.dim), q.level))
    ensures Twos(RoundDown(IUpper(g, p, q.dim), q.level)) == q.level
  {
    hide ILower, IUpper, OnGrid, Twos, RoundDown, Highest, Xor, LowerCode, UpperCode;
    PlaceRange(g, p, q);
    var d := q.dim;
    var i: nat := RoundDown(IUpper(g, p, d), q.level);
    RoundIsMultiple(IUpper(g, p, d), q.level);
    TwosDivide(i, q.level);
    MostTwos(g, p, q, d, i);
    forall e: nat, j: nat | Cuts(g, p, e, j)
      ensures Twos(j) <= Twos(i) && (Twos(j) == Twos(i) ==> e < d || (e == d && j == i))
    {
      Coordinates(g, p, e);
      MostTwos(g, p, q, e, j);
      if Twos(j) == q.level && e == d && j != i {
        TwosDivide(j, q.level);
        MultipleBelow(j, IUpper(g, p, d), q.level);
        NextMultiple(j, i, q.level);
        MostTwos(g, p, q, d, j + TwoTo(q.level));
      }
    }
  }

  lemma PlaceRange(g: Grid, p: Box, q: Place)
    requires OnGrid(g, p) && Highest(Xor(LowerCode(g, p), UpperCode(g, p)), q)
    ensures p.Box? && q.dim < 3 && 0 <= ILower(g, p, q.dim) && 0 <= IUpper(g, p, q.dim)
    ensures Cuts(g, p, q.dim, RoundDown(IUpper(g, p, q.dim), q.level))
  {
    hide ILower, IUpper, OnGrid, Word, BitInterleave, Ordered, UpTo, Hit, Xor, Place.CodeBit, RoundTo, IsBit, Place.Valid, RoundDown, Between;
    PlaceFacts(q);
    Coordinates(g, p, 0);
    Coordinates(g, p, 1);
    Coordinates(g, p, 2);
    var xl, yl, zl := ILower(g, p, 0), ILower(g, p, 1), ILower(g, p, 2);
    var xu, yu, zu := IUpper(g, p, 0), IUpper(g, p, 1), IUpper(g, p, 2);
    OrderedWords(xl, xu);
    OrderedWords(yl, yu);
    OrderedWords(zl, zu);
    Morton.PlaceBetween(Word(xl), Word(yl), Word(zl), Word(xu), Word(yu), Word(zu), q);
    if q.dim == 0 {
      RoundedIn(xl, xu, q.level, q.mask);
    } else if q.dim == 1 {
      RoundedIn(yl, yu, q.level, q.mask);
    } else {
      RoundedIn(zl, zu, q.level, q.mask);
    }
  }

  lemma RoundedIn(l: nat, u: nat, level: nat, m: bv32)
    requires l <= 1024 && u <= 1024 && IsBit(level, m) && Between(Word(l), Word(u), m)
    ensures l < RoundDown(u, level) <= u
  {
    hide Word, RoundTo, RoundDown, Between, IsBit;
    WordRounds(u, level, m);
    RoundedBetween(l, u, level, m);
  }

  lemma RoundIsMultiple(u: nat, k: nat)
    ensures RoundDown(u, k) % TwoTo(k) == 0
  {
    hide TwoTo;
    QuotientMultiple(u, TwoTo(k));
  }

  lemma QuotientMultiple(u: nat, p: nat)
    requires 1 <= p
    ensures (u / p * p) % p == 0
  {
    var q := DivFloor(u, p);
    MultipleRest(q, p);
  }

  lemma MultipleRest(q: nat, p: nat)
    requires 1 <= p
    ensures (q * p) % p == 0
  {
    DivUnique(q * p, p, q);
    Quotient(q * p, p);
  }

  /** Between two multiples of 2^k, the first one odd, the next one is a multiple
      of 2^(k + 1). */
  lemma NextMultiple(j: nat, i: nat, k: nat)
    requires 0 < j < i && Twos(j) == k && i % TwoTo(k) == 0
    ensures j + TwoTo(k) <= i && k < Twos(j + TwoTo(k))
  {
    hide Twos, TwoTo;
    TwosDivide(j, k);
    TwosDivide(j, k + 1);
    DoubleTwo(k);
    MultiplesApart(j, i, TwoTo(k));
    TwosDivide(j + TwoTo(k), k + 1);
  }

  lemma DoubleTwo(k: nat)
    ensures TwoTo(k + 1) == 2 * TwoTo(k)
  {
  }

  lemma MultiplesApart(j: nat, i: nat, p: nat)
    requires 1 <= p && j < i && j % p == 0 && i % p == 0 && j % (2 * p) != 0
    ensures j + p <= i && (j + p) % (2 * p) == 0
  {
    var a := DivFloor(j, p);
    var b := DivFloor(i, p);
    Quotient(j, p);
    Quotient(i, p);
    assert j == a * p && i == b * p;
    MulMono(b, Max(a, b), p);
    MulMono(a + 1, Max(a + 1, b), p);
    EvenNext(j, a, p);
  }

  lemma EvenNext(j: nat, a: nat, p: nat)
    requires 1 <= p && j == a * p && j % (2 * p) != 0
    ensures (j + p) % (2 * p) == 0
  {
    if a % 2 == 0 {
      TwiceMultiple(a, p, a / 2);
    } else {
      TwiceMultiple(a + 1, p, (a + 1) / 2);
      assert (a + 1) * p == j + p;
    }
  }

  lemma TwiceMultiple(a: nat, p: nat, h: nat)
    requires 1 <= p && a == 2 * h
    ensures (a * p) % (2 * p) == 0
  {
    assert a * p == h * (2 * p);
    MultipleRest(h, 2 * p);
  }

  // ----- in world coordinates

  /** The longest side of a box. */
  ghost predicate LongestSide(b: Box, side: real)
    requires b.Box?
  {
    && (exists d: nat :: d < 3 && SideOf(b, d) == side)
    && (forall d: nat :: d < 3 ==> SideOf(b, d) <= side)
  }

  function SideOf(b: Box, d: nat): real
    requires b.Box?
  {
    Axis(b.hi, d) - Axis(b.lo, d)
  }

  lemma GridSpansScene(scene: Box)
    requires Proper(scene)
    ensures LongestSide(scene, NewGrid(scene).extend) && NewGrid(scene).base == scene.lo
  {
    assert SideOf(scene, 0) == NewGrid(scene).extend || SideOf(scene, 1) == NewGrid(scene).extend || SideOf(scene, 2) == NewGrid(scene).extend;
  }

  /** Plane i, counted in 1024ths of the longest side of the scene, lies in the
      reference with a fifth of such a step to spare on either side. */
  ghost predicate WellInside(scene: Box, side: real, p: Box, d: nat, i: int)
    requires scene.Box? && p.Box?
  {
    && d < 3 && 0.0 < side
    && Axis(p.lo, d) + side / 5120.0 < PlanePos(scene, side, d, i) <= Axis(p.hi, d) - side / 5120.0
  }

  function PlanePos(scene: Box, side: real, d: nat, i: int): real
    requires scene.Box?
  {
    Axis(scene.lo, d) + i as real * side / 1024.0
  }

  lemma CutsAreInside(scene: Box, side: real, p: Box, d: nat, i: int)
    requires Proper(scene) && Proper(p) && Subset(p, scene) && LongestSide(scene, side) && d < 3
    ensures var g := NewGrid(scene);
      && (Cuts(g, p, d, i) <==> WellInside(scene, side, p, d, i))
      && PlaneAt(g, d, i) == PlanePos(scene, side, d, i)
  {
    hide LongestSide, Axis, NewGrid, GridOf, Subset, Proper;
    BoxOfProper(scene);
    BoxOfProper(p);
    var g := NewGrid(scene);
    OnlyLongest(scene, side);
    GridSpansScene(scene);
    InsideGrid(scene, p);
    CutsIff(g, p, d, i);
    SamePlane(Axis(g.base, d), i as real, side);
    if side == 0.0 {
      NoScale(Axis(p.lo, d), Axis(g.base, d));
      NoScale(Axis(p.hi, d), Axis(g.base, d));
    } else {
      SideSign(scene, side);
      InSteps(Axis(p.lo, d), Axis(p.hi, d), Axis(g.base, d), side, i as real);
    }
  }

  lemma OnlyLongest(b: Box, side: real)
    requires Proper(b) && LongestSide(b, side)
    ensures NewGrid(b).extend == side
  {
    GridSpansScene(b);
    var d: nat :| d < 3 && SideOf(b, d) == side;
    var e: nat :| e < 3 && SideOf(b, e) == NewGrid(b).extend;
  }

  lemma SideSign(b: Box, side: real)
    requires Proper(b) && LongestSide(b, side)
    ensures 0.0 <= side
  {
    assert SideOf(b, 0) <= side;
  }

  lemma CutsIff(g: Grid, p: Box, d: nat, i: int)
    requires OnGrid(g, p) && d < 3
    ensures p.Box?
    ensures Cuts(g, p, d, i) <==>
      GridOf(Axis(p.lo, d), Axis(g.base, d), g.Scale()) + 0.2 < i as real <= GridOf(Axis(p.hi, d), Axis(g.base, d), g.Scale()) - 0.2
  {
    hide GridOf, Axis;
  }

  lemma SamePlane(b: real, i: real, side: real)
    ensures b + i * (1.0 / 1024.0) * side == b + i * side / 1024.0
  {
    Thousandth(i, side);
  }

  lemma Thousandth(i: real, side: real)
    ensures i * (1.0 / 1024.0) * side == i * side / 1024.0
  {
    var x := i * side;
    assert i * (1.0 / 1024.0) * side == x * (1.0 / 1024.0);
  }

  lemma InSteps(lo: real, hi: real, base: real, side: real, i: real)
    requires 0.0 < side
    ensures var s := 1024.0 / side;
      (GridOf(lo, base, s) + 0.2 < i <= GridOf(hi, base, s) - 0.2)
        <==> (lo + side / 5120.0 < base + i * side / 1024.0 <= hi - side / 5120.0)
  {
    var s := 1024.0 / side;
    assert s * side == 1024.0;
    StepScaled(lo - base, s, side, i - 0.2);
    StepScaled(hi - base, s, side, i + 0.2);
    assert (i - 0.2) * side == i * side - 0.2 * side && (i + 0.2) * side == i * side + 0.2 * side;
  }

  lemma StepScaled(x: real, s: real, side: real, y: real)
    requires 0.0 < side && s * side == 1024.0
    ensures x * s < y <==> x * 1024.0 < y * side
    ensures y <= x * s <==> y * side <= x * 1024.0
  {
    assert x * 1024.0 == (x * s) * side;
    if x * s < y {
      assert (y - x * s) * side > 0.0;
    } else {
      assert (x * s - y) * side >= 0.0;
    }
  }

  /** The plane that splits a reference: of all planes well inside it the one
      whose number has the most factors of two, in the last such dimension; none
      when there is no such plane. */
  lemma PlaneIs(scene: Box, side: real, p: Box) returns (i: nat)
    requires Proper(scene) && Proper(p) && Subset(p, scene) && LongestSide(scene, side)
    ensures OnGrid(NewGrid(scene), p)
    ensures var split := GridPlane(NewGrid(scene), p);
      if split.None? then forall e: nat, j: int :: e < 3 ==> !WellInside(scene, side, p, e, j)
      else BestPlane(scene, side, p, split.value.0, i) && split.value.1 == PlanePos(scene, side, split.value.0, i)
  {
    hide ILower, IUpper, Twos, RoundDown, Highest, Xor, LowerCode, UpperCode, LongestSide, NewGrid, Proper, Subset, OnGrid, HighPlace, Cuts,
      WellInside, PlaneAt, PlanePos, Chosen, SameCoordinates;
    BoxOfProper(scene);
    BoxOfProper(p);
    var g := NewGrid(scene);
    InsideGrid(scene, p);
    GridPlaneInside(g, p);
    CodesEqual(g, p);
    i := 0;
    if LowerCode(g, p) == UpperCode(g, p) {
      NoCuts(scene, side, p);
    } else {
      var q := HighPlace(Xor(LowerCode(g, p), UpperCode(g, p)), TOP);
      HighPlaceIs(Xor(LowerCode(g, p), UpperCode(g, p)), TOP);
      PlaceChosen(g, p, q);
      i := RoundDown(IUpper(g, p, q.dim), q.level);
      CutsAreInside(scene, side, p, q.dim, i);
      ChosenIsBest(scene, side, p, q.dim, i);
    }
  }

  ghost predicate BestPlane(scene: Box, side: real, p: Box, d: nat, i: nat)
    requires scene.Box? && p.Box?
  {
    && WellInside(scene, side, p, d, i)
    && forall e: nat, j: nat :: WellInside(scene, side, p, e, j) ==>
         Twos(j) <= Twos(i) && (Twos(j) == Twos(i) ==> e < d || (e == d && j == i))
  }

  lemma ChosenIsBest(scene: Box, side: real, p: Box, d: nat, i: nat)
    requires Proper(scene) && Proper(p) && Subset(p, scene) && LongestSide(scene, side)
    requires Chosen(NewGrid(scene), p, d, i)
    ensures BestPlane(scene, side, p, d, i)
  {
    hide Cuts, Twos, LongestSide, NewGrid, Subset, Proper, PlanePos, PlaneAt, Axis;
    BoxOfProper(scene);
    BoxOfProper(p);
    ChosenCuts(NewGrid(scene), p, d, i);
    CutsAreInside(scene, side, p, d, i);
    forall e: nat, j: nat | WellInside(scene, side, p, e, j)
      ensures Cuts(NewGrid(scene), p, e, j)
    {
      CutsAreInside(scene, side, p, e, j);
    }
  }

  lemma ChosenCuts(g: Grid, p: Box, d: nat, i: nat)
    requires p.Box? && Chosen(g, p, d, i)
    ensures Cuts(g, p, d, i) && d < 3
  {
  }

  lemma NoCuts(scene: Box, side: real, p: Box)
    requires Proper(scene) && Proper(p) && Subset(p, scene) && LongestSide(scene, side)
    requires p.Box? && SameCoordinates(NewGrid(scene), p)
    ensures scene.Box? && forall e: nat, j: int :: e < 3 ==> !WellInside(scene, side, p, e, j)
  {
    hide ILower, IUpper, LongestSide, NewGrid, Subset, Proper, WellInside, PlaneAt, PlanePos, Axis;
    BoxOfProper(scene);
    BoxOfProper(p);
    forall e: nat, j: int | e < 3
      ensures !WellInside(scene, side, p, e, j)
    {
      CutsAreInside(scene, side, p, e, j);
    }
  }

  /** A reference that fills the scene is cut at half the longest side. */
  lemma SceneIsHalved(scene: Box, side: real)
    requires Proper(scene) && LongestSide(scene, side) && 0.0 < side
    ensures OnGrid(NewGrid(scene), scene)
    ensures var split := GridPlane(NewGrid(scene), scene);
      split.Some? && split.value.0 < 3 && split.value.1 == Axis(scene.lo, split.value.0) + side / 2.0
  {
    hide Twos, TwoTo, NewGrid, GridPlane, OnGrid, Axis;
    var i := PlaneIs(scene, side, scene);
    var d: nat :| d < 3 && SideOf(scene, d) == side;
    assert WellInside(scene, side, scene, d, 512);
    var split := GridPlane(NewGrid(scene), scene);
    TwoTo10();
    var e := split.value.0;
    StepInScene(scene, side, e, i);
    NineTwos(i);
  }

  lemma StepInScene(scene: Box, side: real, d: nat, i: nat)
    requires scene.Box? && LongestSide(scene, side) && WellInside(scene, side, scene, d, i)
    ensures 0 < i < 1024
  {
    hide Axis;
    var x := i as real * side;
    assert SideOf(scene, d) <= side;
    assert Axis(scene.lo, d) + side / 5120.0 < Axis(scene.lo, d) + x / 1024.0 <= Axis(scene.hi, d) - side / 5120.0;
    PlaneBelow(i as real, side, x);
  }

  lemma PlaneBelow(i: real, side: real, x: real)
    requires 0.0 < side && x == i * side
    ensures i <= 0.0 ==> x <= 0.0
    ensures 1024.0 <= i ==> 1024.0 * side <= x
  {
    if i <= 0.0 {
      assert i * side <= 0.0;
    } else if 1024.0 <= i {
      assert i * side >= 1024.0 * side;
    }
  }

  lemma NineTwos(i: nat)
    requires 0 < i < 1024 && 9 <= Twos(i)
    ensures i == 512
  {
    hide Twos, TwoTo;
    TwosDivide(i, 9);
    TwoTo10();
    Quotient(i, 512);
  }
}
