/** The least box around references (rtbuild/math/bbox.h,
    rtbuild/builders/priminfo.h). */
module Hulls {
  import opened Common
  import opened Geometry
  import opened Bvh
  import opened ParallelPartition

  /** Boxes that tasks collect on their own merge to the box of all. */
  lemma GrowMerges()
    ensures Merges(Grow, Empty, Extend)
  {
    forall v: Box, p: PrimRef, q: PrimRef
      ensures Grow(Grow(v, p), q) == Grow(Grow(v, q), p)
    {
      ExtendLaws(v, p.bounds, q.bounds);
    }
    forall v: Box, s: seq<PrimRef>
      ensures Extend(v, Fold(Grow, Empty, s)) == Fold(Grow, v, s)
    {
      GrowFrom(v, s);
    }
  }

  lemma {:induction false} GrowFrom(v: Box, s: seq<PrimRef>)
    ensures Extend(v, Fold(Grow, Empty, s)) == Fold(Grow, v, s)
  {
    hide Extend;
    if s == [] {
      ExtendEmpty(v);
    } else {
      var n := |s| - 1;
      GrowFrom(v, s[..n]);
      ExtendLaws(v, Fold(Grow, Empty, s[..n]), s[n].bounds);
    }
  }

  lemma ExtendEmpty(v: Box)
    ensures Extend(v, Empty) == v
  {
  }

  lemma GrowCommutes()
    ensures Commutes(Grow)
  {
    forall v: Box, p: PrimRef, q: PrimRef
      ensures Grow(Grow(v, p), q) == Grow(Grow(v, q), p)
    {
      ExtendLaws(v, p.bounds, q.bounds);
    }
  }

  /** It does not depend on the order. */
  lemma HullPermutes(s: seq<PrimRef>, t: seq<PrimRef>)
    requires multiset(s) == multiset(t)
    ensures Hull(s) == Hull(t)
  {
    GrowCommutes();
    FoldPermutation(Grow, Empty, s, t);
  }

  lemma HullBack(s: seq<PrimRef>)
    ensures FoldBack(Grow, Empty, s) == Hull(s)
  {
    GrowCommutes();
    FoldBackIsFold(Grow, Empty, s);
  }

  lemma HullAppend(s: seq<PrimRef>, p: PrimRef)
    ensures Hull(s + [p]) == Extend(Hull(s), p.bounds)
  {
    FoldAppend(Grow, Empty, s, p);
  }

  lemma {:induction false} HullConcat(s: seq<PrimRef>, t: seq<PrimRef>)
    ensures Hull(s + t) == Extend(Hull(s), Hull(t))
  {
    hide Extend, Hull;
    if t == [] {
      assert s + t == s;
      HullNone();
      ExtendEmpty(Hull(s));
    } else {
      var n := |t| - 1;
      HullConcat(s, t[..n]);
      assert s + t == s + t[..n] + [t[n]] && t == t[..n] + [t[n]];
      HullAppend(s + t[..n], t[n]);
      HullAppend(t[..n], t[n]);
      ExtendLaws(Hull(s), Hull(t[..n]), t[n].bounds);
    }
  }

  lemma HullNone()
    ensures Hull([]) == Empty
  {
  }

  lemma HullOne(p: PrimRef)
    ensures Hull([p]) == p.bounds
  {
    HullNone();
    HullAppend([], p);
    assert [] + [p] == [p];
  }

  /** It holds every reference. */
  lemma {:induction false} HullCovers(s: seq<PrimRef>, i: nat)
    requires i < |s|
    ensures Subset(s[i].bounds, Hull(s))
  {
    hide Extend, Hull, Subset;
    var n := |s| - 1;
    assert s == s[..n] + [s[n]];
    HullAppend(s[..n], s[n]);
    ExtendCovers(Hull(s[..n]), s[n].bounds);
    if i < n {
      HullCovers(s[..n], i);
      SubsetTrans(s[i].bounds, Hull(s[..n]), Hull(s));
    }
  }

  /** And every box that does so holds it. */
  lemma {:induction false} HullLeast(s: seq<PrimRef>, b: Box)
    requires forall p :: p in s ==> Subset(p.bounds, b)
    ensures Subset(Hull(s), b)
  {
    hide Extend, Hull, Subset;
    if s == [] {
      HullNone();
      EmptyInside(b);
    } else {
      var n := |s| - 1;
      assert s == s[..n] + [s[n]];
      HullLeast(s[..n], b);
      HullAppend(s[..n], s[n]);
      ExtendLeast(Hull(s[..n]), s[n].bounds, b);
    }
  }

  lemma EmptyInside(b: Box)
    ensures Subset(Empty, b)
  {
  }

  lemma {:induction false} HullProper(s: seq<PrimRef>)
    requires s != [] && forall p :: p in s ==> Proper(p.bounds)
    ensures Proper(Hull(s))
  {
    hide Extend, Hull, Proper;
    var n := |s| - 1;
    assert s == s[..n] + [s[n]];
    HullAppend(s[..n], s[n]);
    ExtendCovers(Hull(s[..n]), s[n].bounds);
    if n == 0 {
      assert s[..n] == [];
      HullNone();
    } else {
      HullProper(s[..n]);
    }
  }
}
