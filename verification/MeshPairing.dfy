/** Pairing the triangles of all meshes: a task pairs the stretch of every mesh
    that falls to it, and the pairing decides which references there are
    (rtbuild/qbvh6_builder_sah.h:871-900, 1064-1074). */
module MeshPairing {
  import opened Common
  import opened Geometry
  import opened NestedTasks
  import opened Bvh
  import Quadifier

  /** The geometries of a scene: triangles, their validity and boxes for the
      meshes, and the reference of each element of the others, if it has one. */
  datatype Geometries = Geometries(isMesh: nat -> bool, tri: nat -> nat -> Quadifier.Tri, valid: nat -> nat -> bool,
                                   box: nat -> nat -> Box, other: (nat, nat) -> Option<PrimRef>)

  /** Entries of the pairing for every mesh. */
  type Pairings = seq<seq<nat>>

  ghost predicate Shape(g: Geometries, sizes: seq<nat>, q: Pairings) {
    |q| == |sizes| && forall i: nat :: i < |sizes| && g.isMesh(i) ==> |q[i]| == sizes[i]
  }

  // ----- stretches

  /** How many elements of array i are among the first k elements. */
  function At(sizes: seq<nat>, i: nat, k: nat): (n: nat)
    requires i < |sizes|
    ensures n <= sizes[i]
  {
    var first := Offset(sizes, i);
    if k <= first then 0 else Min(k - first, sizes[i])
  }

  lemma AtMono(sizes: seq<nat>, i: nat, k: nat, k1: nat)
    requires i < |sizes| && k <= k1
    ensures At(sizes, i, k) <= At(sizes, i, k1)
  {
    hide Offset;
  }

  /** From number k to k1 the stretch of array i from j0 to r1, and no other. */
  lemma AtStep(sizes: seq<nat>, i: nat, j0: nat, k: nat, r1: nat, i1: nat)
    requires i < |sizes| && j0 <= r1 <= sizes[i] && Located(sizes, i, j0, k) && i1 < |sizes|
    ensures i1 == i ==> At(sizes, i1, k) == j0 && At(sizes, i1, k + (r1 - j0)) == r1
    ensures i1 != i ==> At(sizes, i1, k) == At(sizes, i1, k + (r1 - j0))
  {
    hide Offset;
    OffsetStep(sizes, i1);
    OffsetStep(sizes, i);
    if i1 < i {
      OffsetMono(sizes, i1 + 1, i);
    } else if i < i1 {
      OffsetMono(sizes, i + 1, i1);
    }
  }

  /** Element number x: its array and its place there. */
  lemma {:induction false} FlatIn(sizes: seq<nat>, x: nat)
    requires x < |Flat(sizes)|
    ensures var (i, j) := Flat(sizes)[x]; i < |sizes| && j < sizes[i] && Offset(sizes, i) + j == x
  {
    var n := |sizes| - 1;
    var (i, j) := Flat(sizes)[x];
    if x < |Flat(sizes[..n])| {
      FlatIn(sizes[..n], x);
      assert sizes[..n][..i] == sizes[..i];
    }
  }

  /** The elements from number a to b lie in the stretches. */
  lemma InStretch(sizes: seq<nat>, a: nat, b: nat, x: nat)
    requires a <= x < b <= |Flat(sizes)|
    ensures var (i, j) := Flat(sizes)[x]; i < |sizes| && j < sizes[i] && At(sizes, i, a) <= j < At(sizes, i, b)
  {
    hide Flat, Offset;
    FlatIn(sizes, x);
    AtPlace(sizes, Flat(sizes)[x].0, Flat(sizes)[x].1, a, b);
  }

  lemma AtPlace(sizes: seq<nat>, i: nat, j: nat, a: nat, b: nat)
    requires i < |sizes| && j < sizes[i]
    ensures At(sizes, i, a) <= j < At(sizes, i, b) <==> a <= Offset(sizes, i) + j < b
  {
    hide Offset;
  }

  // ----- what is paired

  /** The stretches from number a to b are paired. */
  ghost predicate Matched(g: Geometries, sizes: seq<nat>, q: Pairings, a: nat, b: nat) {
    && Shape(g, sizes, q)
    && forall i: nat :: i < |sizes| && g.isMesh(i) ==> Quadifier.Matching(q[i], g.tri(i), At(sizes, i, a), At(sizes, i, b))
  }

  /** Only entries in the stretches from number a to b may differ. */
  ghost predicate SameOutside(sizes: seq<nat>, q: Pairings, q1: Pairings, a: nat, b: nat) {
    && |q1| == |q| == |sizes|
    && forall i: nat :: i < |q| ==> SameEntries(q[i], q1[i], At(sizes, i, a), At(sizes, i, b))
  }

  ghost predicate SameEntries(q: seq<nat>, q1: seq<nat>, p0: nat, p1: nat) {
    |q1| == |q| && forall j: nat :: j < |q| && !(p0 <= j < p1) ==> q1[j] == q[j]
  }

  lemma SameTrans(sizes: seq<nat>, q: Pairings, q1: Pairings, q2: Pairings, a: nat, b: nat, c: nat)
    requires SameOutside(sizes, q, q1, a, b) && SameOutside(sizes, q1, q2, b, c) && a <= b <= c
    ensures SameOutside(sizes, q, q2, a, c)
  {
    hide At;
    forall i: nat | i < |q|
      ensures SameEntries(q[i], q2[i], At(sizes, i, a), At(sizes, i, c))
    {
      assert SameEntries(q[i], q1[i], At(sizes, i, a), At(sizes, i, b));
      assert SameEntries(q1[i], q2[i], At(sizes, i, b), At(sizes, i, c));
      AtMono(sizes, i, a, b);
      AtMono(sizes, i, b, c);
    }
  }

  /** Work on other stretches keeps what is paired. */
  lemma MatchedKept(g: Geometries, sizes: seq<nat>, q: Pairings, q1: Pairings, a: nat, b: nat, c: nat, d: nat)
    requires Matched(g, sizes, q, a, b) && SameOutside(sizes, q, q1, c, d) && a <= b && c <= d && (b <= c || d <= a)
    ensures Matched(g, sizes, q1, a, b)
  {
    hide At, Quadifier.Matching;
    forall i: nat | i < |sizes|
      ensures g.isMesh(i) ==> |q1[i]| == sizes[i] && Quadifier.Matching(q1[i], g.tri(i), At(sizes, i, a), At(sizes, i, b))
    {
      assert SameEntries(q[i], q1[i], At(sizes, i, c), At(sizes, i, d));
      AtMono(sizes, i, a, b);
      AtMono(sizes, i, c, d);
      AtMono(sizes, i, if b <= c then b else d, if b <= c then c else a);
      if g.isMesh(i) {
        Quadifier.MatchingFrame(q[i], q1[i], g.tri(i), At(sizes, i, a), At(sizes, i, b));
      }
    }
  }

  /** Pairing the next stretch, which is one of array i. */
  lemma MatchedStep(g: Geometries, sizes: seq<nat>, q: Pairings, q1: Pairings, a: nat, k: nat, i: nat, j0: nat, r1: nat)
    requires Matched(g, sizes, q, a, k) && a <= k && i < |sizes| && j0 <= r1 <= sizes[i] && Located(sizes, i, j0, k)
    requires a == k || j0 == 0
    requires Shape(g, sizes, q1) && SameStretch(q, q1, i, j0, r1)
    requires g.isMesh(i) ==> Quadifier.Matching(q1[i], g.tri(i), j0, r1)
    ensures SameOutside(sizes, q, q1, k, k + (r1 - j0)) && Matched(g, sizes, q1, a, k + (r1 - j0))
  {
    hide At, Quadifier.Matching, Located;
    var k1 := k + (r1 - j0);
    forall i1: nat | i1 < |sizes|
      ensures SameEntries(q[i1], q1[i1], At(sizes, i1, k), At(sizes, i1, k1))
      ensures i1 != i ==> At(sizes, i1, k) == At(sizes, i1, k1)
      ensures i1 == i ==> At(sizes, i1, a) == j0 && At(sizes, i1, k1) == r1
    {
      AtStep(sizes, i, j0, k, r1, i1);
      AtMono(sizes, i1, a, k);
      assert SameEntries(q[i1], q1[i1], if i1 == i then j0 else 0, if i1 == i then r1 else 0);
    }
    MatchedKept(g, sizes, q, q1, a, k, k, k1);
  }

  /** Only entries from r0 to r1 of array i may differ. */
  ghost predicate SameStretch(q: Pairings, q1: Pairings, i: nat, r0: nat, r1: nat) {
    |q1| == |q| && forall k: nat :: k < |q| ==> SameEntries(q[k], q1[k], if k == i then r0 else 0, if k == i then r1 else 0)
  }

  /** In the counting run followers are no candidates. */
  function CandidatesOf(g: Geometries, q: Pairings): (nat, nat) -> bool {
    (i: nat, j: nat) => !(g.isMesh(i) && i < |q| && j < |q[i]| && q[i][j] == Quadifier.PAIRED)
  }

  // ----- which triangles get a reference

  /** createTrianglePairPrimRefArray skips followers and every leader with an
      invalid triangle in its pair. */
  predicate Referenced(q: seq<nat>, valid: nat -> bool, j: nat)
    requires j < |q|
  {
    q[j] != Quadifier.PAIRED && valid(j) && (q[j] != Quadifier.TRIANGLE ==> valid(j + q[j]))
  }

  /** Triangle r is stored by the reference of its leader or by its own. */
  ghost predicate Represented(q: seq<nat>, valid: nat -> bool, p0: nat, p1: nat, r: nat)
    requires p1 <= |q|
  {
    exists l: nat :: p0 <= l < p1 && Referenced(q, valid, l) && Stores(q, l, r)
  }

  predicate Stores(q: seq<nat>, l: nat, r: nat)
    requires l < |q|
  {
    r == l || (q[l] != Quadifier.TRIANGLE && q[l] != Quadifier.PAIRED && r == l + q[l])
  }

  /** The other triangle of the pair, or r itself. */
  ghost predicate Partner(q: seq<nat>, p0: nat, p1: nat, r: nat, o: nat)
    requires p1 <= |q|
  {
    p0 <= r < p1 && p0 <= o < p1 && (
      (r == o && q[r] == Quadifier.TRIANGLE)
      || (r != o && q[r] != Quadifier.PAIRED && q[r] != Quadifier.TRIANGLE && o == r + q[r])
      || (r != o && q[o] != Quadifier.PAIRED && q[o] != Quadifier.TRIANGLE && r == o + q[o]))
  }

  /** A valid triangle is represented exactly when its partner is valid, too. */
  lemma RepresentedIff(q: seq<nat>, tri: nat -> Quadifier.Tri, valid: nat -> bool, p0: nat, p1: nat, r: nat) returns (o: nat)
    requires Quadifier.Matching(q, tri, p0, p1) && p0 <= r < p1 && valid(r)
    ensures Partner(q, p0, p1, r, o)
    ensures Represented(q, valid, p0, p1, r) <==> valid(o)
  {
    hide Quadifier.Greedy, Quadifier.CanPair;
    assert Quadifier.Assigned(q, tri, p0, p1, r);
    if q[r] == Quadifier.PAIRED {
      o := Quadifier.FollowerHasOneLeader(q, tri, p0, p1, r);
      assert Stores(q, o, r);
      forall l: nat | p0 <= l < p1 && Referenced(q, valid, l) && Stores(q, l, r)
        ensures l == o
      {
        assert Quadifier.Assigned(q, tri, p0, p1, l);
      }
    } else {
      o := if q[r] == Quadifier.TRIANGLE then r else r + q[r];
      assert Stores(q, r, r);
      forall l: nat | p0 <= l < p1 && Referenced(q, valid, l) && Stores(q, l, r)
        ensures l == r
      {
        assert Quadifier.Assigned(q, tri, p0, p1, l);
      }
    }
  }

  /** Two triangles over one edge. */
  function TwoTriangles(): nat -> Quadifier.Tri {
    (p: nat) => if p == 0 then Quadifier.Tri(0, 1, 2) else Quadifier.Tri(2, 1, 3)
  }

  /** The pairing of two triangles over one edge pairs them.  When the second
      one has an invalid vertex the first one is valid and dropped. */
  lemma ValidTriangleDropped(valid: nat -> bool)
    requires valid(0) && !valid(1)
    ensures var q := [1, Quadifier.PAIRED]; Quadifier.Matching(q, TwoTriangles(), 0, 2) && !Represented(q, valid, 0, 2, 0)
  {
    var q := [1, Quadifier.PAIRED];
    assert Quadifier.Leads(q, 0, 1);
    assert Quadifier.Taken(q, 0, 1, 1);
    assert Quadifier.Shares(TwoTriangles()(0), TwoTriangles()(1), 3);
    assert Quadifier.Assigned(q, TwoTriangles(), 0, 2, 0) && Quadifier.Assigned(q, TwoTriangles(), 0, 2, 1);
  }

  /** A reference for a triangle covers its follower, too. */
  function ReferencesOf(g: Geometries, q: Pairings): (nat, nat) -> Option<PrimRef> {
    (i: nat, j: nat) =>
      if !g.isMesh(i) then g.other(i, j)
      else if i < |q| && j < |q[i]| && Referenced(q[i], g.valid(i), j) then Some(PairReference(g, q[i], i, j))
      else None
  }

  function PairReference(g: Geometries, q: seq<nat>, i: nat, j: nat): PrimRef
    requires j < |q|
  {
    PrimRef(if q[j] == Quadifier.TRIANGLE then g.box(i)(j) else Extend(g.box(i)(j), g.box(i)(j + q[j])), i, j)
  }
}
