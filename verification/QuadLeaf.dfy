/** The 64-byte leaf that stores a triangle, a triangle pair or a quad
    (rtbuild/leaf.h, QuadLeaf and PrimLeafDesc; rtbuild/qbvh6_builder_sah.h,
    getTriangleInternal and createQuadLeaf). */
module QuadLeaf {
  import opened Common
  import opened PrimLeafDesc
  import opened Quadifier

  /** A vertex position; positions are only copied. */
  datatype Vertex = Vertex(x: real, y: real, z: real)

  /** The bit fields hold what fits: 29, 5, 2, 2 and 2 bits. */
  datatype Leaf = Leaf(geomIndex: nat, primIndex0: nat, primIndex1Delta: nat, j0: nat, j1: nat, j2: nat,
                       v0: Vertex, v1: Vertex, v2: Vertex, v3: Vertex)
  {
    function VertexAt(i: nat): Vertex
      requires i < 4
    {
      if i == 0 then v0 else if i == 1 then v1 else if i == 2 then v2 else v3
    }

    predicate Valid2() {
      !(j0 == 0 && j1 == 0 && j2 == 0)
    }

    function Size(): nat {
      if Valid2() then 2 else 1
    }

    function PrimIndex(i: nat): nat
      requires i < 2
    {
      primIndex0 + i * primIndex1Delta
    }
  }

  /** None stands for the exception "too large geometry ID". */
  function MakeLeaf(v0: Vertex, v1: Vertex, v2: Vertex, v3: Vertex, j0: nat, j1: nat, j2: nat,
                    geomIndex: nat, primIndex0: nat, primIndex1: nat): (r: Option<Leaf>)
    requires primIndex0 <= primIndex1
  {
    if geomIndex > MAX_GEOM_INDEX then None
    else Some(Leaf(GeomIndex(geomIndex), primIndex0, (primIndex1 - primIndex0) % 32, j0 % 4, j1 % 4, j2 % 4,
                   v0, v1, v2, v3))
  }

  /** A mesh: the indices and the positions of its triangles. */
  datatype Mesh = Mesh(tri: nat -> Tri, pos: nat -> Vertex)

  /** The leaf for triangle primID whose entry in the pairing is `second`. */
  function TriangleLeaf(m: Mesh, geomID: nat, primID: nat, second: nat): Option<Leaf> {
    var a := m.tri(primID);
    var p2 := m.pos(a.z);
    if second == TRIANGLE then
      MakeLeaf(m.pos(a.x), m.pos(a.y), p2, p2, 0, 0, 0, geomID, primID, primID)
    else
      var b := m.tri(primID + second);
      var (_, lb0, lb1, lb2) := PairTriangles(a, b);
      var p3 := if lb2 == 3 then m.pos(b.z) else if lb1 == 3 then m.pos(b.y) else if lb0 == 3 then m.pos(b.x) else p2;
      MakeLeaf(m.pos(a.x), m.pos(a.y), p2, p3, lb0, lb1, lb2, geomID, primID, primID + second)
  }

  /** The leaf for a quad with corners p0 to p3. */
  function QuadsLeaf(p0: Vertex, p1: Vertex, p2: Vertex, p3: Vertex, geomID: nat, primID: nat): Option<Leaf> {
    MakeLeaf(p0, p1, p3, p2, 3, 2, 1, geomID, primID, primID)
  }

  /** What is stored about the triangles of a leaf: index and corners. */
  datatype Stored = Stored(geomID: nat, primID: nat, p0: Vertex, p1: Vertex, p2: Vertex)

  /** The triangles a reader finds in a leaf. */
  function Decode(l: Leaf): seq<Stored>
    requires l.j0 < 4 && l.j1 < 4 && l.j2 < 4
  {
    var first := Stored(l.geomIndex, l.PrimIndex(0), l.v0, l.v1, l.v2);
    if l.Size() == 1 then [first]
    else [first, Stored(l.geomIndex, l.PrimIndex(1), l.VertexAt(l.j0), l.VertexAt(l.j1), l.VertexAt(l.j2))]
  }

  function Original(m: Mesh, geomID: nat, primID: nat): Stored {
    var t := m.tri(primID);
    Stored(geomID, primID, m.pos(t.x), m.pos(t.y), m.pos(t.z))
  }

  /** The second triangle is three times the first vertex of the first one. */
  predicate Collapsed(a: Tri, b: Tri) {
    b.x == a.x && b.y == a.x && b.z == a.x
  }

  lemma LocalVertex(m: Mesh, a: Tri, v: nat, p3: Vertex, l: Leaf)
    requires l.v0 == m.pos(a.x) && l.v1 == m.pos(a.y) && l.v2 == m.pos(a.z) && l.v3 == p3
    requires LocalIndex(a, v) == 3 ==> p3 == m.pos(v)
    ensures l.VertexAt(LocalIndex(a, v)) == m.pos(v)
  {
  }

  /** Reading back the leaf of an accepted pair gives both triangles exactly
      when the geometry index fits its 29 bits and the second triangle is not
      collapsed to the first vertex; the constructor itself admits 30 bits. */
  lemma PairRoundTrip(m: Mesh, geomID: nat, primID: nat, second: nat)
    requires 1 <= second <= MAX_DISTANCE && CanPair(m.tri(primID), m.tri(primID + second))
    ensures TriangleLeaf(m, geomID, primID, second).Some? <==> geomID <= MAX_GEOM_INDEX
    ensures geomID <= MAX_GEOM_INDEX ==>
      var l := TriangleLeaf(m, geomID, primID, second).value;
      l.j0 < 4 && l.j1 < 4 && l.j2 < 4 &&
      (Decode(l) == [Original(m, geomID, primID), Original(m, geomID, primID + second)]
       <==> geomID < GEOM_INDEX_RANGE && !Collapsed(m.tri(primID), m.tri(primID + second)))
  {
    hide CanPair, TriangleLeaf, GeomIndex;
    LeafFields(m, geomID, primID, second);
    if geomID <= MAX_GEOM_INDEX {
      var l := TriangleLeaf(m, geomID, primID, second).value;
      assert |Decode(l)| == 2 <==> !Collapsed(m.tri(primID), m.tri(primID + second));
      assert Decode(l)[0].geomID == GeomIndex(geomID);
      assert Original(m, geomID, primID).geomID == geomID;
      IndexExact(geomID);
    }
  }

  lemma IndexExact(geomID: nat)
    ensures GeomIndex(geomID) == geomID <==> geomID < GEOM_INDEX_RANGE
  {
  }

  /** What the leaf of an accepted pair holds. */
  lemma LeafFields(m: Mesh, geomID: nat, primID: nat, second: nat)
    requires 1 <= second <= MAX_DISTANCE && CanPair(m.tri(primID), m.tri(primID + second))
    ensures TriangleLeaf(m, geomID, primID, second).Some? <==> geomID <= MAX_GEOM_INDEX
    ensures geomID <= MAX_GEOM_INDEX ==>
      var l := TriangleLeaf(m, geomID, primID, second).value;
      var a, b := m.tri(primID), m.tri(primID + second);
      && l.j0 < 4 && l.j1 < 4 && l.j2 < 4 && l.geomIndex == GeomIndex(geomID)
      && l.primIndex0 == primID && l.primIndex1Delta == second
      && l.v0 == m.pos(a.x) && l.v1 == m.pos(a.y) && l.v2 == m.pos(a.z)
      && l.VertexAt(l.j0) == m.pos(b.x) && l.VertexAt(l.j1) == m.pos(b.y) && l.VertexAt(l.j2) == m.pos(b.z)
      && (l.Valid2() <==> !Collapsed(a, b))
  {
    hide GeomIndex;
    var a, b := m.tri(primID), m.tri(primID + second);
    if geomID <= MAX_GEOM_INDEX {
      var l := TriangleLeaf(m, geomID, primID, second).value;
      LocalVertex(m, a, b.x, l.v3, l);
      LocalVertex(m, a, b.y, l.v3, l);
      LocalVertex(m, a, b.z, l.v3, l);
    }
  }

  /** A single triangle is read back as one triangle. */
  lemma SingleRoundTrip(m: Mesh, geomID: nat, primID: nat)
    requires geomID < GEOM_INDEX_RANGE
    ensures var l := TriangleLeaf(m, geomID, primID, TRIANGLE);
      l.Some? && l.value.j0 < 4 && l.value.j1 < 4 && l.value.j2 < 4
      && Decode(l.value) == [Original(m, geomID, primID)]
  {
  }

  /** A quad is read back as its two triangles (p0,p1,p3) and (p2,p3,p1). */
  lemma QuadRoundTrip(p0: Vertex, p1: Vertex, p2: Vertex, p3: Vertex, geomID: nat, primID: nat)
    requires geomID < GEOM_INDEX_RANGE
    ensures var l := QuadsLeaf(p0, p1, p2, p3, geomID, primID);
      l.Some? && l.value.j0 < 4 && l.value.j1 < 4 && l.value.j2 < 4
      && Decode(l.value) == [Stored(geomID, primID, p0, p1, p3), Stored(geomID, primID, p2, p3, p1)]
  {
    assert (QuadsLeaf(p0, p1, p2, p3, geomID, primID).value).Valid2();
  }
}
