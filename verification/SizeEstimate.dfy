/** The sizes a caller is told before a build and the hint it gets back: the
    counting loops of estimateSize and build and the byte bounds
    (rtbuild/qbvh6_builder_sah.h:127-177, 1158-1183, 1267-1299). */
module SizeEstimate {
  import opened Common
  import opened Bvh

  const PRIMREF_BYTES: nat := 32
  const SCRATCH_ALIGNMENT: nat := 64

  /** One geometry as the size callbacks describe it. */
  datatype GeometryInfo = GeometryInfo(ty: PType, size: nat)

  /** Counts of the primitives of a scene. */
  datatype Stats = Stats(triangles: nat, quads: nat, procedurals: nat, instances: nat) {
    function Size(): nat {
      triangles + quads + procedurals + instances
    }

    function Count(ty: PType): nat {
      match ty
      case Triangle => triangles
      case Quad => quads
      case Procedural => procedurals
      case Instance => instances
    }

    function Plus(ty: PType, n: nat): Stats {
      match ty
      case Triangle => this.(triangles := triangles + n)
      case Quad => this.(quads := quads + n)
      case Procedural => this.(procedurals := procedurals + n)
      case Instance => this.(instances := instances + n)
    }

    /** estimate_presplits(1.2): procedurals are not split. */
    function WithPresplits(): Stats {
      Stats(Presplit(triangles), Presplit(quads), procedurals, Presplit(instances))
    }

    function LeafBytes(): nat {
      triangles * 64 + quads * 64 + procedurals * 64 + instances * 128
    }

    /** One node for the root, one for each reference, and as few more as take
        six references each. */
    function WorstNodes(): (r: nat)
      ensures forall k: nat :: r <= 1 + Size() + k <==> Size() <= 6 * k
    {
      1 + (Size() + 5) / 6 + Size()
    }

    /** The header, the nodes and the leaf blocks. */
    function WorstData(): nat {
      128 + 64 * WorstNodes() + LeafBytes()
    }

    function WorstCaseBytes(): nat {
      RoundUp(2 * 4096 + (1.1 * WorstData() as real).Floor)
    }

    function ScratchBytes(): nat {
      Size() * PRIMREF_BYTES + 64
    }
  }

  function Presplit(n: nat): nat {
    Max(n, (1.2 * n as real).Floor)
  }

  /** The next multiple of 128. */
  function RoundUp(bytes: int): (r: nat)
    requires 0 <= bytes
    ensures bytes <= r < bytes + 128 && r % 128 == 0
  {
    (bytes + 127) / 128 * 128
  }

  lemma PlusCount(st: Stats, ty: PType, n: nat)
    ensures forall t: PType :: st.Plus(ty, n).Count(t) == st.Count(t) + if t == ty then n else 0
  {
    forall t: PType
      ensures st.Plus(ty, n).Count(t) == st.Count(t) + if t == ty then n else 0
    {
      match t
      case Triangle =>
      case Quad =>
      case Procedural =>
      case Instance =>
    }
  }

  // ----- what there is to count

  function CountOf(gs: seq<GeometryInfo>, ty: PType): nat {
    if gs == [] then 0 else
      var g := gs[|gs| - 1];
      CountOf(gs[..|gs| - 1], ty) + if g.ty == ty then g.size else 0
  }

  function CountAll(gs: seq<GeometryInfo>): nat {
    if gs == [] then 0 else CountAll(gs[..|gs| - 1]) + gs[|gs| - 1].size
  }

  /** The counts cover all primitives. */
  ghost predicate Covers(st: Stats, gs: seq<GeometryInfo>) {
    forall ty: PType :: CountOf(gs, ty) <= st.Count(ty)
  }

  ghost predicate OneType(gs: seq<GeometryInfo>, ty: PType) {
    forall g :: g in gs && 0 < g.size ==> g.ty == ty
  }

  lemma {:induction false} OneTypeCount(gs: seq<GeometryInfo>, ty: PType)
    requires OneType(gs, ty)
    ensures CountOf(gs, ty) == CountAll(gs)
  {
    if gs != [] {
      assert forall g :: g in gs[..|gs| - 1] ==> g in gs;
      assert gs[|gs| - 1] in gs;
      OneTypeCount(gs[..|gs| - 1], ty);
    }
  }

  lemma {:induction false} CountByType(gs: seq<GeometryInfo>)
    ensures CountAll(gs) == CountOf(gs, Triangle) + CountOf(gs, Quad) + CountOf(gs, Procedural) + CountOf(gs, Instance)
  {
    if gs != [] {
      CountByType(gs[..|gs| - 1]);
    }
  }

  lemma CountStep(gs: seq<GeometryInfo>, i: nat)
    requires i < |gs|
    ensures forall ty: PType :: CountOf(gs[..i + 1], ty) == CountOf(gs[..i], ty) + if gs[i].ty == ty then gs[i].size else 0
    ensures CountAll(gs[..i + 1]) == CountAll(gs[..i]) + gs[i].size
  {
    assert gs[..i + 1][..i] == gs[..i];
  }

  // ----- the advertised sizes

  /** The worst-case and scratch sizes that a caller is asked to provide. */
  method EstimateSize(gs: seq<GeometryInfo>, spatialSplits: bool) returns (worstCaseBytes: nat, scratchBytes: nat, st: Stats)
    ensures Covers(st, gs) && worstCaseBytes == st.WorstCaseBytes() && scratchBytes == st.ScratchBytes()
    ensures forall ty: PType :: st.Count(ty) == CountOf(gs, ty) || (spatialSplits && ty != Procedural)
    ensures forall ty: PType :: 5 * st.Count(ty) <= 6 * CountOf(gs, ty)
    ensures spatialSplits ==> forall ty: PType :: ty != Procedural ==> 6 * CountOf(gs, ty) < 5 * st.Count(ty) + 5
  {
    hide CountOf;
    var stats := Stats(0, 0, 0, 0);
    NothingCounted(gs);
    for i := 0 to |gs|
      invariant forall ty: PType :: stats.Count(ty) == CountOf(gs[..i], ty)
    {
      CountStep(gs, i);
      PlusCount(stats, gs[i].ty, gs[i].size);
      if gs[i].size != 0 {
        stats := stats.Plus(gs[i].ty, gs[i].size);
      }
    }
    assert gs[..|gs|] == gs;
    if spatialSplits {
      PresplitsBound(stats);
      stats := stats.WithPresplits();
    }
    st := stats;
    worstCaseBytes, scratchBytes := stats.WorstCaseBytes(), stats.ScratchBytes();
  }

  lemma NothingCounted(gs: seq<GeometryInfo>)
    ensures forall ty: PType :: CountOf(gs[..0], ty) == 0
    ensures CountAll(gs[..0]) == 0 && RunningTriangles(gs[..0]) == 0
  {
  }

  /** Counts never shrink; those that are split grow by a fifth, rounded down. */
  lemma PresplitsBound(st: Stats)
    ensures forall ty: PType :: st.Count(ty) <= st.WithPresplits().Count(ty)
    ensures forall ty: PType :: 5 * st.WithPresplits().Count(ty) <= 6 * st.Count(ty)
    ensures forall ty: PType :: ty != Procedural ==> 6 * st.Count(ty) < 5 * st.WithPresplits().Count(ty) + 5
    ensures st.WithPresplits().Count(Procedural) == st.Count(Procedural)
  {
    FifthMore(st.triangles);
    FifthMore(st.quads);
    FifthMore(st.instances);
  }

  lemma FifthMore(n: nat)
    ensures n <= Presplit(n) && 5 * Presplit(n) <= 6 * n < 5 * Presplit(n) + 5
  {
  }

  /** However many bytes the alignment of the scratch buffer skips, the array of
      references fits: resizing it never has to allocate. */
  lemma ScratchSuffices(gs: seq<GeometryInfo>, st: Stats, skipped: nat)
    requires Covers(st, gs) && skipped < SCRATCH_ALIGNMENT
    ensures CountAll(gs) <= (st.ScratchBytes() - skipped) / PRIMREF_BYTES
  {
    hide CountOf;
    CountByType(gs);
  }

  /** No more is asked for: one byte less is the least that has room for the
      references however many bytes the alignment skips. */
  lemma ScratchIsLeast(st: Stats, bytes: nat)
    ensures (forall skipped: nat :: skipped < SCRATCH_ALIGNMENT ==> st.Size() <= Rest(bytes, skipped) / PRIMREF_BYTES)
      <==> st.ScratchBytes() - 1 <= bytes
  {
    hide Stats.Size;
    assert Rest(bytes, 63) == bytes - 63;
  }

  function Rest(bytes: nat, skipped: nat): int {
    bytes - skipped
  }

  /** The advertised size is the least multiple of 128 that is not below two
      pages and 1.1 times the header, the nodes and the leaf blocks, cut to whole
      bytes. */
  lemma WorstCaseIs(st: Stats, bytes: nat)
    ensures st.WorstCaseBytes() % 128 == 0
    ensures bytes % 128 == 0 ==> (st.WorstCaseBytes() <= bytes <==> 11 * st.WorstData() < 10 * (bytes - 8192) + 10)
  {
    hide Stats.WorstData;
    FloorTimes(st.WorstData());
  }

  lemma FloorTimes(w: nat)
    ensures 11 * w - 10 < 10 * (1.1 * w as real).Floor <= 11 * w
  {
  }

  // ----- the hint of a build

  /** The triangle count of a build adds the primitives of all geometries up to
      and including the one looked at. */
  function RunningTriangles(gs: seq<GeometryInfo>): nat {
    if gs == [] then 0 else
      var g := gs[|gs| - 1];
      RunningTriangles(gs[..|gs| - 1]) + if g.ty == Triangle && 0 < g.size then CountAll(gs) else 0
  }

  /** The counting loop of a build. */
  method HintStats(gs: seq<GeometryInfo>) returns (stats: Stats, numPrimitives: nat)
    ensures numPrimitives == CountAll(gs)
    ensures stats.triangles == RunningTriangles(gs)
    ensures forall ty: PType :: ty != Triangle ==> stats.Count(ty) == CountOf(gs, ty)
    ensures Covers(stats, gs)
  {
    hide CountOf, CountAll, RunningTriangles;
    stats, numPrimitives := Stats(0, 0, 0, 0), 0;
    NothingCounted(gs);
    for i := 0 to |gs|
      invariant numPrimitives == CountAll(gs[..i]) && stats.triangles == RunningTriangles(gs[..i])
      invariant forall ty: PType :: ty != Triangle ==> stats.Count(ty) == CountOf(gs[..i], ty)
    {
      CountStep(gs, i);
      RunningStep(gs, i);
      numPrimitives := numPrimitives + gs[i].size;
      PlusCount(stats, gs[i].ty, if gs[i].ty == Triangle then numPrimitives else gs[i].size);
      if gs[i].size != 0 {
        stats := stats.Plus(gs[i].ty, if gs[i].ty == Triangle then numPrimitives else gs[i].size);
      }
    }
    assert gs[..|gs|] == gs;
    HintIsExactIff(gs);
  }

  lemma RunningStep(gs: seq<GeometryInfo>, i: nat)
    requires i < |gs|
    ensures RunningTriangles(gs[..i + 1])
         == RunningTriangles(gs[..i]) + if gs[i].ty == Triangle && 0 < gs[i].size then CountAll(gs[..i + 1]) else 0
  {
    assert gs[..i + 1][..i] == gs[..i];
  }

  /** Only empty geometries stand in front of a triangle geometry. */
  ghost predicate TrianglesFirst(gs: seq<GeometryInfo>) {
    forall i: nat, j: nat :: j < i < |gs| && gs[i].ty == Triangle && 0 < gs[i].size ==> gs[j].size == 0
  }

  /** The hint never counts too few triangles; it counts them exactly when at
      most one geometry of triangles has any and nothing comes before it. */
  lemma {:induction false} HintIsExactIff(gs: seq<GeometryInfo>)
    ensures CountOf(gs, Triangle) <= RunningTriangles(gs)
    ensures CountOf(gs, Triangle) == RunningTriangles(gs) <==> TrianglesFirst(gs)
  {
    if gs != [] {
      var n := |gs| - 1;
      HintIsExactIff(gs[..n]);
      AllEmptyIff(gs[..n]);
      TrianglesFirstStep(gs);
    }
  }

  lemma {:induction false} AllEmptyIff(gs: seq<GeometryInfo>)
    ensures CountAll(gs) == 0 <==> forall j: nat :: j < |gs| ==> gs[j].size == 0
  {
    if gs != [] {
      AllEmptyIff(gs[..|gs| - 1]);
    }
  }

  lemma TrianglesFirstStep(gs: seq<GeometryInfo>)
    requires gs != []
    ensures var n := |gs| - 1;
      TrianglesFirst(gs) <==> (TrianglesFirst(gs[..n])
        && (gs[n].ty == Triangle && 0 < gs[n].size ==> forall j: nat :: j < n ==> gs[j].size == 0))
  {
    var n := |gs| - 1;
    if TrianglesFirst(gs[..n]) {
      forall i: nat, j: nat | j < i < n && gs[i].ty == Triangle && 0 < gs[i].size
        ensures gs[j].size == 0
      {
        assert gs[..n][i] == gs[i] && gs[..n][j] == gs[j];
      }
    }
  }
}
