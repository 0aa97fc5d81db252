/** Generating the reference array: a first run counts candidates, a second one
    writes the references that are kept, and a third one closes gaps when some
    candidates were dropped (rtbuild/algorithms/parallel_for_for_prefix_sum.h:28-103
    and rtbuild/qbvh6_builder_sah.h:871-900, 1066-1105). */
module PrimGen {
  import opened Common
  import opened NestedTasks
  import opened Bvh
  import opened MeshPairing
  import Quadifier

  /** Element j of geometry i is a candidate. */
  type Candidates = (nat, nat) -> bool

  /** The reference of element j of geometry i, if it has one. */
  type References = (nat, nat) -> Option<PrimRef>

  function Count(cand: Candidates, s: seq<(nat, nat)>): nat {
    if s == [] then 0 else
      var n := |s| - 1;
      Count(cand, s[..n]) + if cand(s[n].0, s[n].1) then 1 else 0
  }

  /** The references of the elements that have one, in order. */
  function Kept(refs: References, s: seq<(nat, nat)>): seq<PrimRef> {
    if s == [] then [] else
      var n := |s| - 1;
      var r := refs(s[n].0, s[n].1);
      Kept(refs, s[..n]) + if r.Some? then [r.value] else []
  }

  lemma {:induction false} CountConcat(cand: Candidates, s: seq<(nat, nat)>, t: seq<(nat, nat)>)
    ensures Count(cand, s + t) == Count(cand, s) + Count(cand, t)
  {
    if t == [] {
      assert s + t == s;
    } else {
      var n := |t| - 1;
      CountConcat(cand, s, t[..n]);
      assert (s + t)[..|s + t| - 1] == s + t[..n];
    }
  }

  lemma {:induction false} KeptConcat(refs: References, s: seq<(nat, nat)>, t: seq<(nat, nat)>)
    ensures Kept(refs, s + t) == Kept(refs, s) + Kept(refs, t)
  {
    hide Kept;
    if t == [] {
      assert s + t == s;
      KeptNothing(refs);
    } else {
      var n := |t| - 1;
      KeptConcat(refs, s, t[..n]);
      assert s + t == (s + t[..n]) + [t[n]] && t == t[..n] + [t[n]];
      KeptAppend(refs, s + t[..n], t[n]);
      KeptAppend(refs, t[..n], t[n]);
    }
  }

  lemma KeptNothing(refs: References)
    ensures Kept(refs, []) == []
  {
  }

  lemma KeptAppend(refs: References, s: seq<(nat, nat)>, x: (nat, nat))
    ensures Kept(refs, s + [x]) == Kept(refs, s) + if refs(x.0, x.1).Some? then [refs(x.0, x.1).value] else []
  {
    assert (s + [x])[..|s|] == s;
  }

  /** Only candidates are kept. */
  ghost predicate OnlyCandidates(cand: Candidates, refs: References) {
    forall i: nat, j: nat :: refs(i, j).Some? ==> cand(i, j)
  }

  lemma {:induction false} KeptAtMost(cand: Candidates, refs: References, s: seq<(nat, nat)>)
    requires OnlyCandidates(cand, refs)
    ensures |Kept(refs, s)| <= Count(cand, s)
  {
    if s != [] {
      KeptAtMost(cand, refs, s[..|s| - 1]);
    }
  }

  lemma {:induction false} CountAtMost(cand: Candidates, s: seq<(nat, nat)>)
    ensures Count(cand, s) <= |s|
  {
    if s != [] {
      CountAtMost(cand, s[..|s| - 1]);
    }
  }

  /** The elements before those of task t, and those of task t. */
  function Before(sizes: seq<nat>, t: nat, tasks: nat): seq<(nat, nat)>
    requires t <= tasks && 1 <= tasks
  {
    TaskSlicesMono(t, tasks, |Flat(sizes)|, tasks);
    Flat(sizes)[..TaskStart(t, |Flat(sizes)|, tasks)]
  }

  function Part(sizes: seq<nat>, t: nat, tasks: nat): seq<(nat, nat)>
    requires t < tasks
  {
    TaskSlices(t, |Flat(sizes)|, tasks);
    TaskSlicesMono(t + 1, tasks, |Flat(sizes)|, tasks);
    Flat(sizes)[TaskStart(t, |Flat(sizes)|, tasks)..TaskStart(t + 1, |Flat(sizes)|, tasks)]
  }

  lemma BeforeNext(sizes: seq<nat>, t: nat, tasks: nat)
    requires t < tasks
    ensures Before(sizes, t + 1, tasks) == Before(sizes, t, tasks) + Part(sizes, t, tasks)
    ensures Before(sizes, 0, tasks) == [] && Before(sizes, tasks, tasks) == Flat(sizes)
  {
    hide Flat, TaskStart;
    TaskSlices(t, |Flat(sizes)|, tasks);
    TaskSlicesMono(t + 1, tasks, |Flat(sizes)|, tasks);
  }

  // ----- walking over the elements of a task

  /** A position inside a task: the elements up to number k are done. */
  ghost predicate Walk(sizes: seq<nat>, i: nat, j0: nat, k: nat, k0: nat, k1: nat) {
    k0 <= k <= k1 <= |Flat(sizes)| && (k < k1 ==> Located(sizes, i, j0, k))
  }

  lemma WalkInside(sizes: seq<nat>, i: nat, j0: nat, k: nat, k0: nat, k1: nat)
    requires Walk(sizes, i, j0, k, k0, k1) && k < k1
    ensures i < |sizes| && j0 <= sizes[i] && Located(sizes, i, j0, k) && k1 <= |Flat(sizes)|
  {
    hide Flat, Located;
    LocatedInside(sizes, i, j0, k);
  }

  /** From number k to k2: the stretch of array i from j0 to r1. */
  lemma WalkStep(sizes: seq<nat>, i: nat, j0: nat, k: nat, k0: nat, k1: nat, r1: nat, k2: nat)
    requires i < |sizes| && j0 <= sizes[i] && Located(sizes, i, j0, k) && k0 <= k < k1 <= |Flat(sizes)|
    requires r1 == Min(sizes[i], j0 + k1 - k) && k2 == k + r1 - j0
    ensures j0 <= r1 <= sizes[i] && k <= k2 <= k1 && Walk(sizes, i + 1, 0, k2, k0, k1)
    ensures Flat(sizes)[k0..k2] == Flat(sizes)[k0..k] + Row(i, sizes[i])[j0..r1]
  {
    hide Flat, Row, Located, Offset;
    NextArray(sizes, i, j0, k, r1);
    WalkSlices(sizes, i, j0, k, k0, r1);
  }

  lemma LocatedInside(sizes: seq<nat>, i: nat, j0: nat, k: nat)
    requires Located(sizes, i, j0, k) && k < |Flat(sizes)|
    ensures i < |sizes| && j0 <= sizes[i] && Offset(sizes, i) + j0 == k
  {
    hide Flat, Offset;
    OffsetEnd(sizes, i);
  }

  lemma WalkSlices(sizes: seq<nat>, i: nat, j0: nat, k: nat, k0: nat, r1: nat)
    requires Located(sizes, i, j0, k) && i < |sizes| && j0 <= r1 <= sizes[i] && k0 <= k
    ensures k + (r1 - j0) <= |Flat(sizes)|
    ensures Flat(sizes)[k0..k + (r1 - j0)] == Flat(sizes)[k0..k] + Row(i, sizes[i])[j0..r1]
  {
    hide Flat, Offset, Row;
    FlatRange(sizes, i, j0, r1);
    JoinSlices(Flat(sizes), k0, k, Offset(sizes, i), j0, r1, Row(i, sizes[i])[j0..r1]);
  }

  lemma JoinSlices<T>(s: seq<T>, k0: nat, k: nat, ofs: nat, r0: nat, r1: nat, row: seq<T>)
    requires k0 <= k == ofs + r0 && r0 <= r1 && ofs + r1 <= |s| && s[ofs + r0..ofs + r1] == row
    ensures s[k0..k + (r1 - r0)] == s[k0..k] + row
  {
    assert ofs + r1 == k + (r1 - r0);
  }

  lemma NextArray(sizes: seq<nat>, i: nat, j0: nat, k: nat, r1: nat)
    requires i < |sizes| && j0 <= r1 <= sizes[i] && Located(sizes, i, j0, k)
    ensures r1 == sizes[i] ==> Located(sizes, i + 1, 0, k + (r1 - j0))
  {
    hide Flat, Offset;
    OffsetStep(sizes, i);
  }

  /** Counts agree when the pairing is the same for the elements. */
  lemma {:induction false} CountSame(cand: Candidates, cand1: Candidates, s: seq<(nat, nat)>)
    requires forall x :: x in s ==> cand(x.0, x.1) == cand1(x.0, x.1)
    ensures Count(cand, s) == Count(cand1, s)
  {
    if s != [] {
      CountSame(cand, cand1, s[..|s| - 1]);
    }
  }

  lemma {:induction false} CountAllOf(cand: Candidates, s: seq<(nat, nat)>)
    requires forall x :: x in s ==> cand(x.0, x.1)
    ensures Count(cand, s) == |s|
  {
    if s != [] {
      CountAllOf(cand, s[..|s| - 1]);
    }
  }

  /** The entries of a stretch that are no followers are its candidates. */
  lemma {:induction false} CountStored(g: Geometries, q: Pairings, i: nat, size: nat, r0: nat, r1: nat)
    requires g.isMesh(i) && i < |q| && r0 <= r1 <= size == |q[i]|
    ensures Count(CandidatesOf(g, q), Row(i, size)[r0..r1]) == Quadifier.Stored(q[i], [], r0, r1)
  {
    var row := Row(i, size);
    if r0 < r1 {
      CountStored(g, q, i, size, r0, r1 - 1);
      assert row[r0..r1][..r1 - 1 - r0] == row[r0..r1 - 1] && row[r0..r1][r1 - 1 - r0] == (i, r1 - 1);
    }
  }

  lemma CountOther(g: Geometries, q: Pairings, i: nat, size: nat, r0: nat, r1: nat)
    requires !g.isMesh(i) && r0 <= r1 <= size
    ensures Count(CandidatesOf(g, q), Row(i, size)[r0..r1]) == r1 - r0
  {
    forall x | x in Row(i, size)[r0..r1]
      ensures x.0 == i
    {
    }
    CountAllOf(CandidatesOf(g, q), Row(i, size)[r0..r1]);
  }

  /** Pairing elsewhere does not change the count of a stretch. */
  lemma CountKept(g: Geometries, sizes: seq<nat>, q: Pairings, q1: Pairings, a: nat, b: nat, c: nat, d: nat)
    requires SameOutside(sizes, q, q1, c, d) && a <= b <= |Flat(sizes)| && c <= d && (b <= c || d <= a)
    ensures Count(CandidatesOf(g, q1), Flat(sizes)[a..b]) == Count(CandidatesOf(g, q), Flat(sizes)[a..b])
  {
    hide Flat, At, Count;
    forall x | x in Flat(sizes)[a..b]
      ensures CandidatesOf(g, q)(x.0, x.1) == CandidatesOf(g, q1)(x.0, x.1)
    {
      var k :| 0 <= k < b - a && Flat(sizes)[a..b][k] == x;
      InStretch(sizes, a, b, a + k);
      assert x == Flat(sizes)[a + k];
      assert SameEntries(q[x.0], q1[x.0], At(sizes, x.0, c), At(sizes, x.0, d));
      AtMono(sizes, x.0, if b <= c then b else d, if b <= c then c else a);
    }
    CountSame(CandidatesOf(g, q), CandidatesOf(g, q1), Flat(sizes)[a..b]);
  }

  /** The function of the writing runs: keeps what has a reference. */
  method WriteRange(refs: References, i: nat, r0: nat, r1: nat, ghost size: nat, prims: array<PrimRef>, k: nat) returns (n: nat)
    requires r0 <= r1 <= size && k + |Kept(refs, Row(i, size)[r0..r1])| <= prims.Length
    modifies prims
    ensures n == |Kept(refs, Row(i, size)[r0..r1])|
    ensures prims[k..k + n] == Kept(refs, Row(i, size)[r0..r1])
    ensures forall x :: 0 <= x < prims.Length && !(k <= x < k + n) ==> prims[x] == old(prims[x])
  {
    hide Kept;
    n := 0;
    KeptNone(refs, Row(i, size), r0);
    for j := r0 to r1
      invariant n == |Kept(refs, Row(i, size)[r0..j])| && k + n <= prims.Length
      invariant prims[k..k + n] == Kept(refs, Row(i, size)[r0..j])
      invariant forall x :: 0 <= x < prims.Length && !(k <= x < k + n) ==> prims[x] == old(prims[x])
    {
      KeptNext(refs, i, size, r0, j, r1);
      var r := refs(i, j);
      if r.Some? {
        prims[k + n] := r.value;
        n := n + 1;
      }
    }
  }

  lemma KeptNone(refs: References, s: seq<(nat, nat)>, k: nat)
    requires k <= |s|
    ensures Kept(refs, s[k..k]) == []
  {
  }

  lemma KeptNext(refs: References, i: nat, size: nat, r0: nat, j: nat, r1: nat)
    requires r0 <= j < r1 <= size
    ensures Kept(refs, Row(i, size)[r0..j + 1])
      == Kept(refs, Row(i, size)[r0..j]) + (if refs(i, j).Some? then [refs(i, j).value] else [])
    ensures |Kept(refs, Row(i, size)[r0..j + 1])| <= |Kept(refs, Row(i, size)[r0..r1])|
  {
    var row := Row(i, size);
    assert row[r0..j + 1] == row[r0..j] + [(i, j)];
    KeptConcat(refs, row[r0..j], [(i, j)]);
    assert row[r0..r1] == row[r0..j + 1] + row[j + 1..r1];
    KeptConcat(refs, row[r0..j + 1], row[j + 1..r1]);
  }

  class Generator {
    const state: ForForState
    const counts: array<nat>
    const sums: array<nat>
    const g: Geometries
    const sizes: seq<nat>
    /** For every mesh an entry per triangle. */
    const quadification: seq<array<nat>>

    constructor (g: Geometries, sizes: seq<nat>, numThreads: nat)
      ensures Valid() && fresh(state) && fresh(state.i0) && fresh(state.j0) && fresh(counts) && fresh(sums)
      ensures this.g == g && this.sizes == sizes && forall a :: a in quadification ==> fresh(a)
    {
      var entries: seq<array<nat>> := [];
      for i := 0 to |sizes|
        invariant |entries| == i && forall a :: a in entries ==> fresh(a)
        invariant forall k: nat :: k < i && g.isMesh(k) ==> entries[k].Length == sizes[k]
        invariant forall k: nat, l: nat :: k < l < i ==> entries[k] != entries[l]
      {
        var a := new nat[if g.isMesh(i) then sizes[i] else 0];
        entries := entries + [a];
      }
      this.g := g;
      this.sizes := sizes;
      quadification := entries;
      state := new ForForState();
      counts := new nat[MAX_TASKS];
      sums := new nat[MAX_TASKS];
      new;
      state.Init(sizes, 1024, numThreads);
    }

    ghost predicate Valid()
      reads this, state, state.i0, state.j0
    {
      state.Starts(sizes, state.taskCount) && counts.Length == sums.Length == MAX_TASKS && counts != sums
      && counts != state.i0 && counts != state.j0 && sums != state.i0 && sums != state.j0
      && Separate()
    }

    /** The arrays of the meshes are different ones, of the right sizes. */
    ghost predicate Separate()
      reads state
    {
      && |quadification| == |sizes|
      && (forall i: nat :: i < |sizes| && g.isMesh(i) ==> quadification[i].Length == sizes[i])
      && (forall i: nat, j: nat :: i < j < |sizes| ==> quadification[i] != quadification[j])
      && (forall a :: a in quadification ==> a != counts && a != sums && a != state.i0 && a != state.j0)
    }

    /** The pairing of all meshes. */
    function Entries(): (q: Pairings)
      reads quadification
      ensures |q| == |quadification| && forall i: nat :: i < |q| ==> q[i] == quadification[i][..]
    {
      seq(|quadification|, i requires 0 <= i < |quadification| reads quadification => quadification[i][..])
    }

    /** The function of the counting run on a stretch of one array. */
    method PairStretch(i: nat, r0: nat, r1: nat) returns (n: nat)
      requires Valid() && i < |sizes| && r0 <= r1 <= sizes[i]
      modifies quadification
      ensures Valid() && n == Count(CandidatesOf(g, Entries()), Row(i, sizes[i])[r0..r1])
      ensures SameStretch(old(Entries()), Entries(), i, r0, r1)
      ensures g.isMesh(i) ==> Quadifier.Matching(Entries()[i], g.tri(i), r0, r1)
    {
      hide Quadifier.Matching, Count;
      if g.isMesh(i) {
        assert quadification[i] in quadification;
        n := Quadifier.PairTriangleRange(quadification[i], g.tri(i), r0, r1);
        CountStored(g, Entries(), i, sizes[i], r0, r1);
      } else {
        n := r1 - r0;
        CountOther(g, Entries(), i, sizes[i], r0, r1);
      }
    }

    /** The elements from number k0 to k are paired, n of them are candidates,
        and no other entry of the pairing q0 has changed. */
    ghost predicate PairedUpTo(q0: Pairings, k0: nat, k: nat, n: nat)
      reads this, quadification
    {
      && k0 <= k <= |Flat(sizes)| && n == Count(CandidatesOf(g, Entries()), Flat(sizes)[k0..k])
      && SameOutside(sizes, q0, Entries(), k0, k) && Matched(g, sizes, Entries(), k0, k)
    }

    /** One more stretch of a task; there may be nothing in it. */
    method NextStretch(i: nat, r0: nat, r1: nat, ghost q0: Pairings, ghost k0: nat, ghost k: nat, ghost n: nat) returns (c: nat)
      requires Valid() && PairedUpTo(q0, k0, k, n)
      requires i < |sizes| && r0 <= r1 <= sizes[i] && Located(sizes, i, r0, k) && (k == k0 || r0 == 0)
      requires k + (r1 - r0) <= |Flat(sizes)| && Flat(sizes)[k0..k + (r1 - r0)] == Flat(sizes)[k0..k] + Row(i, sizes[i])[r0..r1]
      modifies quadification
      ensures Valid() && PairedUpTo(q0, k0, k + (r1 - r0), n + c)
    {
      hide Count, Matched, SameOutside, SameStretch, Quadifier.Matching, Flat, Offset, Row, At, CandidatesOf, Located;
      ghost var q := Entries();
      c := 0;
      if r1 > r0 {
        c := PairStretch(i, r0, r1);
      } else {
        CountNone(CandidatesOf(g, q), Row(i, sizes[i]), r0);
        NothingPaired(g, q, sizes, i, r0);
      }
      PairedStep(g, sizes, q0, q, Entries(), k0, k, i, r0, r1);
    }

    lemma NothingYet(k0: nat)
      requires Valid() && k0 <= |Flat(sizes)|
      ensures PairedUpTo(Entries(), k0, k0, 0)
    {
      hide Count, Matched, SameOutside, Flat;
      CountNone(CandidatesOf(g, Entries()), Flat(sizes), k0);
      StretchNone(g, sizes, Entries(), k0);
    }

    /** A task of the counting run pairs its stretches. */
    method CountTask(taskIndex: nat) returns (n: nat)
      requires Valid() && taskIndex < state.taskCount
      modifies quadification
      ensures Valid() && n == Count(CandidatesOf(g, Entries()), Part(sizes, taskIndex, state.taskCount))
      ensures var k0, k1 := TaskStart(taskIndex, state.N, state.taskCount), TaskStart(taskIndex + 1, state.N, state.taskCount);
        SameOutside(sizes, old(Entries()), Entries(), k0, k1) && Matched(g, sizes, Entries(), k0, k1)
    {
      hide TaskStart, Walk, Count, Matched, SameOutside, Flat, Offset, Row, CandidatesOf, PairedUpTo, Separate, Located;
      var k0 := TaskStart(taskIndex, state.N, state.taskCount);
      var k1 := TaskStart(taskIndex + 1, state.N, state.taskCount);
      assert state.StartOf(sizes, taskIndex);
      var i: nat, j: nat := state.i0[taskIndex], state.j0[taskIndex];
      TaskWalk(sizes, i, j, taskIndex, state.taskCount);
      var k: nat := k0;
      n := 0;
      ghost var q0 := Entries();
      NothingYet(k0);
      while k < k1
        invariant Valid() && Walk(sizes, i, j, k, k0, k1) && k0 <= k <= k1 <= |Flat(sizes)| && (k == k0 || j == 0)
        invariant PairedUpTo(q0, k0, k, n)
        decreases |sizes| - i
      {
        WalkInside(sizes, i, j, k, k0, k1);
        var r0: nat, r1: nat := j, Min(sizes[i], j + k1 - k);
        WalkStep(sizes, i, j, k, k0, k1, r1, k + r1 - r0);
        var c := NextStretch(i, r0, r1, q0, k0, k, n);
        n := n + c;
        k, j, i := k + r1 - r0, 0, i + 1;
      }
      UpToEnd(q0, k0, k1, n);
    }

    lemma UpToEnd(q0: Pairings, k0: nat, k: nat, n: nat)
      requires PairedUpTo(q0, k0, k, n)
      ensures k0 <= k <= |Flat(sizes)| && n == Count(CandidatesOf(g, Entries()), Flat(sizes)[k0..k])
      ensures SameOutside(sizes, q0, Entries(), k0, k) && Matched(g, sizes, Entries(), k0, k)
    {
      hide Count, Matched, SameOutside, Flat;
    }

    /** A task of a writing run. */
    method WriteTask(taskIndex: nat, refs: References, prims: array<PrimRef>, base: nat) returns (n: nat)
      requires Valid() && taskIndex < state.taskCount
      requires base + |Kept(refs, Part(sizes, taskIndex, state.taskCount))| <= prims.Length
      modifies prims
      ensures n == |Kept(refs, Part(sizes, taskIndex, state.taskCount))|
      ensures prims[base..base + n] == Kept(refs, Part(sizes, taskIndex, state.taskCount))
      ensures forall x :: 0 <= x < prims.Length && !(base <= x < base + n) ==> prims[x] == old(prims[x])
    {
      hide TaskStart, Walk, Kept, Flat, Located, Offset, Row, Separate, Wrote;
      var k0 := TaskStart(taskIndex, state.N, state.taskCount);
      var k1 := TaskStart(taskIndex + 1, state.N, state.taskCount);
      assert state.StartOf(sizes, taskIndex);
      var i: nat, j: nat := state.i0[taskIndex], state.j0[taskIndex];
      TaskWalk(sizes, i, j, taskIndex, state.taskCount);
      var k: nat := k0;
      n := 0;
      ghost var s0 := prims[..];
      KeptNone(refs, Flat(sizes), k0);
      WroteNone(s0, base);
      while k < k1
        invariant Walk(sizes, i, j, k, k0, k1) && k0 <= k <= k1 <= |Flat(sizes)|
        invariant n == |Kept(refs, Flat(sizes)[k0..k])| && Wrote(s0, prims[..], base, Kept(refs, Flat(sizes)[k0..k]))
        decreases |sizes| - i
      {
        WalkInside(sizes, i, j, k, k0, k1);
        var r0: nat, r1: nat := j, Min(sizes[i], j + k1 - k);
        WalkStep(sizes, i, j, k, k0, k1, r1, k + r1 - r0);
        KeptWithin(refs, Flat(sizes), k0, k, k + r1 - r0, k1, Row(i, sizes[i])[r0..r1]);
        var c := WriteStretch(refs, i, r0, r1, sizes[i], prims, base, n, s0, Kept(refs, Flat(sizes)[k0..k]));
        n := n + c;
        k, j, i := k + r1 - r0, 0, i + 1;
      }
      WroteAll(s0, prims[..], base, Kept(refs, Flat(sizes)[k0..k1]));
    }

    /** The kept references of one more stretch, which may be empty. */
    method WriteStretch(refs: References, i: nat, r0: nat, r1: nat, ghost size: nat, prims: array<PrimRef>, base: nat, n: nat,
                        ghost s0: seq<PrimRef>, ghost kept: seq<PrimRef>) returns (c: nat)
      requires r0 <= r1 <= size && base + n + |Kept(refs, Row(i, size)[r0..r1])| <= prims.Length
      requires n == |kept| && Wrote(s0, prims[..], base, kept)
      modifies prims
      ensures c == |Kept(refs, Row(i, size)[r0..r1])| && Wrote(s0, prims[..], base, kept + Kept(refs, Row(i, size)[r0..r1]))
    {
      hide Kept, Row;
      c := 0;
      if r1 > r0 {
        ghost var s := prims[..];
        c := WriteRange(refs, i, r0, r1, size, prims, base + n);
        WroteMore(s0, s, prims[..], base, kept, Kept(refs, Row(i, size)[r0..r1]));
      } else {
        KeptNone(refs, Row(i, size), r0);
        assert kept + [] == kept;
      }
    }

    /** What the prefix sums hold after a run that counted n per task. */
    ghost predicate SumsOf(lens: seq<nat>)
      reads this, state, sums
    {
      |lens| == state.taskCount <= sums.Length && forall t: nat :: t < |lens| ==> sums[t] == Total(lens[..t])
    }

    method PrefixSums(ghost lens: seq<nat>) returns (sum: nat)
      requires Valid() && |lens| == state.taskCount && forall t: nat :: t < |lens| ==> counts[t] == lens[t]
      modifies sums
      ensures Valid() && SumsOf(lens) && sum == Total(lens)
    {
      sum := 0;
      for i := 0 to state.taskCount
        invariant Valid() && sum == Total(lens[..i])
        invariant forall t: nat :: t < |lens| ==> counts[t] == lens[t]
        invariant forall t: nat :: t < i ==> sums[t] == Total(lens[..t])
      {
        assert lens[..i + 1][..i] == lens[..i];
        var c := counts[i];
        sums[i] := sum;
        sum := sum + c;
      }
      assert lens[..|lens|] == lens;
    }

    /** The tasks that are not pending are done. */
    ghost predicate Counted(pending: set<nat>)
      reads this, state, counts, quadification
    {
      && state.taskCount <= counts.Length
      && forall t: nat :: t < state.taskCount && t !in pending ==> TaskDone(g, sizes, Entries(), state.taskCount, t, counts[t])
    }

    method CountPending(t: nat, ghost pending: set<nat>)
      requires Valid() && Counted(pending) && t < state.taskCount
      modifies counts, quadification
      ensures Valid() && Counted(pending - {t})
    {
      hide Count, Part, Matched, SameOutside, TaskDone;
      ghost var q, c := Entries(), counts[..];
      assert counts !in quadification;
      var n := CountTask(t);
      ghost var q1 := Entries();
      TaskIsDone(g, sizes, q1, state.taskCount, t, n);
      counts[t] := n;
      forall i: nat | i < |q1|
        ensures quadification[i][..] == q1[i]
      {
        assert quadification[i] in quadification;
      }
      assert Entries() == q1;
      forall u: nat | u < state.taskCount && u !in pending - {t}
        ensures TaskDone(g, sizes, q1, state.taskCount, u, counts[u])
      {
        if u != t {
          TaskKept(g, sizes, q, q1, state.taskCount, t, u, c[u]);
        }
      }
    }

    /** The tasks of the counting run in any order. */
    method PairMeshes()
      requires Valid()
      modifies counts, quadification
      ensures Valid() && AllMatched(g, sizes, Entries(), state.taskCount)
      ensures forall t: nat :: t < state.taskCount ==> counts[t] == CountLengths(sizes, CandidatesOf(g, Entries()), state.taskCount)[t]
    {
      hide TaskDone, AllMatched;
      var pending := Tasks(state.taskCount);
      while pending != {}
        invariant Valid() && Counted(pending) && forall t: nat :: t in pending ==> t < state.taskCount
      {
        var t: nat :| t in pending;
        CountPending(t, pending);
        pending := pending - {t};
      }
      AllDone(g, sizes, Entries(), state.taskCount, counts[..]);
    }

    /** The counting run: every task pairs its stretches. */
    method CountRun() returns (total: nat)
      requires Valid()
      modifies counts, sums, quadification
      ensures Valid() && SumsOf(CountLengths(sizes, CandidatesOf(g, Entries()), state.taskCount))
      ensures total == Total(CountLengths(sizes, CandidatesOf(g, Entries()), state.taskCount))
      ensures AllMatched(g, sizes, Entries(), state.taskCount)
    {
      hide AllMatched;
      PairMeshes();
      ghost var q := Entries();
      total := PrefixSums(CountLengths(sizes, CandidatesOf(g, q), state.taskCount));
      forall i: nat | i < |q|
        ensures quadification[i][..] == q[i]
      {
        assert quadification[i] in quadification;
      }
      assert Entries() == q;
    }

    /** A writing run: every task writes into the slots that begin at its sum. */
    method WriteRun(refs: References, prims: array<PrimRef>, ghost lens: seq<nat>) returns (total: nat)
      requires Valid() && SumsOf(lens) && Total(lens) <= prims.Length
      requires forall t: nat :: t < |lens| ==> KeptLengths(sizes, refs, state.taskCount)[t] <= lens[t]
      modifies counts, sums, prims
      ensures Valid() && SumsOf(KeptLengths(sizes, refs, state.taskCount))
      ensures total == Total(KeptLengths(sizes, refs, state.taskCount))
      ensures forall t: nat :: t < |lens| ==> Written(prims[..], sizes, refs, state.taskCount, lens, t)
    {
      hide Kept, Part, Written, Total;
      ghost var kept := KeptLengths(sizes, refs, state.taskCount);
      var pending := Tasks(state.taskCount);
      while pending != {}
        invariant Valid() && forall t: nat :: t in pending ==> t < state.taskCount
        invariant SumsOf(lens)
        invariant forall t: nat :: t < state.taskCount && t !in pending ==> counts[t] == kept[t]
        invariant forall t: nat :: t < state.taskCount && t !in pending ==> Written(prims[..], sizes, refs, state.taskCount, lens, t)
      {
        var t: nat :| t in pending;
        SlotsFit(lens, t);
        ghost var before := prims[..];
        var n := WriteTask(t, refs, prims, sums[t]);
        OthersWritten(before, prims[..], sizes, refs, state.taskCount, lens, t, pending);
        counts[t] := n;
        pending := pending - {t};
      }
      total := PrefixSums(kept);
    }

    /** Both runs, and a third one when candidates were dropped: the array holds
        exactly the references that the pairing gives rise to, without gaps and
        in order. */
    method Generate(prims: array<PrimRef>) returns (n: nat)
      requires Valid() && |Flat(sizes)| <= prims.Length
      modifies counts, sums, quadification, prims
      ensures AllMatched(g, sizes, Entries(), state.taskCount)
      ensures var p := Kept(ReferencesOf(g, Entries()), Flat(sizes)); n == |p| <= prims.Length && prims[..n] == p
    {
      hide Kept, Count, Part, Written, Total, Before, Flat, Matched, SumsOf;
      ghost var tasks := state.taskCount;
      var numPrimitives := CountRun();
      var q := Entries();
      var refs := ReferencesOf(g, q);
      ghost var cand := CandidatesOf(g, q);
      ghost var lens, kept := CountLengths(sizes, cand, tasks), KeptLengths(sizes, refs, tasks);
      FollowersDropped(g, q);
      LengthsAtMost(sizes, cand, refs, tasks);
      n := WriteRun(refs, prims, lens);
      if n != numPrimitives {
        TotalAtMost(kept, lens);
        n := WriteRun(refs, prims, kept);
        Dense(prims[..], sizes, refs, tasks, kept);
      } else {
        SameTotals(kept, lens);
        Dense(prims[..], sizes, refs, tasks, lens);
      }
      forall i: nat | i < |q|
        ensures quadification[i][..] == q[i]
      {
        assert quadification[i] in quadification;
      }
      assert Entries() == q;
    }
  }

  lemma FollowersDropped(g: Geometries, q: Pairings)
    ensures OnlyCandidates(CandidatesOf(g, q), ReferencesOf(g, q))
  {
    forall i: nat, j: nat | ReferencesOf(g, q)(i, j).Some?
      ensures CandidatesOf(g, q)(i, j)
    {
      var r := ReferencesOf(g, q)(i, j);
      assert g.isMesh(i) && i < |q| && j < |q[i]| ==> Referenced(q[i], g.valid(i), j);
    }
  }

  /** Task t has paired its stretches and counted its candidates. */
  ghost predicate TaskDone(g: Geometries, sizes: seq<nat>, q: Pairings, tasks: nat, t: nat, n: nat)
    requires t < tasks
  {
    && n == Count(CandidatesOf(g, q), Part(sizes, t, tasks))
    && Matched(g, sizes, q, TaskStart(t, |Flat(sizes)|, tasks), TaskStart(t + 1, |Flat(sizes)|, tasks))
  }

  lemma TaskIsDone(g: Geometries, sizes: seq<nat>, q: Pairings, tasks: nat, t: nat, n: nat)
    requires t < tasks && n == Count(CandidatesOf(g, q), Part(sizes, t, tasks))
    requires Matched(g, sizes, q, TaskStart(t, |Flat(sizes)|, tasks), TaskStart(t + 1, |Flat(sizes)|, tasks))
    ensures TaskDone(g, sizes, q, tasks, t, n)
  {
  }

  /** Other tasks do not disturb it. */
  lemma TaskKept(g: Geometries, sizes: seq<nat>, q: Pairings, q1: Pairings, tasks: nat, t: nat, u: nat, n: nat)
    requires t < tasks && u < tasks && u != t && TaskDone(g, sizes, q, tasks, u, n)
    requires SameOutside(sizes, q, q1, TaskStart(t, |Flat(sizes)|, tasks), TaskStart(t + 1, |Flat(sizes)|, tasks))
    ensures TaskDone(g, sizes, q1, tasks, u, n)
  {
    hide Flat, Matched, SameOutside, Count, TaskStart;
    var all := |Flat(sizes)|;
    TaskSlices(t, all, tasks);
    TaskSlices(u, all, tasks);
    if t < u {
      TaskSlicesMono(t + 1, u, all, tasks);
    } else {
      TaskSlicesMono(u + 1, t, all, tasks);
    }
    MatchedKept(g, sizes, q, q1, TaskStart(u, all, tasks), TaskStart(u + 1, all, tasks), TaskStart(t, all, tasks), TaskStart(t + 1, all, tasks));
    CountKept(g, sizes, q, q1, TaskStart(u, all, tasks), TaskStart(u + 1, all, tasks), TaskStart(t, all, tasks), TaskStart(t + 1, all, tasks));
  }

  /** Every task has paired its stretches of all meshes. */
  ghost predicate AllMatched(g: Geometries, sizes: seq<nat>, q: Pairings, tasks: nat) {
    && 1 <= tasks
    && forall t: nat :: t < tasks ==>
      Matched(g, sizes, q, TaskStart(t, |Flat(sizes)|, tasks), TaskStart(t + 1, |Flat(sizes)|, tasks))
  }

  lemma AllDone(g: Geometries, sizes: seq<nat>, q: Pairings, tasks: nat, counts: seq<nat>)
    requires 1 <= tasks <= |counts| && forall t: nat :: t < tasks ==> TaskDone(g, sizes, q, tasks, t, counts[t])
    ensures AllMatched(g, sizes, q, tasks)
    ensures forall t: nat :: t < tasks ==> counts[t] == CountLengths(sizes, CandidatesOf(g, q), tasks)[t]
  {
    hide Matched, Count, Part, TaskStart;
    forall t: nat | t < tasks
      ensures Matched(g, sizes, q, TaskStart(t, |Flat(sizes)|, tasks), TaskStart(t + 1, |Flat(sizes)|, tasks))
      ensures counts[t] == CountLengths(sizes, CandidatesOf(g, q), tasks)[t]
    {
      assert TaskDone(g, sizes, q, tasks, t, counts[t]);
    }
  }

  /** s differs from s0 by the references p from base on. */
  ghost predicate Wrote(s0: seq<PrimRef>, s: seq<PrimRef>, base: nat, p: seq<PrimRef>) {
    |s| == |s0| && base + |p| <= |s| && s[base..base + |p|] == p
    && forall x :: 0 <= x < |s| && !(base <= x < base + |p|) ==> s[x] == s0[x]
  }

  lemma WroteNone(s: seq<PrimRef>, base: nat)
    requires base <= |s|
    ensures Wrote(s, s, base, [])
  {
  }

  lemma WroteAll(s0: seq<PrimRef>, s: seq<PrimRef>, base: nat, p: seq<PrimRef>)
    requires Wrote(s0, s, base, p)
    ensures |s| == |s0| && base + |p| <= |s| && s[base..base + |p|] == p
    ensures forall x :: 0 <= x < |s| && !(base <= x < base + |p|) ==> s[x] == s0[x]
  {
  }

  lemma WroteMore(s0: seq<PrimRef>, s: seq<PrimRef>, s1: seq<PrimRef>, base: nat, p: seq<PrimRef>, q: seq<PrimRef>)
    requires Wrote(s0, s, base, p) && Wrote(s, s1, base + |p|, q)
    ensures Wrote(s0, s1, base, p + q)
  {
    assert s1[base..base + |p|] == s[base..base + |p|];
    assert s1[base..base + |p + q|] == s1[base..base + |p|] + s1[base + |p|..base + |p| + |q|];
  }

  lemma StretchNone(g: Geometries, sizes: seq<nat>, q: Pairings, k: nat)
    requires Shape(g, sizes, q)
    ensures SameOutside(sizes, q, q, k, k) && Matched(g, sizes, q, k, k)
  {
    hide At;
  }

  lemma NothingPaired(g: Geometries, q: Pairings, sizes: seq<nat>, i: nat, r: nat)
    requires Shape(g, sizes, q) && i < |sizes| && r <= sizes[i]
    ensures SameStretch(q, q, i, r, r) && (g.isMesh(i) ==> Quadifier.Matching(q[i], g.tri(i), r, r))
  {
  }

  /** After one more stretch: the entries before keep their count. */
  lemma PairedStep(g: Geometries, sizes: seq<nat>, q0: Pairings, q: Pairings, q1: Pairings, k0: nat, k: nat, i: nat, r0: nat, r1: nat)
    requires SameOutside(sizes, q0, q, k0, k) && Matched(g, sizes, q, k0, k) && k0 <= k && k + (r1 - r0) <= |Flat(sizes)|
    requires i < |sizes| && r0 <= r1 <= sizes[i] && Located(sizes, i, r0, k) && (k == k0 || r0 == 0)
    requires Shape(g, sizes, q1) && SameStretch(q, q1, i, r0, r1)
    requires g.isMesh(i) ==> Quadifier.Matching(q1[i], g.tri(i), r0, r1)
    requires Flat(sizes)[k0..k + (r1 - r0)] == Flat(sizes)[k0..k] + Row(i, sizes[i])[r0..r1]
    ensures SameOutside(sizes, q0, q1, k0, k + (r1 - r0)) && Matched(g, sizes, q1, k0, k + (r1 - r0))
    ensures Count(CandidatesOf(g, q1), Flat(sizes)[k0..k + (r1 - r0)])
      == Count(CandidatesOf(g, q), Flat(sizes)[k0..k]) + Count(CandidatesOf(g, q1), Row(i, sizes[i])[r0..r1])
  {
    hide SameOutside, Matched, Flat, Count, Located, SameStretch, Quadifier.Matching;
    MatchedStep(g, sizes, q, q1, k0, k, i, r0, r1);
    SameTrans(sizes, q0, q, q1, k0, k, k + (r1 - r0));
    CountKept(g, sizes, q, q1, k0, k, k, k + (r1 - r0));
    CountConcat(CandidatesOf(g, q1), Flat(sizes)[k0..k], Row(i, sizes[i])[r0..r1]);
  }

  lemma CountNone(cand: Candidates, s: seq<(nat, nat)>, k: nat)
    requires k <= |s|
    ensures Count(cand, s[k..k]) == 0
  {
  }

  lemma TaskWalk(sizes: seq<nat>, i: nat, j: nat, t: nat, tasks: nat)
    requires t < tasks && Located(sizes, i, j, TaskStart(t, |Flat(sizes)|, tasks))
    ensures TaskStart(t, |Flat(sizes)|, tasks) <= TaskStart(t + 1, |Flat(sizes)|, tasks) <= |Flat(sizes)|
    ensures Walk(sizes, i, j, TaskStart(t, |Flat(sizes)|, tasks), TaskStart(t, |Flat(sizes)|, tasks), TaskStart(t + 1, |Flat(sizes)|, tasks))
  {
    hide TaskStart, Flat, Located;
    TaskSlices(t, |Flat(sizes)|, tasks);
    TaskSlicesMono(t + 1, tasks, |Flat(sizes)|, tasks);
  }

  lemma KeptWithin(refs: References, all: seq<(nat, nat)>, k0: nat, k: nat, k': nat, k1: nat, more: seq<(nat, nat)>)
    requires k0 <= k <= k' <= k1 <= |all| && all[k0..k'] == all[k0..k] + more
    ensures Kept(refs, all[k0..k']) == Kept(refs, all[k0..k]) + Kept(refs, more)
    ensures |Kept(refs, all[k0..k'])| <= |Kept(refs, all[k0..k1])|
  {
    KeptConcat(refs, all[k0..k], more);
    assert all[k0..k1] == all[k0..k'] + all[k'..k1];
    KeptConcat(refs, all[k0..k'], all[k'..k1]);
  }

  // ----- lengths and slots of the tasks

  function CountLengths(sizes: seq<nat>, cand: Candidates, tasks: nat): (lens: seq<nat>)
    requires 1 <= tasks
    ensures |lens| == tasks && forall t: nat :: t < tasks ==> lens[t] == Count(cand, Part(sizes, t, tasks))
  {
    seq(tasks, t requires 0 <= t < tasks => Count(cand, Part(sizes, t, tasks)))
  }

  function KeptLengths(sizes: seq<nat>, refs: References, tasks: nat): (lens: seq<nat>)
    requires 1 <= tasks
    ensures |lens| == tasks && forall t: nat :: t < tasks ==> lens[t] == |Kept(refs, Part(sizes, t, tasks))|
  {
    seq(tasks, t requires 0 <= t < tasks => |Kept(refs, Part(sizes, t, tasks))|)
  }

  /** Task t wrote its references from its first slot on. */
  ghost predicate Written(s: seq<PrimRef>, sizes: seq<nat>, refs: References, tasks: nat, lens: seq<nat>, t: nat)
    requires t < tasks == |lens|
  {
    var base, p := Total(lens[..t]), Kept(refs, Part(sizes, t, tasks));
    base + |p| <= |s| && s[base..base + |p|] == p
  }

  /** The slots of different tasks do not overlap. */
  lemma OthersWritten(s: seq<PrimRef>, s1: seq<PrimRef>, sizes: seq<nat>, refs: References, tasks: nat, lens: seq<nat>, t: nat,
                      pending: set<nat>)
    requires t < tasks == |lens| && |s1| == |s|
    requires forall u: nat :: u < tasks ==> |Kept(refs, Part(sizes, u, tasks))| <= lens[u]
    requires forall u: nat :: u < tasks && u !in pending ==> Written(s, sizes, refs, tasks, lens, u)
    requires var base, p := Total(lens[..t]), Kept(refs, Part(sizes, t, tasks));
      && base + |p| <= |s1| && s1[base..base + |p|] == p
      && forall x :: 0 <= x < |s1| && !(base <= x < base + |p|) ==> s1[x] == s[x]
    ensures forall u: nat :: u < tasks && u !in pending - {t} ==> Written(s1, sizes, refs, tasks, lens, u)
  {
    hide Kept, Part, Total;
    forall u: nat | u < tasks && u !in pending - {t}
      ensures Written(s1, sizes, refs, tasks, lens, u)
    {
      if u != t {
        assert Written(s, sizes, refs, tasks, lens, u);
        if u < t {
          TotalMono(lens, u, t);
        } else {
          TotalMono(lens, t, u);
        }
      }
    }
  }

  lemma LengthsAtMost(sizes: seq<nat>, cand: Candidates, refs: References, tasks: nat)
    requires 1 <= tasks && OnlyCandidates(cand, refs)
    ensures forall t: nat :: t < tasks ==> KeptLengths(sizes, refs, tasks)[t] <= CountLengths(sizes, cand, tasks)[t]
    ensures Total(CountLengths(sizes, cand, tasks)) <= |Flat(sizes)|
  {
    hide Kept, Count, Part;
    forall t: nat | t < tasks
      ensures KeptLengths(sizes, refs, tasks)[t] <= CountLengths(sizes, cand, tasks)[t]
    {
      KeptAtMost(cand, refs, Part(sizes, t, tasks));
    }
    CountTotal(sizes, cand, tasks, tasks);
    BeforeNext(sizes, tasks - 1, tasks);
    CountAtMost(cand, Flat(sizes));
    assert CountLengths(sizes, cand, tasks)[..tasks] == CountLengths(sizes, cand, tasks);
  }

  lemma {:induction false} CountTotal(sizes: seq<nat>, cand: Candidates, tasks: nat, t: nat)
    requires 1 <= tasks && t <= tasks
    ensures Total(CountLengths(sizes, cand, tasks)[..t]) == Count(cand, Before(sizes, t, tasks))
  {
    hide Part, Before;
    var lens := CountLengths(sizes, cand, tasks);
    if t == 0 {
      BeforeNext(sizes, 0, tasks);
    } else {
      CountTotal(sizes, cand, tasks, t - 1);
      BeforeNext(sizes, t - 1, tasks);
      CountConcat(cand, Before(sizes, t - 1, tasks), Part(sizes, t - 1, tasks));
      assert lens[..t][..t - 1] == lens[..t - 1];
    }
  }

  lemma {:induction false} KeptTotal(sizes: seq<nat>, refs: References, tasks: nat, t: nat)
    requires 1 <= tasks && t <= tasks
    ensures Total(KeptLengths(sizes, refs, tasks)[..t]) == |Kept(refs, Before(sizes, t, tasks))|
  {
    hide Part, Before;
    var lens := KeptLengths(sizes, refs, tasks);
    if t == 0 {
      BeforeNext(sizes, 0, tasks);
    } else {
      KeptTotal(sizes, refs, tasks, t - 1);
      BeforeNext(sizes, t - 1, tasks);
      KeptConcat(refs, Before(sizes, t - 1, tasks), Part(sizes, t - 1, tasks));
      assert lens[..t][..t - 1] == lens[..t - 1];
    }
  }

  lemma {:induction false} TotalAtMost(a: seq<nat>, b: seq<nat>)
    requires |a| == |b| && forall i: nat :: i < |a| ==> a[i] <= b[i]
    ensures Total(a) <= Total(b)
  {
    if a != [] {
      TotalAtMost(a[..|a| - 1], b[..|b| - 1]);
    }
  }

  /** Equal totals: no task dropped a candidate. */
  lemma {:induction false} SameTotals(a: seq<nat>, b: seq<nat>)
    requires |a| == |b| && (forall i: nat :: i < |a| ==> a[i] <= b[i]) && Total(a) == Total(b)
    ensures a == b
  {
    if a != [] {
      var n := |a| - 1;
      TotalAtMost(a[..n], b[..n]);
      SameTotals(a[..n], b[..n]);
      assert a == a[..n] + [a[n]] && b == b[..n] + [b[n]];
    }
  }

  lemma {:induction false} DenseUpTo(s: seq<PrimRef>, sizes: seq<nat>, refs: References, tasks: nat, lens: seq<nat>, t: nat)
    requires 1 <= tasks && t <= tasks == |lens| && lens == KeptLengths(sizes, refs, tasks)
    requires forall u: nat :: u < tasks ==> Written(s, sizes, refs, tasks, lens, u)
    ensures var p := Kept(refs, Before(sizes, t, tasks)); |p| <= |s| && s[..|p|] == p
  {
    hide Part, Before, Kept, Total;
    if t == 0 {
      BeforeNext(sizes, 0, tasks);
      KeptNone(refs, [], 0);
    } else {
      DenseUpTo(s, sizes, refs, tasks, lens, t - 1);
      BeforeNext(sizes, t - 1, tasks);
      KeptConcat(refs, Before(sizes, t - 1, tasks), Part(sizes, t - 1, tasks));
      KeptTotal(sizes, refs, tasks, t - 1);
      assert Written(s, sizes, refs, tasks, lens, t - 1);
    }
  }

  lemma Dense(s: seq<PrimRef>, sizes: seq<nat>, refs: References, tasks: nat, lens: seq<nat>)
    requires 1 <= tasks && lens == KeptLengths(sizes, refs, tasks)
    requires forall u: nat :: u < tasks ==> Written(s, sizes, refs, tasks, lens, u)
    ensures var p := Kept(refs, Flat(sizes)); |p| == Total(lens) && |p| <= |s| && s[..|p|] == p
  {
    hide Part, Before, Kept, Total;
    DenseUpTo(s, sizes, refs, tasks, lens, tasks);
    KeptTotal(sizes, refs, tasks, tasks);
    BeforeNext(sizes, tasks - 1, tasks);
    assert lens[..tasks] == lens;
  }

  // ----- which triangles the array stores

  /** References of the other geometries carry their ID. */
  ghost predicate OwnIDs(g: Geometries) {
    forall i: nat, j: nat :: g.other(i, j).Some? ==> g.other(i, j).value.geomID == i
  }

  lemma {:induction false} KeptFrom(refs: References, s: seq<(nat, nat)>, p: PrimRef) returns (x: (nat, nat))
    requires p in Kept(refs, s)
    ensures x in s && refs(x.0, x.1) == Some(p)
  {
    var n := |s| - 1;
    if refs(s[n].0, s[n].1) == Some(p) {
      x := s[n];
    } else {
      x := KeptFrom(refs, s[..n], p);
    }
  }

  lemma {:induction false} KeptIn(refs: References, s: seq<(nat, nat)>, k: nat)
    requires k < |s| && refs(s[k].0, s[k].1).Some?
    ensures refs(s[k].0, s[k].1).value in Kept(refs, s)
  {
    if k < |s| - 1 {
      KeptIn(refs, s[..|s| - 1], k);
    }
  }

  /** The stretch that was paired with triangle r of mesh i: it holds every
      triangle that is paired with r. */
  lemma StretchOf(g: Geometries, sizes: seq<nat>, q: Pairings, tasks: nat, i: nat, r: nat) returns (p0: nat, p1: nat)
    requires AllMatched(g, sizes, q, tasks) && i < |sizes| && g.isMesh(i) && r < sizes[i]
    ensures |q| == |sizes| && |q[i]| == sizes[i] && p0 <= r < p1 <= sizes[i] && Quadifier.Matching(q[i], g.tri(i), p0, p1)
    ensures forall l: nat :: l < sizes[i] && Stores(q[i], l, r) ==> p0 <= l < p1
  {
    hide Flat, Offset, At, TaskStart, Quadifier.Matching, Stores;
    var n := |Flat(sizes)|;
    FlatAt(sizes, i, r);
    var t := TaskOf(Offset(sizes, i) + r, n, tasks);
    AtPlace(sizes, i, r, TaskStart(t, n, tasks), TaskStart(t + 1, n, tasks));
    assert Matched(g, sizes, q, TaskStart(t, n, tasks), TaskStart(t + 1, n, tasks));
    p0, p1 := At(sizes, i, TaskStart(t, n, tasks)), At(sizes, i, TaskStart(t + 1, n, tasks));
    forall l: nat | l < sizes[i] && Stores(q[i], l, r)
      ensures p0 <= l < p1
    {
      FlatAt(sizes, i, l);
      var u := TaskOf(Offset(sizes, i) + l, n, tasks);
      AtPlace(sizes, i, l, TaskStart(u, n, tasks), TaskStart(u + 1, n, tasks));
      assert Matched(g, sizes, q, TaskStart(u, n, tasks), TaskStart(u + 1, n, tasks));
      StoresInside(q[i], g.tri(i), At(sizes, i, TaskStart(u, n, tasks)), At(sizes, i, TaskStart(u + 1, n, tasks)), l, r);
      AtPlace(sizes, i, r, TaskStart(u, n, tasks), TaskStart(u + 1, n, tasks));
      SameTask(Offset(sizes, i) + r, n, tasks, t, u);
    }
  }

  lemma StoresInside(q: seq<nat>, tri: nat -> Quadifier.Tri, p0: nat, p1: nat, l: nat, r: nat)
    requires Quadifier.Matching(q, tri, p0, p1) && p0 <= l < p1 && Stores(q, l, r)
    ensures p0 <= r < p1
  {
    assert Quadifier.Assigned(q, tri, p0, p1, l);
  }

  lemma SameTask(k: nat, n: nat, tasks: nat, t: nat, u: nat)
    requires t < tasks && u < tasks && TaskStart(t, n, tasks) <= k < TaskStart(t + 1, n, tasks)
    requires TaskStart(u, n, tasks) <= k < TaskStart(u + 1, n, tasks)
    ensures t == u
  {
    hide TaskStart;
    if t < u {
      TaskSlicesMono(t + 1, u, n, tasks);
    } else if u < t {
      TaskSlicesMono(u + 1, t, n, tasks);
    }
  }

  lemma MeshReference(g: Geometries, q: Pairings, i: nat, j: nat)
    requires g.isMesh(i)
    ensures ReferencesOf(g, q)(i, j).Some? <==> i < |q| && j < |q[i]| && Referenced(q[i], g.valid(i), j)
    ensures ReferencesOf(g, q)(i, j).Some? ==> ReferencesOf(g, q)(i, j).value == PairReference(g, q[i], i, j)
  {
  }

  /** Some reference of the array stores triangle r of mesh i. */
  ghost predicate InArray(s: seq<PrimRef>, q: Pairings, i: nat, r: nat)
    requires i < |q|
  {
    exists p :: p in s && p.geomID == i && 0 <= p.primID < |q[i]| && Stores(q[i], p.primID, r)
  }

  /** Whatever the stretches of the tasks were: a valid triangle is stored by the
      generated array exactly when its partner in the pairing is valid, too. */
  lemma TriangleInArray(g: Geometries, sizes: seq<nat>, q: Pairings, tasks: nat, i: nat, r: nat) returns (p0: nat, p1: nat, o: nat)
    requires AllMatched(g, sizes, q, tasks) && OwnIDs(g) && i < |sizes| && g.isMesh(i) && r < sizes[i] && g.valid(i)(r)
    ensures |q| == |sizes| && |q[i]| == sizes[i] && p1 <= sizes[i] && Partner(q[i], p0, p1, r, o)
    ensures InArray(Kept(ReferencesOf(g, q), Flat(sizes)), q, i, r) <==> g.valid(i)(o)
  {
    hide AllMatched, Quadifier.Matching, Flat, Kept, Partner, Referenced, Stores;
    p0, p1 := StretchOf(g, sizes, q, tasks, i, r);
    o := RepresentedIff(q[i], g.tri(i), g.valid(i), p0, p1, r);
    if Represented(q[i], g.valid(i), p0, p1, r) {
      var l: nat :| p0 <= l < p1 && Referenced(q[i], g.valid(i), l) && Stores(q[i], l, r);
      FlatAt(sizes, i, l);
      MeshReference(g, q, i, l);
      KeptIn(ReferencesOf(g, q), Flat(sizes), Offset(sizes, i) + l);
      assert PairReference(g, q[i], i, l) in Kept(ReferencesOf(g, q), Flat(sizes));
    }
    if InArray(Kept(ReferencesOf(g, q), Flat(sizes)), q, i, r) {
      var p :| p in Kept(ReferencesOf(g, q), Flat(sizes)) && p.geomID == i && 0 <= p.primID < |q[i]| && Stores(q[i], p.primID, r);
      var x := KeptFrom(ReferencesOf(g, q), Flat(sizes), p);
      if !g.isMesh(x.0) {
        assert g.other(x.0, x.1) == Some(p);
      } else {
        MeshReference(g, q, x.0, x.1);
      }
    }
  }
}
