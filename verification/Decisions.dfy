/** Which tree the decisions of the builder make of a list of references, apart
    from arrays and node memory (rtbuild/qbvh6_builder_sah.h:552-862). */
module Decisions {
  import opened Common
  import opened Geometry
  import opened Bvh
  import opened Hulls
  import opened Records
  import opened Depth
  import opened SahSplit

  /** The references of a child; ty is None while their types may differ. */
  datatype Part = Part(prims: seq<PrimRef>, ty: Option<PType>)

  /** The references that each record stands for, in an array. */
  ghost function PartsOf(s: seq<PrimRef>, cs: seq<Record>): (ps: seq<Part>)
    ensures |ps| == |cs| && forall i: nat :: i < |cs| ==> ps[i] == Part(Slice(s, cs[i]), cs[i].ty)
  {
    seq(|cs|, i requires 0 <= i < |cs| => Part(Slice(s, cs[i]), cs[i].ty))
  }

  lemma PartsOne(s: seq<PrimRef>, r: Record)
    ensures PartsOf(s, [r]) == [Part(Slice(s, r), r.ty)]
  {
  }

  // ----- sequences of splits

  /** What one split may make of the children so far. */
  type Step = (seq<Part>, seq<Part>) -> bool

  ghost predicate Run(step: Step, trace: seq<seq<Part>>) {
    trace != [] && forall k: nat :: k < |trace| - 1 ==> step(trace[k], trace[k + 1])
  }

  ghost predicate RunFrom(step: Step, ps: seq<Part>, qs: seq<Part>, trace: seq<seq<Part>>) {
    Run(step, trace) && trace[0] == ps && trace[|trace| - 1] == qs
  }

  ghost predicate Reaches(step: Step, ps: seq<Part>, qs: seq<Part>) {
    exists trace: seq<seq<Part>> :: RunFrom(step, ps, qs, trace)
  }

  lemma ReachesSelf(step: Step, ps: seq<Part>)
    ensures Reaches(step, ps, ps)
  {
    assert RunFrom(step, ps, ps, [ps]);
  }

  lemma ReachesNext(step: Step, ps: seq<Part>, qs: seq<Part>, rs: seq<Part>)
    requires Reaches(step, ps, qs) && step(qs, rs)
    ensures Reaches(step, ps, rs)
  {
    var trace: seq<seq<Part>> :| RunFrom(step, ps, qs, trace);
    assert RunFrom(step, ps, rs, trace + [rs]);
  }

  /** qs is ps with part i replaced by two. */
  ghost predicate Divides(ps: seq<Part>, i: nat, qs: seq<Part>) {
    i < |ps| && |qs| == |ps| + 1 && qs == ps[i := qs[i]] + [qs[|ps|]]
  }

  /** Part i is divided by the surface area heuristic. */
  ghost predicate SahDivides(ps: seq<Part>, i: nat, qs: seq<Part>, blockSize: nat)
    requires 1 <= blockSize
  {
    && Divides(ps, i, qs) && qs[i].ty == qs[|ps|].ty == ps[i].ty
    && SplitChosen(ps[i].prims, qs[i].prims, qs[|ps|].prims, blockSize)
  }

  // ----- the largest box

  function PartArea(p: Part): real {
    HalfArea(Hull(p.prims))
  }

  /** The first part of largest surface among those above the leaf size. */
  ghost predicate LargestArea(leaf: nat, ps: seq<Part>, i: nat) {
    && i < |ps| && leaf < |ps[i].prims|
    && forall j: nat :: j < |ps| && leaf < |ps[j].prims| ==>
         PartArea(ps[j]) <= PartArea(ps[i]) && (j < i ==> PartArea(ps[j]) < PartArea(ps[i]))
  }

  ghost predicate AreaStepAt(leaf: nat, ps: seq<Part>, i: nat, qs: seq<Part>) {
    |ps| < BVH_WIDTH && LargestArea(leaf, ps, i) && SahDivides(ps, i, qs, SAH_BLOCK_SIZE)
  }

  ghost function AreaStep(leaf: nat): Step {
    (ps, qs) => exists i: nat :: AreaStepAt(leaf, ps, i, qs)
  }

  /** Six parts, or none that can be split. */
  ghost predicate Full(leaf: nat, ps: seq<Part>) {
    |ps| == BVH_WIDTH || forall j: nat :: j < |ps| ==> |ps[j].prims| <= leaf
  }

  // ----- the most references

  function Counts(ps: seq<Part>): (z: seq<nat>)
    ensures |z| == |ps| && forall i: nat :: i < |ps| ==> z[i] == |ps[i].prims|
  {
    seq(|ps|, i requires 0 <= i < |ps| => |ps[i].prims|)
  }

  ghost predicate CountStepAt(ps: seq<Part>, i: nat, qs: seq<Part>) {
    && ps != [] && |ps| < BVH_WIDTH && i == FirstLargest(Counts(ps)) && 1 < Counts(ps)[i]
    && SahDivides(ps, i, qs, 1)
  }

  ghost function CountStep(): Step {
    (ps, qs) => exists i: nat :: CountStepAt(ps, i, qs)
  }

  // ----- types

  /** The type of all references, if there is one. */
  ghost function CommonType(sc: Scene, s: seq<PrimRef>): Option<PType> {
    if s != [] && forall p :: p in s ==> sc.typeOf(p.geomID) == sc.typeOf(s[0].geomID) then Some(sc.typeOf(s[0].geomID)) else None
  }

  /** Part i, the first of unknown type, is divided into the references of the
      type of its first one and the others. */
  ghost predicate TypeStepAt(sc: Scene, ps: seq<Part>, i: nat, qs: seq<Part>) {
    && |ps| < BVH_WIDTH && i < |ps| && ps[i].ty.None? && (forall j: nat :: j < i ==> ps[j].ty.Some?)
    && Divides(ps, i, qs) && ps[i].prims != []
    && multiset(qs[i].prims + qs[|ps|].prims) == multiset(ps[i].prims)
    && var ty := sc.typeOf(ps[i].prims[0].geomID);
       && (forall p :: p in qs[i].prims ==> sc.typeOf(p.geomID) == ty) && (forall p :: p in qs[|ps|].prims ==> sc.typeOf(p.geomID) != ty)
       && qs[i].ty == Some(ty) && qs[|ps|].ty == CommonType(sc, qs[|ps|].prims)
  }

  ghost function TypeStep(sc: Scene): Step {
    (ps, qs) => exists i: nat :: TypeStepAt(sc, ps, i, qs)
  }

  // ----- halving

  /** Like Depth.Spread, on the references instead of their numbers. */
  function SpreadParts(ps: seq<Part>, leaf: nat): seq<Part>
    requires ps != []
    decreases BVH_WIDTH - |ps|
  {
    var i := FirstLargest(Counts(ps));
    if BVH_WIDTH <= |ps| || Counts(ps)[i] <= leaf then ps else SpreadParts(HalveParts(ps, i), leaf)
  }

  function HalveParts(ps: seq<Part>, i: nat): seq<Part>
    requires i < |ps|
  {
    var Part(s, ty) := ps[i];
    ps[i := Part(s[..|s| / 2], ty)] + [Part(s[|s| / 2..], ty)]
  }

  // ----- nodes

  /** Some order by the number of references. */
  ghost predicate BySize(ps: seq<Part>, ks: seq<Part>) {
    multiset(ks) == multiset(ps) && forall i: nat, j: nat :: i < j < |ks| ==> |ks[i].prims| <= |ks[j].prims|
  }

  /** The children of an inner node: parts of one type each if asked for, then
      splits of the largest box by the heuristic, in ascending size. */
  ghost predicate NodeParts(sc: Scene, p: Part, typed: bool, ks: seq<Part>) {
    exists ms: seq<Part>, qs: seq<Part> :: NodePartsVia(sc, p, typed, ms, qs, ks)
  }

  ghost predicate NodePartsVia(sc: Scene, p: Part, typed: bool, ms: seq<Part>, qs: seq<Part>, ks: seq<Part>) {
    && (if typed then Reaches(TypeStep(sc), [p], ms) && (forall j: nat :: j < |ms| ==> ms[j].ty.Some?) else ms == [p])
    && Reaches(AreaStep(LeafSize(p.ty)), ms, qs) && Full(LeafSize(p.ty), qs)
    && BySize(qs, ks)
  }

  function Singles(p: Part): (ps: seq<Part>)
    ensures |ps| == |p.prims| && forall i: nat :: i < |ps| ==> ps[i] == Part([p.prims[i]], p.ty)
  {
    seq(|p.prims|, i requires 0 <= i < |p.prims| => Part([p.prims[i]], p.ty))
  }

  /** The children of a fat leaf: one reference each, or six by the heuristic
      for single references, unless one of them stays above three. */
  ghost predicate FatParts(p: Part, ks: seq<Part>) {
    if |p.prims| <= BVH_WIDTH then ks == Singles(p)
    else exists qs: seq<Part> :: FatPartsVia(p, qs, ks)
  }

  ghost predicate FatPartsVia(p: Part, qs: seq<Part>, ks: seq<Part>) {
    && Reaches(CountStep(), [p], qs) && |qs| == BVH_WIDTH
    && if forall i: nat :: i < |qs| ==> |qs[i].prims| <= 3 then ks == qs
       else exists t: seq<PrimRef> :: multiset(t) == multiset(p.prims) && ks == SpreadParts([Part(t, p.ty)], 1)
  }

  function PrimsOf(ps: seq<Part>): (r: seq<seq<PrimRef>>)
    ensures |r| == |ps| && forall i: nat :: i < |ps| ==> r[i] == ps[i].prims
  {
    seq(|ps|, i requires 0 <= i < |ps| => ps[i].prims)
  }

  function ListPrims(lists: seq<Kid>): (r: seq<seq<PrimRef>>)
    ensures |r| == |lists| && forall i: nat :: i < |lists| ==> r[i] == lists[i].prims
  {
    seq(|lists|, i requires 0 <= i < |lists| => lists[i].prims)
  }

  ghost predicate ByArea(ps: seq<seq<PrimRef>>) {
    forall i: nat, j: nat :: i < j < |ps| ==> HalfArea(Hull(ps[j])) <= HalfArea(Hull(ps[i]))
  }

  /** A fat leaf: its lists are the children; those of triangles and quads stand
      in descending surface. */
  ghost predicate FatDecided(p: Part, t: Tree) {
    && t.Fat? && p.ty == Some(t.ty)
    && (exists ks: seq<Part> :: FatParts(p, ks) && multiset(ListPrims(t.lists)) == multiset(PrimsOf(ks)))
    && (t.ty == Triangle || t.ty == Quad ==> ByArea(ListPrims(t.lists)))
  }

  /** A balanced tree of fat leaves. */
  ghost predicate LargeDecided(p: Part, t: Tree)
    decreases t, 1
  {
    if |p.prims| <= LeafSize(p.ty) then FatDecided(p, t)
    else t.Inner? && AllLarge(SpreadParts([p], LeafSize(p.ty)), t.kids)
  }

  ghost predicate AllLarge(ps: seq<Part>, ts: seq<Tree>)
    decreases ts, 0
  {
    |ps| == |ts| && forall i: nat :: i < |ts| ==> LargeDecided(ps[i], ts[i])
  }

  /** The tree of a record at some depth. */
  ghost predicate Decided(sc: Scene, depth: nat, p: Part, t: Tree)
    decreases t, 1
  {
    var leaf := |p.prims| <= LeafSize(p.ty) || depth + MIN_LARGE_LEAF_LEVELS >= MAX_DEPTH;
    var asked := p.ty.None? && (leaf || |p.prims| <= TYPE_SPLIT_SIZE);
    var c := if asked then Part(p.prims, CommonType(sc, p.prims)) else p;
    if leaf && c.ty.Some? then LargeDecided(c, t)
    else t.Inner? && exists ks: seq<Part> :: NodeParts(sc, c, asked && c.ty.None?, ks) && AllDecided(sc, depth, ks, t.kids)
  }

  /** A single child is the record itself, at the same depth. */
  ghost predicate AllDecided(sc: Scene, depth: nat, ks: seq<Part>, ts: seq<Tree>)
    decreases ts, 0
  {
    |ks| == |ts| && forall i: nat :: i < |ts| ==> Decided(sc, if |ks| == 1 then depth else depth + 1, ks[i], ts[i])
  }
}
