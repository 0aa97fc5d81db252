/** The references that opening an instance makes: none is empty, and together
    they hold everything below the instance
    (rtbuild/qbvh6_builder_sah.h:1008-1016). */
module OpenedParts {
  import opened Common
  import opened Geometry
  import opened PrimLeafDesc
  import opened QNode
  import opened Bvh
  import opened Clipping
  import opened Transforms
  import opened OpenInstance
  import opened OpeningBounds
  import opened Hulls

  /** The box of a node holds the boxes of its valid children. */
  lemma {:induction false} ChildInBounds(n: Node, k: nat, i: nat)
    requires n.WellFormed() && i < k <= NUM_CHILDREN && n.ValidChild(i)
    ensures n.BoundsUpTo(k).Box? && Subset(n.ChildBounds(i), n.BoundsUpTo(k))
  {
    hide Dequantize;
    if i < k - 1 {
      ChildInBounds(n, k - 1, i);
      if n.ValidChild(k - 1) {
        ExtendCovers(n.BoundsUpTo(k - 1), n.ChildBounds(k - 1));
        SubsetTrans(n.ChildBounds(i), n.BoundsUpTo(k - 1), n.BoundsUpTo(k));
      }
    } else {
      ExtendCovers(n.BoundsUpTo(k - 1), n.ChildBounds(k - 1));
    }
  }

  lemma NodeNotEmpty(m: seq<Block>, masks: Masks, t: Tree)
    requires Encodes(m, masks, t)
    ensures t.addr < |m| && m[t.addr].NodeBlock? && m[t.addr].node.WellFormed() && m[t.addr].node.Bounds().Box?
  {
    hide ListAt, ChildAt, MaskOf, AllPrims, Node.ChildBounds, Node.BoundsUpTo;
    ChildInBounds(m[t.addr].node, NUM_CHILDREN, 0);
  }

  /** One to 32 references, at most four more than asked for, none of them empty. */
  lemma OpenedProper(x: Instanced, prim: PrimRef, wanted: nat, parts: seq<PrimRef>)
    requires 1 <= wanted && Opens(x, prim, wanted, parts)
    ensures 1 <= |parts| <= Min(MAX_SUBTREES, wanted + NUM_CHILDREN - 2)
    ensures forall part :: part in parts ==> Proper(part.bounds) && part.geomID == prim.geomID
  {
    hide Encodes, Opening, Complete, Proper, XfmBounds, Node.BoundsUpTo;
    var trace: seq<seq<Tree>> :| OpensAlong(x, prim, wanted, trace, parts);
    var ts := trace[|trace| - 1];
    RunSize(x.mem, x.masks, NodeArea, wanted, x.t, trace, |trace| - 1);
    forall i: nat | i < |parts|
      ensures Proper(parts[i].bounds) && parts[i].geomID == prim.geomID
    {
      NodeNotEmpty(x.mem, x.masks, ts[i]);
      assert StandsFor(x, prim, ts[i], parts[i]);
      XfmProper(x.local2world, x.mem[ts[i].addr].node.Bounds());
    }
  }

  /** Every cut of a run holds all leaves. */
  lemma {:induction false} RunCut(m: seq<Block>, masks: Masks, area: Node -> real, wanted: nat, t: Tree, trace: seq<seq<Tree>>, k: nat)
    requires Encodes(m, masks, t) && 1 <= wanted && Opening(Prio(m, area), wanted, t, trace) && k < |trace|
    ensures Cut(t, trace[k])
  {
    hide Encodes, Prio, Leaves, LeavesOf;
    if k == 0 {
      CutRoot(t);
    } else {
      RunCut(m, masks, area, wanted, t, trace, k - 1);
      RunSize(m, masks, area, wanted, t, trace, k - 1);
      assert Step(Prio(m, area), wanted, trace[k - 1], trace[k]);
      var i: nat :| OpensAt(Prio(m, area), wanted, trace[k - 1], i, trace[k]);
      OpenedEncoded(m, masks, trace[k - 1], i);
      CutOpened(t, trace[k - 1], i);
    }
  }

  lemma {:induction false} LeafOfSome(ts: seq<Tree>, r: PrimRef) returns (i: nat)
    requires r in LeavesOf(ts)
    ensures i < |ts| && r in Leaves(ts[i])
  {
    hide Leaves;
    var n := |ts| - 1;
    if r in Leaves(ts[n]) {
      i := n;
    } else {
      i := LeafOfSome(ts[..n], r);
    }
  }

  lemma {:induction false} PrimOfSome(kids: seq<Kid>, r: PrimRef) returns (i: nat)
    requires r in AllPrims(kids)
    ensures i < |kids| && r in kids[i].prims
  {
    var n := |kids| - 1;
    if r in kids[n].prims {
      i := n;
    } else {
      i := PrimOfSome(kids[..n], r);
    }
  }

  lemma RootPrims(t: Tree)
    ensures Leaves(t) == AllPrims(RootKids(t))
  {
    if t.Inner? {
      AllPrimsOfKids(t.kids);
    }
  }

  /** The box of a stored node holds every reference below it. */
  lemma LeafInBounds(m: seq<Block>, masks: Masks, t: Tree, r: PrimRef)
    requires Encodes(m, masks, t) && r in Leaves(t)
    ensures t.addr < |m| && m[t.addr].NodeBlock? && m[t.addr].node.WellFormed() && Subset(r.bounds, m[t.addr].node.Bounds())
  {
    hide ListAt, MaskOf, AllPrims, Leaves, Subset, Node.ChildBounds, Node.BoundsUpTo;
    RootPrims(t);
    var i := PrimOfSome(RootKids(t), r);
    var n := m[t.addr].node;
    assert ChildAt(n, t.addr, RootType(t), i, RootKids(t)[i]);
    ChildInBounds(n, NUM_CHILDREN, i);
    SubsetTrans(r.bounds, n.ChildBounds(i), n.Bounds());
  }

  /** The box of a node is the least one around the boxes of its valid children. */
  lemma {:induction false} BoundsLeast(n: Node, k: nat, c: Box)
    requires n.WellFormed() && k <= NUM_CHILDREN
    requires forall i: nat :: i < k && n.ValidChild(i) ==> Subset(n.ChildBounds(i), c)
    ensures Subset(n.BoundsUpTo(k), c)
  {
    hide Node.ChildBounds, Subset, Extend;
    if k == 0 {
      EmptyInside(c);
    } else {
      BoundsLeast(n, k - 1, c);
      if n.ValidChild(k - 1) {
        ExtendLeast(n.BoundsUpTo(k - 1), n.ChildBounds(k - 1), c);
      }
    }
  }

  /** It exceeds the box of what is below by an ulp and a grid step at most. */
  lemma BoundsTight(m: seq<Block>, masks: Masks, t: Tree)
    requires Encodes(m, masks, t) && forall r :: r in Leaves(t) ==> Proper(r.bounds)
    ensures t.addr < |m| && m[t.addr].NodeBlock? && m[t.addr].node.WellFormed()
    ensures var n, all := m[t.addr].node, Hull(Leaves(t));
      all.Box? && Subset(all, n.Bounds()) && Proper(n.Bounds()) && Subset(n.Bounds(), n.Slack(all))
  {
    hide ListAt, MaskOf, AllPrims, Leaves, Subset, Node.ChildBounds, Node.BoundsUpTo, Hull, OnGrid, Proper, Node.Slack;
    RootPrims(t);
    NodeNotEmpty(m, masks, t);
    var n, kids := m[t.addr].node, RootKids(t);
    var all := Hull(Leaves(t));
    BoxOfProper(all);
    forall i: nat | i < NUM_CHILDREN && n.ValidChild(i)
      ensures Subset(n.ChildBounds(i), n.Slack(all))
    {
      assert ChildAt(n, t.addr, RootType(t), i, kids[i]);
      InAllPrims(kids, i);
      HullAround(kids[i].prims, Leaves(t));
      SlackMono(n, Hull(kids[i].prims), all);
      SubsetTrans(n.ChildBounds(i), n.Slack(Hull(kids[i].prims)), n.Slack(all));
    }
    BoundsLeast(n, NUM_CHILDREN, n.Slack(all));
    forall r | r in Leaves(t)
      ensures Subset(r.bounds, n.Bounds())
    {
      LeafInBounds(m, masks, t, r);
    }
    HullLeast(Leaves(t), n.Bounds());
    ProperAround(all, n.Bounds());
  }

  lemma ProperAround(a: Box, b: Box)
    requires Proper(a) && Subset(a, b)
    ensures Proper(b)
  {
  }

  lemma HullAround(s: seq<PrimRef>, t: seq<PrimRef>)
    requires Hull(s).Box? && forall p :: p in s ==> p in t
    requires forall p :: p in t ==> Proper(p.bounds)
    ensures Proper(Hull(s)) && Subset(Hull(s), Hull(t))
  {
    hide Hull, Subset, Proper;
    if s == [] {
      HullNone();
    }
    HullProper(s);
    forall p | p in s
      ensures Subset(p.bounds, Hull(t))
    {
      var j: nat :| j < |t| && t[j] == p;
      HullCovers(t, j);
    }
    HullLeast(s, Hull(t));
  }

  lemma SlackMono(n: Node, a: Box, b: Box)
    requires Proper(a) && Proper(b) && Subset(a, b)
    ensures Subset(n.Slack(a), n.Slack(b))
  {
    hide ConservativeBox, GridStep;
    ConservativeMono(a, b);
    ConservativeProper(a);
    ConservativeProper(b);
  }

  /** The priority of a node is half the six faces of its box. */
  lemma NodeAreaIs(n: Node)
    requires n.WellFormed() && Proper(n.Bounds())
    ensures 2.0 * NodeArea(n) == 2.0 * FaceArea(n.Bounds(), 0) + 2.0 * FaceArea(n.Bounds(), 1) + 2.0 * FaceArea(n.Bounds(), 2)
  {
    hide Node.Bounds;
    HalfOfFaces(n.Bounds());
  }

  /** Every point of the box of a reference below the instance is, transformed,
      in the box of one of the references made. */
  lemma OpenedCover(x: Instanced, prim: PrimRef, wanted: nat, parts: seq<PrimRef>, r: PrimRef, v: Vec3) returns (i: nat)
    requires 1 <= wanted && Opens(x, prim, wanted, parts) && r in Leaves(x.t) && In(v, r.bounds)
    ensures i < |parts| && In(XfmPoint(x.local2world, v), parts[i].bounds)
  {
    hide Encodes, Opening, Complete, XfmPoint, XfmBounds, Leaves, LeavesOf, Node.BoundsUpTo;
    var trace: seq<seq<Tree>> :| OpensAlong(x, prim, wanted, trace, parts);
    var ts := trace[|trace| - 1];
    RunSize(x.mem, x.masks, NodeArea, wanted, x.t, trace, |trace| - 1);
    RunCut(x.mem, x.masks, NodeArea, wanted, x.t, trace, |trace| - 1);
    assert r in multiset(LeavesOf(ts));
    i := LeafOfSome(ts, r);
    assert StandsFor(x, prim, ts[i], parts[i]);
    LeafInBounds(x.mem, x.masks, ts[i], r);
    var n := x.mem[ts[i].addr].node;
    InSubset(v, r.bounds, n.Bounds());
    XfmContains(x.local2world, n.Bounds(), v);
  }

  lemma InSubset(v: Vec3, a: Box, b: Box)
    requires In(v, a) && Subset(a, b)
    ensures In(v, b)
  {
  }

  /** Every stored hierarchy can be opened. */
  lemma OpeningExists(x: Instanced, prim: PrimRef, wanted: nat)
    requires 1 <= wanted && Encodes(x.mem, x.masks, x.t)
    ensures exists parts: seq<PrimRef> :: Opens(x, prim, wanted, parts)
  {
    hide Encodes, Opening, Complete, XfmBounds, NodeArea, Node.BoundsUpTo;
    var trace := CompleteRun(x.mem, x.masks, NodeArea, wanted, x.t);
    var ts := trace[|trace| - 1];
    RunSize(x.mem, x.masks, NodeArea, wanted, x.t, trace, |trace| - 1);
    forall i: nat | i < |ts|
      ensures ts[i].addr < |x.mem| && x.mem[ts[i].addr].NodeBlock? && x.mem[ts[i].addr].node.WellFormed()
    {
      NodeNotEmpty(x.mem, x.masks, ts[i]);
    }
    var parts := seq(|ts|, i requires 0 <= i < |ts| =>
      PrimRef(XfmBounds(x.local2world, x.mem[ts[i].addr].node.Bounds()), prim.geomID, ts[i].addr - x.t.addr));
    assert OpensAlong(x, prim, wanted, trace, parts);
    assert Opens(x, prim, wanted, parts);
  }
}
