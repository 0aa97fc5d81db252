/** The hierarchy in node memory: which blocks hold which tree, and the reader
    that follows child references and leaf lists (rtbuild/qnode.h,
    rtbuild/leaf.h, rtbuild/qbvh6.cpp). */
module Bvh {
  import opened Common
  import opened Geometry
  import opened PrimLeafDesc
  import opened QNode

  datatype PType = Triangle | Quad | Procedural | Instance

  function NodeTypeOf(ty: PType): nat {
    match ty
    case Triangle => NODE_TYPE_QUAD
    case Quad => NODE_TYPE_QUAD
    case Procedural => NODE_TYPE_PROCEDURAL
    case Instance => NODE_TYPE_INSTANCE
  }

  datatype PrimRef = PrimRef(bounds: Box, geomID: nat, primID: int)

  /** The box of b and a reference. */
  function Grow(b: Box, p: PrimRef): Box {
    Extend(b, p.bounds)
  }

  /** The box of references. */
  function Hull(s: seq<PrimRef>): Box {
    Fold(Grow, Empty, s)
  }

  /** What identifies a reference. */
  type Id = (nat, int)

  function IdOf(p: PrimRef): Id {
    (p.geomID, p.primID)
  }

  function Ids(s: seq<PrimRef>): (r: seq<Id>)
    ensures |r| == |s| && forall i :: 0 <= i < |s| ==> r[i] == IdOf(s[i])
  {
    seq(|s|, i requires 0 <= i < |s| => IdOf(s[i]))
  }

  /** What a leaf keeps of it: instances store the whole geometry ID. */
  function LeafId(typeOf: nat -> PType, p: PrimRef): Id {
    (if typeOf(p.geomID) == Instance then p.geomID else GeomIndex(p.geomID), p.primID)
  }

  function LeafIds(typeOf: nat -> PType, s: seq<PrimRef>): (r: seq<Id>)
    ensures |r| == |s| && forall i :: 0 <= i < |s| ==> r[i] == LeafId(typeOf, s[i])
  {
    seq(|s|, i requires 0 <= i < |s| => LeafId(typeOf, s[i]))
  }

  /** No leaf can be written for the reference: "too large geometry ID". */
  predicate TooLarge(typeOf: nat -> PType, p: PrimRef) {
    typeOf(p.geomID) != Instance && MAX_GEOM_INDEX < p.geomID
  }

  /** A 64-byte block of node memory; an instance leaf takes two blocks. */
  datatype Block =
    | Free
    | NodeBlock(node: Node)
    | QuadBlock(geomIndex: nat, primID: int, mask: bv8, last: bool)
    | ProceduralBlock(geomIndex: nat, mask: bv8, primIndex: seq<int>, lasts: seq<bool>)
    | InstanceBlock(geomID: nat, rootOfs: int, mask: bv8)
    | InstancePart1

  // ----- the abstract tree

  /** A child of a node: its first block, its start slot in that block and the
      references below it. */
  datatype Kid = Kid(addr: int, slot: nat, prims: seq<PrimRef>)

  datatype Tree =
    | Inner(addr: nat, kids: seq<Tree>)
    | Fat(addr: nat, ty: PType, lists: seq<Kid>)

  function AllPrims(kids: seq<Kid>): seq<PrimRef> {
    if kids == [] then [] else AllPrims(kids[..|kids| - 1]) + kids[|kids| - 1].prims
  }

  function Leaves(t: Tree): seq<PrimRef>
    decreases t, 1
  {
    match t
    case Inner(_, kids) => LeavesOf(kids)
    case Fat(_, _, lists) => AllPrims(lists)
  }

  function LeavesOf(ts: seq<Tree>): seq<PrimRef>
    decreases ts, 0
  {
    if ts == [] then [] else LeavesOf(ts[..|ts| - 1]) + Leaves(ts[|ts| - 1])
  }

  function KidOf(t: Tree): Kid {
    Kid(t.addr, 0, Leaves(t))
  }

  function KidsOf(ts: seq<Tree>): (r: seq<Kid>)
    ensures |r| == |ts| && forall i :: 0 <= i < |ts| ==> r[i] == KidOf(ts[i])
  {
    seq(|ts|, i requires 0 <= i < |ts| => KidOf(ts[i]))
  }

  lemma {:induction false} AllPrimsOfKids(ts: seq<Tree>)
    ensures AllPrims(KidsOf(ts)) == LeavesOf(ts)
  {
    if ts != [] {
      AllPrimsOfKids(ts[..|ts| - 1]);
      assert KidsOf(ts)[..|ts| - 1] == KidsOf(ts[..|ts| - 1]);
    }
  }

  /** The number of internal nodes. */
  function Nodes(t: Tree): nat
    decreases t, 1
  {
    match t
    case Inner(_, kids) => 1 + NodesOf(kids)
    case Fat(_, _, _) => 1
  }

  function NodesOf(ts: seq<Tree>): nat
    decreases ts, 0
  {
    if ts == [] then 0 else NodesOf(ts[..|ts| - 1]) + Nodes(ts[|ts| - 1])
  }

  /** The OR of the geometry masks of references. */
  function MaskOf(masks: Masks, s: seq<PrimRef>): bv8 {
    if s == [] then 0 else MaskOf(masks, s[..|s| - 1]) | masks.of(s[|s| - 1].geomID)
  }

  lemma {:induction false} MaskConcat(masks: Masks, s: seq<PrimRef>, t: seq<PrimRef>)
    ensures MaskOf(masks, s + t) == MaskOf(masks, s) | MaskOf(masks, t)
  {
    if t == [] {
      assert s + t == s;
    } else {
      var n := |t| - 1;
      MaskConcat(masks, s, t[..n]);
      assert (s + t)[..|s + t| - 1] == s + t[..n];
      OrAssoc(MaskOf(masks, s), MaskOf(masks, t[..n]), masks.of(t[n].geomID));
    }
  }

  lemma OrAssoc(a: bv8, b: bv8, c: bv8)
    ensures (a | b) | c == a | (b | c)
  {
  }

  // ----- what the memory holds

  /** Child i of a node reads as kid k. Its box holds the references and exceeds
      their box by an ulp and a step of the node's grid at most. */
  ghost predicate ChildAt(n: Node, addr: int, ty: nat, i: nat, k: Kid) {
    && n.WellFormed() && i < NUM_CHILDREN
    && n.ChildType(i) == ty
    && addr + n.ChildOffset(i) == k.addr
    && n.ChildStartPrim(i) == k.slot
    && (forall p :: p in k.prims ==> Subset(p.bounds, n.ChildBounds(i)))
    && Hull(k.prims).Box? && Subset(n.ChildBounds(i), n.Slack(Hull(k.prims)))
  }

  /** The block at addr is a node with exactly these children, in the grid of the
      box of all references. */
  ghost predicate NodeAt(m: seq<Block>, masks: Masks, addr: int, ty: nat, kids: seq<Kid>) {
    && 0 <= addr < |m| && m[addr].NodeBlock?
    && 1 <= |kids| <= NUM_CHILDREN
    && var n := m[addr].node;
    && n.WellFormed() && n.nodeType == ty
    && Proper(Hull(AllPrims(kids))) && OnGrid(n, Hull(AllPrims(kids)))
    && n.nodeMask == MaskOf(masks, AllPrims(kids))
    && (forall i: nat :: i < NUM_CHILDREN ==> (n.ValidChild(i) <==> i < |kids|))
    && (forall i: nat :: i < |kids| ==> ChildAt(n, addr, ty, i, kids[i]))
  }

  function ListBlocks(ty: PType, k: Kid): nat {
    match ty
    case Triangle => |k.prims|
    case Quad => |k.prims|
    case Procedural => 1
    case Instance => 2
  }

  /** The leaf list of a child; procedurals and instances have one entry. */
  ghost predicate ListAt(m: seq<Block>, masks: Masks, ty: PType, k: Kid) {
    && 0 <= k.addr && k.addr + ListBlocks(ty, k) <= |m|
    && k.prims != []
    && match ty
       case Triangle => QuadsAt(m, masks, k)
       case Quad => QuadsAt(m, masks, k)
       case Procedural => ProceduralAt(m, masks, k)
       case Instance =>
         && |k.prims| == 1
         && m[k.addr] == InstanceBlock(k.prims[0].geomID, k.prims[0].primID, masks.of(k.prims[0].geomID))
         && m[k.addr + 1] == InstancePart1
  }

  ghost predicate ProceduralAt(m: seq<Block>, masks: Masks, k: Kid)
    requires 0 <= k.addr < |m|
  {
    && |k.prims| == 1
    && m[k.addr].ProceduralBlock?
    && |m[k.addr].primIndex| == |m[k.addr].lasts| && k.slot < |m[k.addr].primIndex|
    && k.prims[0].geomID <= MAX_GEOM_INDEX && m[k.addr].geomIndex == GeomIndex(k.prims[0].geomID)
    && m[k.addr].primIndex[k.slot] == k.prims[0].primID && m[k.addr].lasts[k.slot]
    && MaskStored(masks, k.prims[0].geomID, m[k.addr].mask)
  }

  /** Up to 2^29 geometries the block of a procedural names its geometry and has
      its mask. */
  lemma ProceduralExact(m: seq<Block>, masks: Masks, k: Kid)
    requires ListAt(m, masks, Procedural, k) && masks.count <= GEOM_INDEX_RANGE && k.prims[0].geomID < masks.count
    ensures m[k.addr].ProceduralBlock? && m[k.addr].geomIndex == k.prims[0].geomID && m[k.addr].mask == masks.of(k.prims[0].geomID)
  {
    hide MaskStored, GeomIndex;
    ExactMask(masks, k.prims[0].geomID, m[k.addr].mask);
  }

  ghost predicate QuadsAt(m: seq<Block>, masks: Masks, k: Kid)
    requires 0 <= k.addr && k.addr + |k.prims| <= |m|
  {
    forall j: nat :: j < |k.prims| ==> QuadAt(m, masks, k, j)
  }

  ghost predicate QuadAt(m: seq<Block>, masks: Masks, k: Kid, j: nat)
    requires 0 <= k.addr && k.addr + |k.prims| <= |m| && j < |k.prims|
  {
    && k.prims[j].geomID <= MAX_GEOM_INDEX
    && m[k.addr + j] == QuadBlock(GeomIndex(k.prims[j].geomID), k.prims[j].primID, masks.of(k.prims[j].geomID), j + 1 == |k.prims|)
  }

  /** The blocks below t.addr encode the tree, including masks and boxes: every
      reference lies in the dequantised box of every ancestor. */
  ghost predicate Encodes(m: seq<Block>, masks: Masks, t: Tree)
    decreases t
  {
    && NodeAt(m, masks, t.addr, RootType(t), RootKids(t))
    && match t
       case Inner(_, kids) => forall i: nat :: i < |kids| ==> Encodes(m, masks, kids[i])
       case Fat(_, ty, lists) => forall i: nat :: i < |lists| ==> ListAt(m, masks, ty, lists[i])
  }

  function RootType(t: Tree): nat {
    if t.Inner? then NODE_TYPE_INTERNAL else NodeTypeOf(t.ty)
  }

  function RootKids(t: Tree): seq<Kid> {
    if t.Inner? then KidsOf(t.kids) else t.lists
  }

  /** All leaf lists hold references of the type of their list. */
  ghost predicate Typed(typeOf: nat -> PType, t: Tree)
    decreases t
  {
    match t
    case Inner(_, kids) => forall i: nat :: i < |kids| ==> Typed(typeOf, kids[i])
    case Fat(_, ty, lists) => forall p :: p in AllPrims(lists) ==> typeOf(p.geomID) == ty
  }

  /** Apart from its root block the tree lies in the blocks from lo to hi. */
  ghost predicate Within(t: Tree, lo: int, hi: int)
    decreases t
  {
    match t
    case Inner(_, kids) => forall i: nat :: i < |kids| ==> lo <= kids[i].addr < hi && Within(kids[i], lo, hi)
    case Fat(_, ty, lists) =>
      forall i: nat :: i < |lists| ==> lo <= lists[i].addr && lists[i].addr + ListBlocks(ty, lists[i]) <= hi
  }

  lemma {:induction false} WithinMono(t: Tree, lo: int, hi: int, lo1: int, hi1: int)
    requires Within(t, lo, hi) && lo1 <= lo && hi <= hi1
    ensures Within(t, lo1, hi1)
    decreases t
  {
    if t.Inner? {
      forall i: nat | i < |t.kids|
        ensures Within(t.kids[i], lo1, hi1)
      {
        WithinMono(t.kids[i], lo, hi, lo1, hi1);
      }
    }
  }

  lemma NodeFrame(m: seq<Block>, m1: seq<Block>, masks: Masks, addr: int, ty: nat, kids: seq<Kid>)
    requires NodeAt(m, masks, addr, ty, kids) && |m1| == |m| && m1[addr] == m[addr]
    ensures NodeAt(m1, masks, addr, ty, kids)
  {
  }

  lemma ListFrame(m: seq<Block>, m1: seq<Block>, masks: Masks, ty: PType, k: Kid)
    requires ListAt(m, masks, ty, k) && |m1| == |m|
    requires forall a :: k.addr <= a < k.addr + ListBlocks(ty, k) ==> m1[a] == m[a]
    ensures ListAt(m1, masks, ty, k)
  {
    if ty == Triangle || ty == Quad {
      forall j: nat | j < |k.prims|
        ensures QuadAt(m1, masks, k, j)
      {
        assert QuadAt(m, masks, k, j);
      }
    }
  }

  /** A tree is not disturbed by writes to other blocks. */
  lemma {:induction false} EncodesFrame(m: seq<Block>, m1: seq<Block>, masks: Masks, t: Tree, lo: nat, hi: nat)
    requires Encodes(m, masks, t) && Within(t, lo, hi) && hi <= |m| == |m1| && t.addr < |m|
    requires m1[t.addr] == m[t.addr] && forall a :: lo <= a < hi ==> m1[a] == m[a]
    ensures Encodes(m1, masks, t)
    decreases t
  {
    hide NodeAt, ListAt;
    NodeFrame(m, m1, masks, t.addr, RootType(t), RootKids(t));
    match t
    case Inner(addr, kids) =>
      forall i: nat | i < |kids|
        ensures Encodes(m1, masks, kids[i])
      {
        EncodesFrame(m, m1, masks, kids[i], lo, hi);
      }
    case Fat(addr, ty, lists) =>
      forall i: nat | i < |lists|
        ensures ListAt(m1, masks, ty, lists[i])
      {
        ListFrame(m, m1, masks, ty, lists[i]);
      }
  }

  // ----- the reader

  /** The node type and position of a child, as decoded from its parent. */
  datatype NodeRef = NodeRef(addr: int, ty: nat, curPrim: nat)

  function ChildRef(n: Node, addr: int, i: nat): NodeRef
    requires n.WellFormed() && i < NUM_CHILDREN
  {
    NodeRef(addr + n.ChildOffset(i), n.ChildType(i), n.ChildStartPrim(i))
  }

  /** Visits the leaf list of a fat leaf's child. */
  method VisitList(mem: array<Block>, ref: NodeRef, ghost masks: Masks, ghost typeOf: nat -> PType, ghost ty: PType, ghost k: Kid)
    returns (ids: seq<Id>)
    requires ListAt(mem[..], masks, ty, k) && forall p :: p in k.prims ==> typeOf(p.geomID) == ty
    requires ref == NodeRef(k.addr, NodeTypeOf(ty), k.slot)
    ensures ids == LeafIds(typeOf, k.prims)
  {
    ids := [];
    if ref.ty == NODE_TYPE_INSTANCE {
      var b := mem[ref.addr];
      ids := [(b.geomID, b.rootOfs)];
    } else if ref.ty == NODE_TYPE_QUAD {
      var last, addr := false, ref.addr;
      while !last
        invariant |ids| <= |k.prims| && addr == k.addr + |ids|
        invariant ids == LeafIds(typeOf, k.prims[..|ids|])
        invariant last <==> |ids| == |k.prims|
        decreases |k.prims| - |ids|
      {
        var quad := mem[addr];
        assert QuadAt(mem[..], masks, k, |ids|);
        addr := addr + 1;
        last := quad.last;
        ids := ids + [(quad.geomIndex, quad.primID)];
      }
      assert k.prims[..|k.prims|] == k.prims;
    } else {
      var last, addr, currPrim := false, ref.addr, ref.curPrim;
      while !last
        invariant !last ==> ids == [] && addr == k.addr && currPrim == k.slot
        invariant last ==> ids == LeafIds(typeOf, k.prims)
        decreases if last then 0 else 1
      {
        var leaf := mem[addr];
        last := leaf.lasts[currPrim];
        ids := ids + [(leaf.geomIndex, leaf.primIndex[currPrim])];
        currPrim := currPrim + 1;
        if currPrim >= |leaf.primIndex| {
          currPrim, addr := 0, addr + 1;
        }
      }
    }
  }

  /** Visits everything below the node at addr in the order of the children. */
  method VisitNode(mem: array<Block>, addr: int, ghost masks: Masks, ghost typeOf: nat -> PType, ghost t: Tree) returns (ids: seq<Id>)
    requires Encodes(mem[..], masks, t) && Typed(typeOf, t) && addr == t.addr
    ensures ids == LeafIds(typeOf, Leaves(t))
    decreases t, 1
  {
    hide ListAt, Encodes, NodeAt, AllPrims, Leaves, Typed, LeafId;
    ids := [];
    ghost var kids := RootKids(t);
    RootNode(mem[..], masks, t);
    var node := mem[addr].node;
    AllPrimsNone(kids);
    for i := 0 to NUM_CHILDREN
      invariant ids == LeafIds(typeOf, AllPrims(kids[..Min(i, |kids|)]))
    {
      if node.ValidChild(i) {
        RootChild(mem[..], masks, t, i);
        var below := VisitChild(mem, ChildRef(node, addr, i), masks, typeOf, t, i);
        AllPrimsStep(kids, i);
        ids := ids + below;
      }
    }
    assert kids[..|kids|] == kids;
    LeavesAreKids(t);
  }

  method VisitChild(mem: array<Block>, ref: NodeRef, ghost masks: Masks, ghost typeOf: nat -> PType, ghost t: Tree, ghost i: nat)
    returns (ids: seq<Id>)
    requires Encodes(mem[..], masks, t) && Typed(typeOf, t) && i < |RootKids(t)|
    requires ref == NodeRef(RootKids(t)[i].addr, RootType(t), RootKids(t)[i].slot)
    ensures ids == LeafIds(typeOf, RootKids(t)[i].prims)
    decreases t, 0
  {
    hide ListAt, NodeAt, AllPrims;
    if ref.ty == NODE_TYPE_INTERNAL {
      ids := VisitNode(mem, ref.addr, masks, typeOf, t.kids[i]);
    } else {
      InAllPrims(t.lists, i);
      ids := VisitList(mem, ref, masks, typeOf, t.ty, t.lists[i]);
    }
  }

  lemma RootNode(m: seq<Block>, masks: Masks, t: Tree)
    requires Encodes(m, masks, t)
    ensures t.addr < |m| && m[t.addr].NodeBlock? && m[t.addr].node.WellFormed()
    ensures |RootKids(t)| <= NUM_CHILDREN
    ensures forall i: nat :: i < NUM_CHILDREN ==> (m[t.addr].node.ValidChild(i) <==> i < |RootKids(t)|)
  {
    hide ListAt, ChildAt, MaskOf, AllPrims;
  }

  lemma RootChild(m: seq<Block>, masks: Masks, t: Tree, i: nat)
    requires Encodes(m, masks, t) && i < |RootKids(t)|
    ensures t.addr < |m| && m[t.addr].NodeBlock? && m[t.addr].node.WellFormed() && i < NUM_CHILDREN
    ensures ChildRef(m[t.addr].node, t.addr, i) == NodeRef(RootKids(t)[i].addr, RootType(t), RootKids(t)[i].slot)
  {
    hide ListAt, MaskOf, AllPrims;
    assert ChildAt(m[t.addr].node, t.addr, RootType(t), i, RootKids(t)[i]);
  }

  lemma {:induction false} InAllPrims(kids: seq<Kid>, i: nat)
    requires i < |kids|
    ensures forall p :: p in kids[i].prims ==> p in AllPrims(kids)
  {
    if i < |kids| - 1 {
      InAllPrims(kids[..|kids| - 1], i);
    }
  }

  /** What is stored was admitted by the leaves. */
  lemma {:induction false} NoneTooLarge(m: seq<Block>, masks: Masks, typeOf: nat -> PType, t: Tree)
    requires Encodes(m, masks, t) && Typed(typeOf, t)
    ensures forall p :: p in Leaves(t) ==> !TooLarge(typeOf, p)
    decreases t
  {
    hide NodeAt;
    match t
    case Inner(_, kids) =>
      forall i: nat | i < |kids|
        ensures forall p :: p in Leaves(kids[i]) ==> !TooLarge(typeOf, p)
      {
        NoneTooLarge(m, masks, typeOf, kids[i]);
      }
      NoneOf(kids, p => TooLarge(typeOf, p));
    case Fat(_, ty, lists) =>
      forall i: nat | i < |lists|
        ensures forall p :: p in lists[i].prims ==> p in AllPrims(lists) && (ty != Instance ==> p.geomID <= MAX_GEOM_INDEX)
      {
        InAllPrims(lists, i);
        if ty != Instance {
          ListAdmitted(m, masks, ty, lists[i]);
        }
      }
      NoneIn(lists, p => TooLarge(typeOf, p));
  }

  lemma ListAdmitted(m: seq<Block>, masks: Masks, ty: PType, k: Kid)
    requires ListAt(m, masks, ty, k) && ty != Instance
    ensures forall p :: p in k.prims ==> p.geomID <= MAX_GEOM_INDEX
  {
    if ty == Triangle || ty == Quad {
      forall j: nat | j < |k.prims|
        ensures k.prims[j].geomID <= MAX_GEOM_INDEX
      {
        assert QuadAt(m, masks, k, j);
      }
    }
  }

  lemma {:induction false} NoneOf(ts: seq<Tree>, bad: PrimRef -> bool)
    requires forall i: nat :: i < |ts| ==> forall p :: p in Leaves(ts[i]) ==> !bad(p)
    ensures forall p :: p in LeavesOf(ts) ==> !bad(p)
  {
    hide Leaves;
    if ts != [] {
      NoneOf(ts[..|ts| - 1], bad);
    }
  }

  lemma {:induction false} NoneIn(kids: seq<Kid>, bad: PrimRef -> bool)
    requires forall i: nat :: i < |kids| ==> forall p :: p in kids[i].prims ==> !bad(p)
    ensures forall p :: p in AllPrims(kids) ==> !bad(p)
  {
    if kids != [] {
      NoneIn(kids[..|kids| - 1], bad);
    }
  }

  lemma AllPrimsNone(kids: seq<Kid>)
    ensures AllPrims(kids[..0]) == []
  {
  }

  lemma AllPrimsStep(kids: seq<Kid>, i: nat)
    requires i < |kids|
    ensures AllPrims(kids[..i + 1]) == AllPrims(kids[..i]) + kids[i].prims
  {
    assert kids[..i + 1][..i] == kids[..i];
  }

  lemma LeavesAreKids(t: Tree)
    ensures Leaves(t) == AllPrims(RootKids(t))
  {
    if t.Inner? {
      AllPrimsOfKids(t.kids);
    }
  }
}
