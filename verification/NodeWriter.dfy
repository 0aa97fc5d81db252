/** Writing a whole node: the loop over the children of setInternalNode and of
    the fat leaves, with the proof that it reads back
    (rtbuild/qbvh6_builder_sah.h:342-364, 485-490). */
module NodeWriter {
  import opened Common
  import opened Geometry
  import opened PrimLeafDesc
  import opened QNode
  import opened Bvh
  import opened Hulls

  /** What is written for one child. */
  datatype Entry = Entry(bounds: Box, blocks: nat, slot: nat) {
    predicate Valid() {
      Proper(bounds) && blocks < 4 && slot < 16
    }
  }

  /** The blocks of all children before the last entry. */
  function BlocksBefore(es: seq<Entry>, i: nat): nat
    requires i <= |es|
  {
    if i == 0 then 0 else BlocksBefore(es, i - 1) + es[i - 1].blocks
  }

  /** The box of all children. */
  function UnionOf(bs: seq<Box>): (b: Box)
    requires forall c :: c in bs ==> Proper(c)
    ensures if bs == [] then b == Empty else Proper(b)
    ensures forall c :: c in bs ==> Subset(c, b)
  {
    if bs == [] then Empty else
      var n := |bs| - 1;
      assert bs == bs[..n] + [bs[n]];
      ExtendCovers(UnionOf(bs[..n]), bs[n]);
      assert forall c :: c in bs[..n] ==> Subset(c, UnionOf(bs[..n]));
      Extend(UnionOf(bs[..n]), bs[n])
  }

  /** The first k children of a node are set from the entries. */
  ghost predicate ChildrenSet(n: Node, box: Box, ty: nat, ofs: int, es: seq<Entry>, k: nat) {
    && n.WellFormed() && n.nodeType == ty && n.childOffset == ofs
    && k <= |es| <= NUM_CHILDREN && Proper(box) && OnGrid(n, box)
    && (forall i: nat :: i < NUM_CHILDREN ==> (n.ValidChild(i) <==> i < k))
    && (forall i: nat :: i < k ==> ChildSet(n, i, ty, es[i]))
  }

  ghost predicate ChildSet(n: Node, i: nat, ty: nat, e: Entry)
    requires n.WellFormed() && i < NUM_CHILDREN
  {
    && n.ChildType(i) == ty && n.ChildStartPrim(i) == e.slot
    && Subset(e.bounds, n.ChildBounds(i)) && e.bounds.Box? && Subset(n.ChildBounds(i), n.Slack(e.bounds))
    && (i < NUM_CHILDREN - 1 ==> n.child[i].blockIncr == e.blocks)
  }

  lemma ChildrenStep(n: Node, box: Box, ty: nat, ofs: int, es: seq<Entry>, k: nat)
    requires ChildrenSet(n, box, ty, ofs, es, k) && k < |es| && es[k].Valid() && Subset(es[k].bounds, box)
    requires ty < 16 && (ty == NODE_TYPE_INTERNAL ==> es[k].slot == 0)
    ensures ChildrenSet(SetChild(n, k, es[k].bounds, ty, es[k].blocks, es[k].slot), box, ty, ofs, es, k + 1)
  {
    hide SetChild, OnGrid, Subset, Node.Slack, Node.ChildBounds, Proper;
    SetChildReads(n, k, box, es[k].bounds, ty, es[k].blocks, es[k].slot);
    var r := SetChild(n, k, es[k].bounds, ty, es[k].blocks, es[k].slot);
    SameGrid(n, r, box);
    SameSlack(n, r, es[k].bounds);
    forall i: nat | i < NUM_CHILDREN && i != k
      ensures r.ValidChild(i) == n.ValidChild(i)
      ensures i < k ==> ChildSet(r, i, ty, es[i])
    {
      if i < k {
        ChildKept(n, r, i, ty, es[i]);
      }
    }
  }

  lemma SameGrid(n: Node, r: Node, box: Box)
    requires n.WellFormed() && Proper(box) && OnGrid(n, box) && r == n.(child := r.child)
    ensures OnGrid(r, box)
  {
  }

  lemma SameSlack(n: Node, r: Node, b: Box)
    requires Proper(b) && r == n.(child := r.child)
    ensures b.Box? && r.Slack(b) == n.Slack(b)
  {
    hide ConservativeBox, GridStep;
  }

  lemma ChildKept(n: Node, r: Node, i: nat, ty: nat, e: Entry)
    requires n.WellFormed() && i < NUM_CHILDREN && ChildSet(n, i, ty, e)
    requires r == n.(child := r.child) && r.WellFormed() && r.child[i] == n.child[i]
    ensures ChildSet(r, i, ty, e)
  {
    hide ConservativeBox, GridStep, Subset, Dequantize;
  }

  /** Offsets read back as the sum of the sizes of the earlier children. */
  lemma {:induction false} OffsetsRead(n: Node, box: Box, ty: nat, ofs: int, es: seq<Entry>, i: nat)
    requires ChildrenSet(n, box, ty, ofs, es, |es|) && i < |es|
    ensures n.ChildOffset(i) == ofs + BlocksBefore(es, i)
  {
    hide ChildrenSet;
    ChildrenBounds(n, box, ty, ofs, es);
    if i != 0 {
      OffsetsRead(n, box, ty, ofs, es, i - 1);
      assert ChildSet(n, i - 1, ty, es[i - 1]);
    }
  }

  lemma ChildrenFields(n: Node, box: Box, ty: nat, ofs: int, es: seq<Entry>, k: nat)
    requires ChildrenSet(n, box, ty, ofs, es, k)
    ensures n.WellFormed() && n.nodeType == ty
  {
  }

  lemma ChildrenBounds(n: Node, box: Box, ty: nat, ofs: int, es: seq<Entry>)
    requires ChildrenSet(n, box, ty, ofs, es, |es|)
    ensures n.WellFormed() && n.nodeType == ty && n.childOffset == ofs && |es| <= NUM_CHILDREN
    ensures forall i: nat :: i < NUM_CHILDREN ==> (n.ValidChild(i) <==> i < |es|)
    ensures forall i: nat :: i < |es| ==> ChildSet(n, i, ty, es[i])
  {
  }

  /** The entries describe the kids: sizes give the addresses, boxes are those of
      the references. */
  ghost predicate Describes(es: seq<Entry>, kids: seq<Kid>, childAddr: int) {
    && |es| == |kids|
    && forall i: nat :: i < |es| ==> KidEntry(es, kids[i], childAddr, i)
  }

  ghost predicate KidEntry(es: seq<Entry>, k: Kid, childAddr: int, i: nat)
    requires i < |es|
  {
    && k.addr == childAddr + BlocksBefore(es, i)
    && k.slot == es[i].slot
    && es[i].bounds == Hull(k.prims)
  }

  /** 32-bit child offsets hold every distance in a buffer of less than 2^31 blocks. */
  function ToInt32(x: int): int {
    (x + 0x8000_0000) % 0x1_0000_0000 - 0x8000_0000
  }

  /** Other distances change by a multiple of 2^32. */
  lemma Int32Exact(x: int)
    ensures ToInt32(x) == x <==> -0x8000_0000 <= x < 0x8000_0000
    ensures -0x8000_0000 <= ToInt32(x) < 0x8000_0000 && (x - ToInt32(x)) % 0x1_0000_0000 == 0
  {
    var y, w := x + 0x8000_0000, 0x1_0000_0000;
    assert x - ToInt32(x) == y - y % w == w * (y / w);
  }

  /** Entries that a node of a type can hold. */
  ghost predicate Writable(ty: nat, es: seq<Entry>) {
    && ty < 16 && |es| <= NUM_CHILDREN
    && forall e :: e in es ==> e.Valid() && (ty == NODE_TYPE_INTERNAL ==> e.slot == 0)
  }

  /** The node after its first k children were set. */
  ghost function ChildrenFrom(n: Node, ty: nat, es: seq<Entry>, k: nat): (r: Node)
    requires n.WellFormed() && n.nodeType == ty && Writable(ty, es) && k <= |es|
    ensures r.WellFormed() && r.nodeType == ty
  {
    if k == 0 then n else
      assert es[k - 1] in es;
      SetChild(ChildrenFrom(n, ty, es, k - 1), k - 1, es[k - 1].bounds, ty, es[k - 1].blocks, es[k - 1].slot)
  }

  /** The node that is written for the entries. */
  ghost function NodeOf(box: Box, ty: nat, ofs: int, mask: bv8, es: seq<Entry>): Node
    requires Proper(box) && Writable(ty, es)
  {
    NewNodeFields(box, ty);
    ChildrenFrom(NewNode(box, ty).(childOffset := ofs), ty, es, |es|).(nodeMask := mask)
  }

  lemma {:induction false} ChildrenFromSet(n: Node, box: Box, ty: nat, ofs: int, es: seq<Entry>, k: nat)
    requires ChildrenSet(n, box, ty, ofs, es, 0) && Writable(ty, es) && k <= |es|
    requires forall e :: e in es ==> Subset(e.bounds, box)
    ensures n.WellFormed() && n.nodeType == ty && ChildrenSet(ChildrenFrom(n, ty, es, k), box, ty, ofs, es, k)
  {
    hide ChildrenSet, SetChild;
    ChildrenFields(n, box, ty, ofs, es, 0);
    if k != 0 {
      ChildrenFromSet(n, box, ty, ofs, es, k - 1);
      assert es[k - 1] in es;
      ChildrenStep(ChildrenFrom(n, ty, es, k - 1), box, ty, ofs, es, k - 1);
    }
  }

  /** The node reads back as exactly the described kids, wherever it is stored. */
  lemma NodeOfReads(box: Box, ty: nat, addr: int, childAddr: int, es: seq<Entry>, kids: seq<Kid>, masks: Masks)
    requires Proper(box) && Writable(ty, es) && 1 <= |es| && Describes(es, kids, childAddr)
    requires forall e :: e in es ==> Subset(e.bounds, box)
    requires box == Hull(AllPrims(kids))
    ensures var n := NodeOf(box, ty, childAddr - addr, MaskOf(masks, AllPrims(kids)), es);
      && OnGrid(n, box)
      && forall m: seq<Block> :: 0 <= addr < |m| && m[addr] == NodeBlock(n) ==> NodeAt(m, masks, addr, ty, kids)
  {
    hide SetChild, NewNode, OnGrid, ChildrenSet, MaskOf, AllPrims, NodeAt, Describes, ChildrenFrom;
    NewNodeOnGrid(box, ty);
    NewNodeFields(box, ty);
    var n0 := NewNode(box, ty).(childOffset := childAddr - addr);
    ChildrenNone(n0, NewNode(box, ty), box, ty, childAddr - addr, es);
    ChildrenFromSet(n0, box, ty, childAddr - addr, es, |es|);
    var set_ := ChildrenFrom(n0, ty, es, |es|);
    var n := set_.(nodeMask := MaskOf(masks, AllPrims(kids)));
    NodeReadsBack(set_, n, box, ty, addr, childAddr, es, kids, masks);
    GridKept(set_, n, box, ty, childAddr - addr, es);
  }

  /** Writes the node for the entries. */
  method MakeNode(box: Box, ty: nat, addr: int, childAddr: int, mask: bv8, es: seq<Entry>, ghost kids: seq<Kid>,
                  ghost masks: Masks) returns (n: Node)
    requires Proper(box) && ty < 16 && 1 <= |es| <= NUM_CHILDREN
    requires forall e :: e in es ==> e.Valid() && Subset(e.bounds, box) && (ty == NODE_TYPE_INTERNAL ==> e.slot == 0)
    requires Describes(es, kids, childAddr) && box == Hull(AllPrims(kids))
    requires mask == MaskOf(masks, AllPrims(kids))
    requires -0x8000_0000 <= childAddr - addr < 0x8000_0000
    ensures n == NodeOf(box, ty, childAddr - addr, mask, es)
    ensures forall m: seq<Block> :: 0 <= addr < |m| && m[addr] == NodeBlock(n) ==> NodeAt(m, masks, addr, ty, kids)
    ensures OnGrid(n, box)
  {
    hide SetChild, NewNode, OnGrid, MaskOf, AllPrims, NodeAt, Describes;
    Int32Exact(childAddr - addr);
    n := NewNode(box, ty);
    NewNodeFields(box, ty);
    n := n.(childOffset := ToInt32(childAddr - addr));
    ghost var n0 := n;
    for i := 0 to |es|
      invariant n == ChildrenFrom(n0, ty, es, i)
    {
      assert es[i] in es;
      n := SetChild(n, i, es[i].bounds, ty, es[i].blocks, es[i].slot);
    }
    n := n.(nodeMask := mask);
    NodeOfReads(box, ty, addr, childAddr, es, kids, masks);
  }

  lemma GridKept(n: Node, n1: Node, box: Box, ty: nat, ofs: int, es: seq<Entry>)
    requires ChildrenSet(n, box, ty, ofs, es, |es|) && n1 == n.(nodeMask := n1.nodeMask)
    ensures Proper(box) && OnGrid(n1, box)
  {
  }

  lemma NewNodeFields(box: Box, ty: nat)
    requires Proper(box)
    ensures NewNode(box, ty).WellFormed() && NewNode(box, ty).nodeType == ty
  {
  }

  lemma ChildrenNone(n: Node, n0: Node, box: Box, ty: nat, ofs: int, es: seq<Entry>)
    requires n0.WellFormed() && n0.nodeType == ty && Proper(box) && OnGrid(n0, box) && |es| <= NUM_CHILDREN
    requires n == n0.(childOffset := ofs)
    requires forall i: nat :: i < NUM_CHILDREN ==> !n0.ValidChild(i)
    ensures ChildrenSet(n, box, ty, ofs, es, 0)
  {
    hide ConservativeBox, SpanExp;
    forall i: nat | i < NUM_CHILDREN
      ensures !n.ValidChild(i)
    {
      assert !n0.ValidChild(i);
    }
  }

  lemma {:induction false} MaskIrrelevant(n: Node, n1: Node, i: nat)
    requires n.WellFormed() && n1 == n.(nodeMask := n1.nodeMask) && i < NUM_CHILDREN
    ensures n1.WellFormed() && n1.ChildOffset(i) == n.ChildOffset(i)
    ensures n1.ValidChild(i) == n.ValidChild(i) && n1.ChildType(i) == n.ChildType(i)
    ensures n1.ChildStartPrim(i) == n.ChildStartPrim(i) && n1.ChildBounds(i) == n.ChildBounds(i)
  {
    if i != 0 {
      MaskIrrelevant(n, n1, i - 1);
    }
  }

  lemma NodeReadsBack(n: Node, n1: Node, box: Box, ty: nat, addr: int, childAddr: int, es: seq<Entry>, kids: seq<Kid>,
                      masks: Masks)
    requires ChildrenSet(n, box, ty, childAddr - addr, es, |es|) && 1 <= |es| && Describes(es, kids, childAddr)
    requires n1 == n.(nodeMask := MaskOf(masks, AllPrims(kids))) && box == Hull(AllPrims(kids))
    ensures forall m: seq<Block> :: 0 <= addr < |m| && m[addr] == NodeBlock(n1) ==> NodeAt(m, masks, addr, ty, kids)
  {
    hide ChildrenSet, MaskOf, AllPrims, Hull, OnGrid;
    ChildrenBounds(n, box, ty, childAddr - addr, es);
    GridKept(n, n1, box, ty, childAddr - addr, es);
    forall i: nat | i < |es|
      ensures ChildAt(n1, addr, ty, i, kids[i])
    {
      KidReadsBack(n, n1, box, ty, addr, childAddr, es, kids, i);
    }
    forall i: nat | i < NUM_CHILDREN
      ensures n1.WellFormed() && (n1.ValidChild(i) <==> i < |es|)
    {
      MaskIrrelevant(n, n1, i);
    }
  }

  lemma KidReadsBack(n: Node, n1: Node, box: Box, ty: nat, addr: int, childAddr: int, es: seq<Entry>, kids: seq<Kid>, i: nat)
    requires ChildrenSet(n, box, ty, childAddr - addr, es, |es|) && i < |es| && Describes(es, kids, childAddr)
    requires n1 == n.(nodeMask := n1.nodeMask)
    ensures ChildAt(n1, addr, ty, i, kids[i])
  {
    hide ChildrenSet;
    ChildrenBounds(n, box, ty, childAddr - addr, es);
    MaskIrrelevant(n, n1, i);
    OffsetsRead(n, box, ty, childAddr - addr, es, i);
    assert ChildSet(n, i, ty, es[i]) && KidEntry(es, kids[i], childAddr, i);
    hide Hull, Subset, Dequantize, ConservativeBox;
    var ps := kids[i].prims;
    forall p | p in ps
      ensures Subset(p.bounds, n1.ChildBounds(i))
    {
      var j: nat :| j < |ps| && ps[j] == p;
      HullCovers(ps, j);
      SubsetTrans(p.bounds, es[i].bounds, n.ChildBounds(i));
    }
  }

  /** A child of any stored node is as tight as its grid allows: the box read
      holds that of the references below and exceeds it by an ulp and a grid step
      at most, and the step is less than 2/255 of the node's own extent, unless
      the exponent is the least one or the node has no extent. */
  lemma StoredChildTight(m: seq<Block>, masks: Masks, addr: nat, ty: nat, kids: seq<Kid>, i: nat)
    requires NodeAt(m, masks, addr, ty, kids) && i < |kids|
    ensures var n, b := m[addr].node, Hull(kids[i].prims);
      && n.WellFormed() && i < NUM_CHILDREN && b.Box?
      && Subset(b, n.ChildBounds(i)) && Subset(n.ChildBounds(i), n.Slack(b))
    ensures var n, all := m[addr].node, Hull(AllPrims(kids));
      && Proper(all)
      && var g := ConservativeBox(all);
         FineStep(g.lo.x, g.hi.x, n.expX) && FineStep(g.lo.y, g.hi.y, n.expY) && FineStep(g.lo.z, g.hi.z, n.expZ)
  {
    hide Hull, MaskOf, AllPrims, FineStep, ConservativeBox, Subset, Dequantize, GridStep;
    var n, ps := m[addr].node, kids[i].prims;
    assert ChildAt(n, addr, ty, i, kids[i]);
    HullLeast(ps, n.ChildBounds(i));
    NodeIsFine(n, Hull(AllPrims(kids)));
  }
}
