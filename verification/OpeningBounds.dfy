/** How many subtrees opening an instance makes, compared with the number asked
    for (rtbuild/qbvh6_builder_sah.h:982-1006). */
module OpeningBounds {
  import opened Common
  import opened Geometry
  import opened PrimLeafDesc
  import opened QNode
  import opened Bvh
  import opened Hulls
  import opened NodeWriter
  import opened OpenInstance

  // ----- every run

  ghost predicate AllEncoded(m: seq<Block>, masks: Masks, ts: seq<Tree>) {
    forall i: nat :: i < |ts| ==> Encodes(m, masks, ts[i])
  }

  /** The subtrees of every cut of a run are encoded, and there are never more
      than 32, nor more than four above the number asked for. */
  lemma {:induction false} RunSize(m: seq<Block>, masks: Masks, area: Node -> real, wanted: nat, t: Tree, trace: seq<seq<Tree>>, k: nat)
    requires Encodes(m, masks, t) && 1 <= wanted && Opening(Prio(m, area), wanted, t, trace) && k < |trace|
    ensures AllEncoded(m, masks, trace[k]) && 1 <= |trace[k]| <= Min(MAX_SUBTREES, wanted + NUM_CHILDREN - 2)
  {
    hide Encodes, Prio;
    if k != 0 {
      RunSize(m, masks, area, wanted, t, trace, k - 1);
      assert Step(Prio(m, area), wanted, trace[k - 1], trace[k]);
      var i: nat :| OpensAt(Prio(m, area), wanted, trace[k - 1], i, trace[k]);
      OpenedEncoded(m, masks, trace[k - 1], i);
    }
  }

  lemma OpenedEncoded(m: seq<Block>, masks: Masks, ts: seq<Tree>, i: nat)
    requires AllEncoded(m, masks, ts) && i < |ts| && ts[i].Inner?
    ensures AllEncoded(m, masks, Opened(ts, i)) && 1 <= |ts[i].kids| <= NUM_CHILDREN
  {
    hide Encodes;
    RootNode(m, masks, ts[i]);
    SomeKids(m, masks, ts[i]);
    forall k: nat | k < |ts[i].kids|
      ensures Encodes(m, masks, ts[i].kids[k])
    {
      ChildEncodes(m, masks, ts[i], k);
    }
  }

  lemma SomeKids(m: seq<Block>, masks: Masks, t: Tree)
    requires Encodes(m, masks, t) && t.Inner?
    ensures 1 <= |t.kids|
  {
    hide ListAt, ChildAt, MaskOf, AllPrims;
  }

  /** A subtree of largest priority. */
  lemma {:induction false} LargestOf(prio: Tree -> real, ts: seq<Tree>) returns (i: nat)
    requires ts != []
    ensures i < |ts| && forall j: nat :: j < |ts| ==> prio(ts[j]) <= prio(ts[i])
  {
    i := 0;
    for k := 1 to |ts|
      invariant i < k && forall j: nat :: j < k ==> prio(ts[j]) <= prio(ts[i])
    {
      if prio(ts[i]) < prio(ts[k]) {
        i := k;
      }
    }
  }

  /** Every stored hierarchy has a complete run. */
  lemma CompleteRun(m: seq<Block>, masks: Masks, area: Node -> real, wanted: nat, t: Tree) returns (trace: seq<seq<Tree>>)
    requires Encodes(m, masks, t) && NonNegative(area) && 1 <= wanted
    ensures RunOn(m, masks, area, wanted, t, trace)
  {
    hide Encodes, Prio, Complete;
    CutRoot(t);
    trace := [[t]];
    while !Complete(Prio(m, area), wanted, trace[|trace| - 1])
      invariant Opening(Prio(m, area), wanted, t, trace)
      invariant Cut(t, trace[|trace| - 1])
      decreases NodesOf(trace[|trace| - 1])
    {
      hide Opening, Cut, NodesOf;
      ghost var ts := trace[|trace| - 1];
      var i := NextOpening(m, masks, area, wanted, t, trace);
      CutOpened(t, ts, i);
      OpeningNext(Prio(m, area), wanted, t, trace, i);
      trace := trace + [Opened(ts, i)];
    }
  }

  lemma NextOpening(m: seq<Block>, masks: Masks, area: Node -> real, wanted: nat, t: Tree, trace: seq<seq<Tree>>) returns (i: nat)
    requires Encodes(m, masks, t) && NonNegative(area) && 1 <= wanted && Opening(Prio(m, area), wanted, t, trace)
    requires !Complete(Prio(m, area), wanted, trace[|trace| - 1])
    ensures var ts := trace[|trace| - 1];
      i < |ts| && ts[i].Inner? && 1 <= |ts[i].kids| && OpensAt(Prio(m, area), wanted, ts, i, Opened(ts, i))
  {
    hide Encodes, NodePriority, Opening;
    RunNotEmpty(Prio(m, area), wanted, t, trace);
    RunSize(m, masks, area, wanted, t, trace, |trace| - 1);
    var ts := trace[|trace| - 1];
    i := LargestOf(Prio(m, area), ts);
    forall j: nat | j < |ts|
      ensures 0.0 <= NodePriority(m, area, ts[j]) && (0.0 < NodePriority(m, area, ts[j]) ==> ts[j].Inner? && 1 <= |ts[j].kids|)
    {
      PriorityFacts(m, masks, area, ts[j]);
    }
  }

  /** A run that can neither end nor make more than one opening: two are asked
      for, and the root has six children. */
  lemma SixAtOnce(m: seq<Block>, masks: Masks, area: Node -> real, t: Tree, trace: seq<seq<Tree>>)
    requires Encodes(m, masks, t) && t.Inner? && |t.kids| == NUM_CHILDREN && 0.0 < NodePriority(m, area, t)
    requires Opening(Prio(m, area), 2, t, trace) && Complete(Prio(m, area), 2, trace[|trace| - 1])
    ensures |trace[|trace| - 1]| == NUM_CHILDREN
  {
    hide Encodes, NodePriority;
    RootOpens(Prio(m, area), t);
    if 1 < |trace| {
      OpenedOnce(Prio(m, area), t, trace, |trace| - 1);
    }
  }

  lemma RootOpens(prio: Tree -> real, t: Tree)
    requires 0.0 < prio(t)
    ensures !Complete(prio, 2, [t])
  {
    assert prio([t][0]) != 0.0;
  }

  lemma {:induction false} OpenedOnce(prio: Tree -> real, t: Tree, trace: seq<seq<Tree>>, n: nat)
    requires t.Inner? && |t.kids| == NUM_CHILDREN && Opening(prio, 2, t, trace) && 1 <= n < |trace|
    ensures |trace[n]| == NUM_CHILDREN
  {
    assert Step(prio, 2, trace[n - 1], trace[n]);
    var i: nat :| OpensAt(prio, 2, trace[n - 1], i, trace[n]);
    if 2 <= n {
      OpenedOnce(prio, t, trace, n - 1);
    }
  }

  // ----- hierarchies that are opened too far

  const UNIT: Box := Box(Vec3(0.0, 0.0, 0.0), Vec3(1.0, 1.0, 1.0))

  function Ref(i: nat): PrimRef {
    PrimRef(UNIT, 0, i)
  }

  /** A leaf node over one quad. */
  function LeafAt(addr: nat, quad: nat, i: nat): Tree {
    Fat(addr, Quad, [Kid(quad, 0, [Ref(i)])])
  }

  /** The quads stand behind the nodes. */
  function QuadBase(n: nat): nat {
    2 * n + 7
  }

  /** n nodes below each other, each with a leaf beside the next one, and a node
      with six leaves at the end; from node j on. */
  function Chain(j: nat, n: nat): (t: Tree)
    requires j <= n
    ensures t.Inner? && t.addr == 2 * j
    decreases n - j
  {
    if j == n then Inner(2 * n, SixLeaves(n)) else Inner(2 * j, [LeafAt(2 * j + 1, QuadBase(n) + j, j), Chain(j + 1, n)])
  }

  function SixLeaves(n: nat): (ts: seq<Tree>)
    ensures |ts| == NUM_CHILDREN && forall i: nat :: i < NUM_CHILDREN ==> ts[i] == LeafAt(2 * n + 1 + i, QuadBase(n) + n + i, n + i)
  {
    seq(NUM_CHILDREN, i requires 0 <= i < NUM_CHILDREN => LeafAt(2 * n + 1 + i, QuadBase(n) + n + i, n + i))
  }

  /** The tree whose root is block a. */
  function TreeAt(n: nat, a: nat): (t: Tree)
    requires a < QuadBase(n)
    ensures t.addr == a
  {
    if a <= 2 * n && a % 2 == 0 then Chain(a / 2, n)
    else if a < 2 * n then LeafAt(a, QuadBase(n) + a / 2, a / 2)
    else LeafAt(a, QuadBase(n) + n + (a - 2 * n - 1), n + (a - 2 * n - 1))
  }

  function UnitEntries(k: nat): (es: seq<Entry>)
    ensures |es| == k && forall i: nat :: i < k ==> es[i] == Entry(UNIT, 1, 0)
  {
    seq(k, _ => Entry(UNIT, 1, 0))
  }

  /** What a node over a tree's children is written from. */
  ghost predicate UnitTree(t: Tree) {
    var kids := RootKids(t);
    && 1 <= |kids| <= NUM_CHILDREN && 0 <= kids[0].addr
    && forall i: nat :: i < |kids| ==> kids[i].addr == kids[0].addr + i && kids[i].slot == 0 && AllUnit(kids[i].prims)
  }

  /** References with unit boxes only. */
  ghost predicate AllUnit(s: seq<PrimRef>) {
    s != [] && forall p :: p in s ==> p.bounds == UNIT
  }

  lemma {:induction false} UnitHull(s: seq<PrimRef>)
    requires AllUnit(s)
    ensures Hull(s) == UNIT
  {
    hide Hull;
    var n := |s| - 1;
    assert s == s[..n] + [s[n]];
    HullAppend(s[..n], s[n]);
    if n == 0 {
      assert s[..n] == [];
      HullNone();
    } else {
      UnitHull(s[..n]);
    }
  }

  lemma {:induction false} UnitPrims(kids: seq<Kid>)
    requires kids != [] && forall i: nat :: i < |kids| ==> AllUnit(kids[i].prims)
    ensures AllUnit(AllPrims(kids))
  {
    var n := |kids| - 1;
    if n != 0 {
      UnitPrims(kids[..n]);
    }
  }

  lemma Entries(ty: nat, k: nat)
    requires ty < 16 && k <= NUM_CHILDREN
    ensures Writable(ty, UnitEntries(k)) && forall e :: e in UnitEntries(k) ==> Subset(e.bounds, UNIT)
  {
  }

  lemma TypeSmall(t: Tree)
    ensures RootType(t) < 16
  {
  }

  ghost function UnitNode(masks: Masks, t: Tree): Node
    requires UnitTree(t)
  {
    TypeSmall(t);
    Entries(RootType(t), |RootKids(t)|);
    NodeOf(UNIT, RootType(t), RootKids(t)[0].addr - t.addr, MaskOf(masks, AllPrims(RootKids(t))), UnitEntries(|RootKids(t)|))
  }

  lemma {:induction false} OneBlockEach(k: nat, i: nat)
    requires i <= k
    ensures BlocksBefore(UnitEntries(k), i) == i
  {
    if 0 < i {
      OneBlockEach(k, i - 1);
    }
  }

  lemma UnitNodeReads(m: seq<Block>, masks: Masks, t: Tree)
    requires UnitTree(t) && t.addr < |m| && m[t.addr] == NodeBlock(UnitNode(masks, t))
    ensures NodeAt(m, masks, t.addr, RootType(t), RootKids(t))
  {
    hide NodeAt, MaskOf, AllPrims, NodeOf, BlocksBefore, RootType, Hull, AllUnit;
    var kids := RootKids(t);
    UnitPrims(kids);
    UnitHull(AllPrims(kids));
    TypeSmall(t);
    Entries(RootType(t), |kids|);
    forall i: nat | i < |kids|
      ensures KidEntry(UnitEntries(|kids|), kids[i], kids[0].addr, i)
    {
      OneBlockEach(|kids|, i);
      UnitHull(kids[i].prims);
    }
    NodeOfReads(UNIT, RootType(t), t.addr, kids[0].addr, UnitEntries(|kids|), kids, masks);
  }

  lemma LeafPrims(addr: nat, quad: nat, i: nat)
    ensures Leaves(LeafAt(addr, quad, i)) == [Ref(i)] && UnitTree(LeafAt(addr, quad, i))
  {
    var lists := [Kid(quad, 0, [Ref(i)])];
    assert lists[..0] == [];
    assert AllPrims(lists) == AllPrims(lists[..0]) + lists[0].prims;
  }

  lemma {:induction false} ManyUnit(ts: seq<Tree>)
    requires ts != [] && forall i: nat :: i < |ts| ==> AllUnit(Leaves(ts[i]))
    ensures AllUnit(LeavesOf(ts))
  {
    hide Leaves;
    if 1 < |ts| {
      ManyUnit(ts[..|ts| - 1]);
    }
  }

  lemma {:induction false} ChainUnit(j: nat, n: nat)
    requires j <= n
    ensures AllUnit(Leaves(Chain(j, n))) && UnitTree(Chain(j, n))
    decreases n - j
  {
    hide Leaves, LeavesOf;
    var t := Chain(j, n);
    if j < n {
      ChainUnit(j + 1, n);
    }
    forall i: nat | i < |t.kids|
      ensures AllUnit(Leaves(t.kids[i]))
    {
      if j == n {
        LeafPrims(2 * n + 1 + i, QuadBase(n) + n + i, n + i);
      } else if i == 0 {
        LeafPrims(2 * j + 1, QuadBase(n) + j, j);
      }
    }
    ManyUnit(t.kids);
    InnerParts(t);
  }

  lemma TreeUnit(n: nat, a: nat)
    requires a < QuadBase(n)
    ensures UnitTree(TreeAt(n, a))
  {
    hide UnitTree, Chain, LeafAt;
    if a <= 2 * n && a % 2 == 0 {
      ChainUnit(a / 2, n);
    } else if a < 2 * n {
      LeafPrims(a, QuadBase(n) + a / 2, a / 2);
    } else {
      LeafPrims(a, QuadBase(n) + n + (a - 2 * n - 1), n + (a - 2 * n - 1));
    }
  }

  /** The nodes, then the quads. */
  ghost function ChainMemory(masks: Masks, n: nat): (m: seq<Block>)
    ensures |m| == QuadBase(n) + n + NUM_CHILDREN
  {
    seq(QuadBase(n) + n + NUM_CHILDREN, (a: nat) => ChainBlock(masks, n, a))
  }

  ghost function ChainBlock(masks: Masks, n: nat, a: nat): Block {
    if a < QuadBase(n) then
      TreeUnit(n, a);
      NodeBlock(UnitNode(masks, TreeAt(n, a)))
    else QuadBlock(0, a - QuadBase(n), masks.of(0), true)
  }

  lemma NodeInChain(masks: Masks, n: nat, a: nat)
    requires a < QuadBase(n)
    ensures var t := TreeAt(n, a); NodeAt(ChainMemory(masks, n), masks, a, RootType(t), RootKids(t))
  {
    hide UnitTree, TreeAt, NodeAt, UnitNode;
    TreeUnit(n, a);
    UnitNodeReads(ChainMemory(masks, n), masks, TreeAt(n, a));
  }

  /** A leaf of the chain is encoded. */
  lemma LeafInChain(masks: Masks, n: nat, a: nat, i: nat)
    requires a < QuadBase(n) && i < n + NUM_CHILDREN && TreeAt(n, a) == LeafAt(a, QuadBase(n) + i, i)
    ensures Encodes(ChainMemory(masks, n), masks, LeafAt(a, QuadBase(n) + i, i))
  {
    hide NodeAt, TreeAt, ChainMemory, MaskOf;
    NodeInChain(masks, n, a);
    QuadInChain(masks, n, i);
  }

  lemma QuadInChain(masks: Masks, n: nat, i: nat)
    requires i < n + NUM_CHILDREN
    ensures ListAt(ChainMemory(masks, n), masks, Quad, Kid(QuadBase(n) + i, 0, [Ref(i)]))
  {
    var k := Kid(QuadBase(n) + i, 0, [Ref(i)]);
    assert QuadAt(ChainMemory(masks, n), masks, k, 0);
  }

  lemma {:induction false} ChainEncoded(masks: Masks, j: nat, n: nat)
    requires j <= n
    ensures Encodes(ChainMemory(masks, n), masks, Chain(j, n))
    decreases n - j
  {
    hide NodeAt, ChainMemory, Encodes;
    NodeInChain(masks, n, 2 * j);
    var t := Chain(j, n);
    RootInChain(j, n);
    forall i: nat | i < |t.kids|
      ensures Encodes(ChainMemory(masks, n), masks, t.kids[i])
    {
      hide Chain;
      ChainKid(j, n, i);
      if j < n && i == 1 {
        ChainEncoded(masks, j + 1, n);
      } else {
        LeafInChain(masks, n, t.kids[i].addr, if j == n then n + i else j);
      }
    }
    InnerEncoded(ChainMemory(masks, n), masks, t);
  }

  lemma RootInChain(j: nat, n: nat)
    requires j <= n
    ensures 2 * j < QuadBase(n) && TreeAt(n, 2 * j) == Chain(j, n) && Chain(j, n).addr == 2 * j
  {
  }

  /** The children of a node of the chain: the next node and leaves. */
  lemma ChainKid(j: nat, n: nat, i: nat)
    requires j <= n && i < |Chain(j, n).kids|
    ensures var t := Chain(j, n).kids[i];
      if j < n && i == 1 then t == Chain(j + 1, n)
      else var q := if j == n then n + i else j;
        t.addr < QuadBase(n) && q < n + NUM_CHILDREN && t == TreeAt(n, t.addr) == LeafAt(t.addr, QuadBase(n) + q, q)
  {
  }

  lemma InnerEncoded(m: seq<Block>, masks: Masks, t: Tree)
    requires t.Inner? && NodeAt(m, masks, t.addr, RootType(t), RootKids(t))
    requires forall i: nat :: i < |t.kids| ==> Encodes(m, masks, t.kids[i])
    ensures Encodes(m, masks, t)
  {
    hide NodeAt;
  }

  // ----- priorities in the chain

  lemma {:induction false} WideNode(n: Node, k: nat)
    requires n.WellFormed() && k <= NUM_CHILDREN
    requires forall i: nat :: i < k && n.ValidChild(i) ==> Subset(UNIT, n.ChildBounds(i))
    ensures var b := n.BoundsUpTo(k);
      (b.Empty? <==> forall i: nat :: i < k ==> !n.ValidChild(i)) && (b.Box? ==> Proper(b) && Subset(UNIT, b))
  {
    if k != 0 {
      WideNode(n, k - 1);
      if n.ValidChild(k - 1) {
        ExtendCovers(n.BoundsUpTo(k - 1), n.ChildBounds(k - 1));
        SubsetTrans(UNIT, n.ChildBounds(k - 1), Extend(n.BoundsUpTo(k - 1), n.ChildBounds(k - 1)));
      }
    }
  }

  lemma WideArea(b: Box)
    requires Proper(b) && Subset(UNIT, b)
    ensures 0.0 < HalfArea(b)
  {
    var x, y, z := b.hi.x - b.lo.x, b.hi.y - b.lo.y, b.hi.z - b.lo.z;
    assert 1.0 <= x && 1.0 <= y && 1.0 <= z;
    assert 0.0 < x * (y + z) && 0.0 < y * z;
  }

  lemma {:induction false} FirstLeaf(ts: seq<Tree>, i: nat)
    requires i < |ts|
    ensures forall p :: p in Leaves(ts[i]) ==> p in LeavesOf(ts)
  {
    hide Leaves;
    if i < |ts| - 1 {
      FirstLeaf(ts[..|ts| - 1], i);
    }
  }

  ghost predicate HasUnit(t: Tree) {
    exists p :: p in Leaves(t) && p.bounds == UNIT
  }

  /** An encoded node whose children all hold unit boxes has positive area. */
  lemma InnerPriority(m: seq<Block>, masks: Masks, t: Tree)
    requires Encodes(m, masks, t) && t.Inner?
    requires forall i: nat :: i < |t.kids| ==> HasUnit(t.kids[i])
    ensures 0.0 < NodePriority(m, NodeArea, t)
  {
    hide ListAt, MaskOf, AllPrims, HasUnit;
    RootNode(m, masks, t);
    SomeKids(m, masks, t);
    var n := m[t.addr].node;
    forall i: nat | i < NUM_CHILDREN && n.ValidChild(i)
      ensures Subset(UNIT, n.ChildBounds(i))
    {
      assert i < |t.kids|;
      assert HasUnit(t.kids[i]);
      KidUnit(m, masks, t, i);
    }
    WideNode(n, NUM_CHILDREN);
    assert n.ValidChild(0);
    WideArea(n.Bounds());
  }

  lemma KidUnit(m: seq<Block>, masks: Masks, t: Tree, i: nat)
    requires Encodes(m, masks, t) && t.Inner? && i < |t.kids|
    requires HasUnit(t.kids[i])
    ensures t.addr < |m| && m[t.addr].NodeBlock? && m[t.addr].node.WellFormed() && i < NUM_CHILDREN
    ensures Subset(UNIT, m[t.addr].node.ChildBounds(i))
  {
    hide ListAt, MaskOf, AllPrims, Leaves, Subset;
    var n := m[t.addr].node;
    assert ChildAt(n, t.addr, RootType(t), i, RootKids(t)[i]);
    var p :| p in Leaves(t.kids[i]) && p.bounds == UNIT;
    assert p in RootKids(t)[i].prims;
  }

  lemma {:induction false} ChainLeaf(j: nat, n: nat)
    requires j <= n
    ensures HasUnit(Chain(j, n))
  {
    hide Leaves, LeavesOf;
    var t := Chain(j, n);
    FirstLeaf(t.kids, 0);
    InnerParts(t);
    if j == n {
      LeafPrims(2 * n + 1, QuadBase(n) + n, n);
      assert Ref(n) in Leaves(t);
    } else {
      LeafPrims(2 * j + 1, QuadBase(n) + j, j);
      assert Ref(j) in Leaves(t);
    }
  }

  lemma ChainPriority(masks: Masks, j: nat, n: nat)
    requires j <= n
    ensures 0.0 < NodePriority(ChainMemory(masks, n), NodeArea, Chain(j, n))
  {
    hide Leaves, Encodes, NodePriority, ChainMemory;
    ChainEncoded(masks, j, n);
    var t := Chain(j, n);
    forall i: nat | i < |t.kids|
      ensures HasUnit(t.kids[i])
    {
      if j == n {
        LeafPrims(2 * n + 1 + i, QuadBase(n) + n + i, n + i);
        assert Ref(n + i) in Leaves(t.kids[i]);
      } else if i == 0 {
        LeafPrims(2 * j + 1, QuadBase(n) + j, j);
        assert Ref(j) in Leaves(t.kids[i]);
      } else {
        ChainLeaf(j + 1, n);
      }
    }
    InnerPriority(ChainMemory(masks, n), masks, t);
  }

  lemma LeafPriority(m: seq<Block>, masks: Masks, t: Tree)
    requires Encodes(m, masks, t) && t.Fat?
    ensures NodePriority(m, NodeArea, t) == 0.0
  {
    hide Encodes, NodePriority;
    PriorityFacts(m, masks, NodeArea, t);
  }

  // ----- runs on the chain

  /** One subtree is x, the others have no priority. */
  ghost predicate OnlyOne(prio: Tree -> real, ts: seq<Tree>, x: Tree) {
    exists i: nat :: OnlyAt(prio, ts, x, i)
  }

  ghost predicate OnlyAt(prio: Tree -> real, ts: seq<Tree>, x: Tree, i: nat) {
    i < |ts| && ts[i] == x && forall j: nat :: j < |ts| && j != i ==> prio(ts[j]) == 0.0
  }

  /** What the priorities of the chain are. */
  ghost predicate ChainPrio(prio: Tree -> real, n: nat) {
    && (forall j: nat :: j <= n ==> 0.0 < prio(Chain(j, n)))
    && (forall j: nat :: j < n ==> prio(LeafAt(2 * j + 1, QuadBase(n) + j, j)) == 0.0)
    && (forall i: nat :: i < NUM_CHILDREN ==> prio(SixLeaves(n)[i]) == 0.0)
  }

  lemma ChainPrios(masks: Masks, n: nat)
    ensures ChainPrio(Prio(ChainMemory(masks, n), NodeArea), n)
  {
    hide NodePriority, ChainMemory, Encodes;
    var m := ChainMemory(masks, n);
    forall j: nat | j <= n
      ensures 0.0 < NodePriority(m, NodeArea, Chain(j, n))
    {
      ChainPriority(masks, j, n);
    }
    forall j: nat | j < n
      ensures NodePriority(m, NodeArea, LeafAt(2 * j + 1, QuadBase(n) + j, j)) == 0.0
    {
      LeafInChain(masks, n, 2 * j + 1, j);
      LeafPriority(m, masks, LeafAt(2 * j + 1, QuadBase(n) + j, j));
    }
    forall i: nat | i < NUM_CHILDREN
      ensures NodePriority(m, NodeArea, SixLeaves(n)[i]) == 0.0
    {
      LeafInChain(masks, n, 2 * n + 1 + i, n + i);
      LeafPriority(m, masks, SixLeaves(n)[i]);
    }
  }

  /** Opening the only subtree with a priority. */
  lemma OpensOnly(prio: Tree -> real, n: nat, wanted: nat, ts: seq<Tree>, ts1: seq<Tree>, k: nat)
    requires ChainPrio(prio, n) && k <= n && OnlyOne(prio, ts, Chain(k, n)) && Step(prio, wanted, ts, ts1)
    ensures k < n ==> |ts1| == |ts| + 1 && OnlyOne(prio, ts1, Chain(k + 1, n))
    ensures k == n ==> |ts1| == |ts| + NUM_CHILDREN - 1 && forall j: nat :: j < |ts1| ==> prio(ts1[j]) == 0.0
  {
    hide ChainPrio, LeafAt;
    var i: nat :| OnlyAt(prio, ts, Chain(k, n), i);
    var o: nat :| OpensAt(prio, wanted, ts, o, ts1);
    assert o == i;
    assert ts1 == ts[..i] + ts[i + 1..] + ts[i].kids;
    KidPrios(prio, n, k);
    if k < n {
      assert OnlyAt(prio, ts1, Chain(k + 1, n), |ts1| - 1);
    }
  }

  lemma KidPrios(prio: Tree -> real, n: nat, k: nat)
    requires ChainPrio(prio, n) && k <= n
    ensures k < n ==> Chain(k, n).kids == [Chain(k, n).kids[0], Chain(k + 1, n)] && prio(Chain(k, n).kids[0]) == 0.0
    ensures k == n ==> |Chain(k, n).kids| == NUM_CHILDREN && forall i: nat :: i < NUM_CHILDREN ==> prio(Chain(k, n).kids[i]) == 0.0
  {
  }

  /** The cuts of a run on the chain: one more subtree with every opening, and
      five more with the last. */
  lemma {:induction false} ChainRun(prio: Tree -> real, n: nat, wanted: nat, trace: seq<seq<Tree>>, k: nat)
    requires ChainPrio(prio, n) && Opening(prio, wanted, Chain(0, n), trace) && k < |trace|
    ensures k <= n + 1
    ensures k <= n ==> |trace[k]| == k + 1 && OnlyOne(prio, trace[k], Chain(k, n))
    ensures k == n + 1 ==> |trace[k]| == n + NUM_CHILDREN
  {
    hide ChainPrio, OnlyOne, Step, Chain;
    if k == 0 {
      assert OnlyAt(prio, trace[0], Chain(0, n), 0);
      OnlyFirst(prio, trace[0], Chain(0, n));
    } else {
      ChainRun(prio, n, wanted, trace, k - 1);
      assert Step(prio, wanted, trace[k - 1], trace[k]);
      if k - 1 <= n {
        OpensOnly(prio, n, wanted, trace[k - 1], trace[k], k - 1);
      } else {
        ChainRun(prio, n, wanted, trace, n);
        assert Step(prio, wanted, trace[n], trace[n + 1]);
        OpensOnly(prio, n, wanted, trace[n], trace[n + 1], n);
        NoStep(prio, wanted, trace[k - 1], trace[k]);
      }
    }
  }

  lemma OnlyFirst(prio: Tree -> real, ts: seq<Tree>, x: Tree)
    requires OnlyAt(prio, ts, x, 0)
    ensures OnlyOne(prio, ts, x)
  {
  }

  lemma NoStep(prio: Tree -> real, wanted: nat, ts: seq<Tree>, ts1: seq<Tree>)
    requires forall j: nat :: j < |ts| ==> prio(ts[j]) == 0.0
    ensures !Step(prio, wanted, ts, ts1)
  {
  }

  /** A run does not end while the only subtree with a priority can be opened. */
  lemma NotComplete(prio: Tree -> real, wanted: nat, ts: seq<Tree>, x: Tree)
    requires OnlyOne(prio, ts, x) && 0.0 < prio(x) && |ts| < wanted && |ts| + NUM_CHILDREN - 1 <= MAX_SUBTREES
    ensures !Complete(prio, wanted, ts)
  {
    var i: nat :| OnlyAt(prio, ts, x, i);
    assert prio(ts[i]) != 0.0;
  }

  /** How long the chain is for a number of subtrees asked for. */
  function ChainLength(wanted: nat): nat
    requires 2 <= wanted
  {
    Min(wanted - 1, MAX_SUBTREES - NUM_CHILDREN + 1) - 1
  }

  /** For every number from 2 to 31 there is a stored hierarchy on which every
      run makes more subtrees: four more, or 32. */
  lemma MoreThanWanted(masks: Masks, wanted: nat, trace: seq<seq<Tree>>)
    requires 2 <= wanted <= 31
    ensures var n := ChainLength(wanted);
      var m, t := ChainMemory(masks, n), Chain(0, n);
      && Encodes(m, masks, t)
      && (Opening(Prio(m, NodeArea), wanted, t, trace) && Complete(Prio(m, NodeArea), wanted, trace[|trace| - 1]) ==>
            |trace[|trace| - 1]| == Min(MAX_SUBTREES, wanted + NUM_CHILDREN - 2) > wanted)
  {
    hide Encodes, ChainMemory, Prio, Chain, ChainPrio, OnlyOne, Complete, Opening;
    var n := ChainLength(wanted);
    var m, t := ChainMemory(masks, n), Chain(0, n);
    ChainEncoded(masks, 0, n);
    ChainPrios(masks, n);
    var prio := Prio(m, NodeArea);
    if Opening(prio, wanted, t, trace) {
      RunNotEmpty(prio, wanted, t, trace);
      var k := |trace| - 1;
      ChainRun(prio, n, wanted, trace, k);
      if k <= n {
        PositiveChain(prio, n, k);
        NotComplete(prio, wanted, trace[k], Chain(k, n));
      }
    }
  }

  lemma RunNotEmpty(prio: Tree -> real, wanted: nat, t: Tree, trace: seq<seq<Tree>>)
    requires Opening(prio, wanted, t, trace)
    ensures trace != []
  {
  }

  lemma PositiveChain(prio: Tree -> real, n: nat, k: nat)
    requires ChainPrio(prio, n) && k <= n
    ensures 0.0 < prio(Chain(k, n))
  {
    hide Chain;
  }

  // ----- the condition on the number asked for

  /** No stored hierarchy is opened into more subtrees than are asked for. */
  ghost predicate NeverMore(wanted: nat) {
    forall m: seq<Block>, masks: Masks, area: Node -> real, t: Tree, trace: seq<seq<Tree>> ::
      RunOn(m, masks, area, wanted, t, trace) ==> |trace[|trace| - 1]| <= wanted
  }

  /** Opening never makes more subtrees than are asked for exactly when one or
      the most, 32, are. */
  lemma NeverMoreIff(wanted: nat)
    requires 1 <= wanted <= MAX_SUBTREES
    ensures NeverMore(wanted) <==> wanted == 1 || wanted == MAX_SUBTREES
  {
    hide Encodes, Opening, Complete;
    if wanted == 1 || wanted == MAX_SUBTREES {
      forall m: seq<Block>, masks: Masks, area: Node -> real, t: Tree, trace: seq<seq<Tree>> | RunOn(m, masks, area, wanted, t, trace)
        ensures |trace[|trace| - 1]| <= wanted
      {
        if wanted == 1 {
          OneStays(Prio(m, area), t, trace);
        } else {
          RunSize(m, masks, area, wanted, t, trace, |trace| - 1);
        }
      }
    } else {
      var masks := Masks(_ => 0xFF, 1);
      var n := ChainLength(wanted);
      ChainEncoded(masks, 0, n);
      var trace := CompleteRun(ChainMemory(masks, n), masks, NodeArea, wanted, Chain(0, n));
      MoreThanWanted(masks, wanted, trace);
      assert RunOn(ChainMemory(masks, n), masks, NodeArea, wanted, Chain(0, n), trace);
    }
  }

  lemma OneStays(prio: Tree -> real, t: Tree, trace: seq<seq<Tree>>)
    requires Opening(prio, 1, t, trace)
    ensures trace != [] && |trace[|trace| - 1]| <= 1
  {
    hide Step;
    if 1 < |trace| {
      NoOpening(prio, trace[0], trace[1]);
    }
  }

  lemma NoOpening(prio: Tree -> real, ts: seq<Tree>, ts1: seq<Tree>)
    requires ts != []
    ensures !Step(prio, 1, ts, ts1)
  {
  }
}
