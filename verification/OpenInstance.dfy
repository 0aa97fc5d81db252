/** Opening an instance into subtrees of its hierarchy, read from node memory
    (rtbuild/qbvh6_builder_sah.h:949-1017). */
module OpenInstance {
  import opened Common
  import opened Geometry
  import opened PrimLeafDesc
  import opened QNode
  import opened Bvh
  import opened Transforms

  const MAX_SUBTREES: nat := 32

  /** A heap item: the block of a node and its priority. */
  datatype Item = Item(node: int, priority: real)

  /** Fat leaves cannot be opened. */
  function Priority(area: Node -> real, n: Node): real {
    if n.IsFatLeaf() then 0.0 else area(n)
  }

  /** The priority of the root of a subtree. */
  function NodePriority(m: seq<Block>, area: Node -> real, t: Tree): real {
    if t.addr < |m| && m[t.addr].NodeBlock? then Priority(area, m[t.addr].node) else 0.0
  }

  function Prio(m: seq<Block>, area: Node -> real): Tree -> real {
    t => NodePriority(m, area, t)
  }

  ghost predicate NonNegative(area: Node -> real) {
    forall n: Node :: 0.0 <= area(n)
  }

  // ----- what the heap stands for

  ghost predicate ItemAt(m: seq<Block>, masks: Masks, area: Node -> real, it: Item, t: Tree) {
    Encodes(m, masks, t) && it == Item(t.addr, NodePriority(m, area, t))
  }

  /** The items are the roots of the subtrees ts. */
  ghost predicate Tracks(m: seq<Block>, masks: Masks, area: Node -> real, heap: seq<Item>, ts: seq<Tree>) {
    |heap| == |ts| && forall i: nat :: i < |heap| ==> ItemAt(m, masks, area, heap[i], ts[i])
  }

  /** The subtrees are a cut: together they hold every leaf of the hierarchy
      exactly once. */
  ghost predicate Cut(root: Tree, ts: seq<Tree>) {
    ts != [] && multiset(LeavesOf(ts)) == multiset(Leaves(root))
  }

  /** ts without subtree i, which is opened into its children. */
  function Opened(ts: seq<Tree>, i: nat): seq<Tree>
    requires i < |ts| && ts[i].Inner?
  {
    ts[..i] + ts[i + 1..] + ts[i].kids
  }

  lemma {:induction false} LeavesConcat(a: seq<Tree>, b: seq<Tree>)
    ensures LeavesOf(a + b) == LeavesOf(a) + LeavesOf(b)
    ensures NodesOf(a + b) == NodesOf(a) + NodesOf(b)
  {
    hide Leaves, Nodes;
    if b == [] {
      assert a + b == a;
    } else {
      var n := |b| - 1;
      LeavesConcat(a, b[..n]);
      assert (a + b)[..|a + b| - 1] == a + b[..n];
    }
  }

  lemma OneTree(t: Tree)
    ensures LeavesOf([t]) == Leaves(t) && NodesOf([t]) == Nodes(t)
  {
    hide Leaves, Nodes;
    assert [t][..0] == [];
    assert LeavesOf([]) == [];
  }

  lemma CutRoot(root: Tree)
    ensures Cut(root, [root])
  {
    OneTree(root);
  }

  /** Replacing a subtree by its children keeps the cut. */
  lemma CutOpened(root: Tree, ts: seq<Tree>, i: nat)
    requires Cut(root, ts) && i < |ts| && ts[i].Inner? && 1 <= |ts[i].kids|
    ensures Cut(root, Opened(ts, i)) && NodesOf(Opened(ts, i)) < NodesOf(ts)
    ensures |Opened(ts, i)| == |ts| - 1 + |ts[i].kids|
  {
    hide Leaves, Nodes, LeavesOf, NodesOf;
    assert ts == ts[..i] + [ts[i]] + ts[i + 1..];
    LeavesConcat(ts[..i] + [ts[i]], ts[i + 1..]);
    LeavesConcat(ts[..i], [ts[i]]);
    LeavesConcat(ts[..i] + ts[i + 1..], ts[i].kids);
    LeavesConcat(ts[..i], ts[i + 1..]);
    OneTree(ts[i]);
    InnerParts(ts[i]);
  }

  lemma InnerParts(t: Tree)
    requires t.Inner?
    ensures Leaves(t) == LeavesOf(t.kids) && Nodes(t) == 1 + NodesOf(t.kids)
  {
  }

  // ----- a run of openings

  /** Subtree i, of largest and positive priority, is opened while there are
      fewer than wanted and room for six children. */
  ghost predicate OpensAt(prio: Tree -> real, wanted: nat, ts: seq<Tree>, i: nat, ts1: seq<Tree>) {
    && i < |ts| && ts[i].Inner? && 0.0 < prio(ts[i])
    && (forall j: nat :: j < |ts| ==> prio(ts[j]) <= prio(ts[i]))
    && |ts| < wanted && |ts| + NUM_CHILDREN - 1 <= MAX_SUBTREES
    && ts1 == Opened(ts, i)
  }

  ghost predicate Step(prio: Tree -> real, wanted: nat, ts: seq<Tree>, ts1: seq<Tree>) {
    exists i: nat :: OpensAt(prio, wanted, ts, i, ts1)
  }

  /** The cuts from the whole hierarchy on, one opening after the other. */
  ghost predicate Opening(prio: Tree -> real, wanted: nat, root: Tree, trace: seq<seq<Tree>>) {
    && trace != [] && trace[0] == [root]
    && forall k: nat :: k < |trace| - 1 ==> Step(prio, wanted, trace[k], trace[k + 1])
  }

  /** There are enough subtrees, no room for more, or none to open. */
  ghost predicate Complete(prio: Tree -> real, wanted: nat, ts: seq<Tree>) {
    || wanted <= |ts|
    || MAX_SUBTREES < |ts| + NUM_CHILDREN - 1
    || forall i: nat :: i < |ts| ==> prio(ts[i]) == 0.0
  }

  lemma OpeningNext(prio: Tree -> real, wanted: nat, root: Tree, trace: seq<seq<Tree>>, i: nat)
    requires Opening(prio, wanted, root, trace)
    requires var ts := trace[|trace| - 1]; i < |ts| && ts[i].Inner? && OpensAt(prio, wanted, ts, i, Opened(ts, i))
    ensures Opening(prio, wanted, root, trace + [Opened(trace[|trace| - 1], i)])
  {
    hide OpensAt;
    var t1 := trace + [Opened(trace[|trace| - 1], i)];
    forall k: nat | k < |t1| - 1
      ensures Step(prio, wanted, t1[k], t1[k + 1])
    {
      if k < |trace| - 1 {
        assert Step(prio, wanted, trace[k], trace[k + 1]);
      }
    }
  }

  /** Half the surface of the box of a node's children. */
  function NodeArea(n: Node): (a: real)
    ensures 0.0 <= a
  {
    if n.WellFormed() && Proper(n.Bounds()) then
      HalfAreaPositive(n.Bounds());
      HalfArea(n.Bounds())
    else 0.0
  }

  lemma HalfAreaPositive(b: Box)
    requires Proper(b)
    ensures 0.0 <= HalfArea(b)
  {
    var x, y, z := b.hi.x - b.lo.x, b.hi.y - b.lo.y, b.hi.z - b.lo.z;
    assert 0.0 <= x * (y + z) && 0.0 <= y * z;
  }

  // ----- the algorithm

  /** std::pop_heap: moves an item of largest priority to the end. */
  method PopHeap(heap: seq<Item>) returns (r: seq<Item>, i: nat)
    requires heap != []
    ensures i < |heap| && r == heap[..i] + heap[i + 1..] + [heap[i]]
    ensures forall j: nat :: j < |heap| ==> heap[j].priority <= heap[i].priority
  {
    i := 0;
    for j := 1 to |heap|
      invariant 0 <= i < j
      invariant forall k: nat :: k < j ==> heap[k].priority <= heap[i].priority
    {
      if heap[j].priority > heap[i].priority {
        i := j;
      }
    }
    r := heap[..i] + heap[i + 1..] + [heap[i]];
  }

  /** Every valid child of the node joins the heap. */
  method PushChildren(mem: array<Block>, addr: int, area: Node -> real, heap0: seq<Item>, ghost masks: Masks, ghost t: Tree)
    returns (heap: seq<Item>)
    requires Encodes(mem[..], masks, t) && t.Inner? && addr == t.addr
    ensures |heap| == |heap0| + |t.kids| && heap[..|heap0|] == heap0
    ensures Tracks(mem[..], masks, area, heap[|heap0|..], t.kids)
  {
    hide NodeAt, ListAt, Encodes, NodePriority, Priority;
    RootNode(mem[..], masks, t);
    var node := mem[addr].node;
    heap := heap0;
    for i := 0 to NUM_CHILDREN
      invariant |heap| == |heap0| + Min(i, |t.kids|) && heap[..|heap0|] == heap0
      invariant forall j: nat :: j < |heap| - |heap0| ==> ItemAt(mem[..], masks, area, heap[|heap0| + j], t.kids[j])
    {
      if node.ValidChild(i) {
        RootChild(mem[..], masks, t, i);
        ChildEncodes(mem[..], masks, t, i);
        var ref := ChildRef(node, addr, i);
        RootNode(mem[..], masks, t.kids[i]);
        IsPriority(mem[..], area, t.kids[i]);
        heap := heap + [Item(ref.addr, Priority(area, mem[ref.addr].node))];
      }
    }
  }

  lemma ChildEncodes(m: seq<Block>, masks: Masks, t: Tree, i: nat)
    requires Encodes(m, masks, t) && t.Inner? && i < |t.kids|
    ensures Encodes(m, masks, t.kids[i]) && RootKids(t)[i].addr == t.kids[i].addr
  {
    hide NodeAt, ListAt;
  }

  lemma IsPriority(m: seq<Block>, area: Node -> real, t: Tree)
    requires t.addr < |m| && m[t.addr].NodeBlock?
    ensures NodePriority(m, area, t) == Priority(area, m[t.addr].node)
  {
  }

  /** Priorities are not negative, and positive ones belong to inner nodes. */
  lemma PriorityFacts(m: seq<Block>, masks: Masks, area: Node -> real, t: Tree)
    requires Encodes(m, masks, t) && NonNegative(area)
    ensures 0.0 <= NodePriority(m, area, t) && (0.0 < NodePriority(m, area, t) ==> t.Inner? && 1 <= |t.kids| <= NUM_CHILDREN)
  {
    hide ListAt, MaskOf, AllPrims, ChildAt;
    RootNode(m, masks, t);
    assert m[t.addr].node.nodeType == RootType(t);
  }

  /** Popping an item pops its subtree. */
  lemma TracksPopped(m: seq<Block>, masks: Masks, area: Node -> real, heap: seq<Item>, ts: seq<Tree>, i: nat)
    requires Tracks(m, masks, area, heap, ts) && i < |heap|
    ensures Tracks(m, masks, area, heap[..i] + heap[i + 1..], ts[..i] + ts[i + 1..])
  {
    hide ItemAt;
    var h, u := heap[..i] + heap[i + 1..], ts[..i] + ts[i + 1..];
    forall j: nat | j < |h|
      ensures ItemAt(m, masks, area, h[j], u[j])
    {
      assert h[j] == heap[if j < i then j else j + 1] && u[j] == ts[if j < i then j else j + 1];
    }
  }

  lemma TracksConcat(m: seq<Block>, masks: Masks, area: Node -> real, h: seq<Item>, u: seq<Tree>, h1: seq<Item>, u1: seq<Tree>)
    requires Tracks(m, masks, area, h, u) && Tracks(m, masks, area, h1, u1)
    ensures Tracks(m, masks, area, h + h1, u + u1)
  {
    hide ItemAt;
  }

  /** The state of the loop. */
  ghost predicate Reached(m: seq<Block>, masks: Masks, area: Node -> real, wanted: nat, t: Tree, heap: seq<Item>, trace: seq<seq<Tree>>) {
    && Opening(Prio(m, area), wanted, t, trace)
    && Tracks(m, masks, area, heap, trace[|trace| - 1]) && Cut(t, trace[|trace| - 1])
    && 1 <= |heap| <= MAX_SUBTREES && |heap| <= wanted + NUM_CHILDREN - 2
  }

  lemma ReachedStart(m: seq<Block>, masks: Masks, area: Node -> real, wanted: nat, t: Tree)
    requires Encodes(m, masks, t) && 1 <= wanted
    ensures Reached(m, masks, area, wanted, t, [Item(t.addr, NodePriority(m, area, t))], [[t]])
  {
    hide Encodes, NodePriority, Leaves, LeavesOf;
    CutRoot(t);
  }

  /** Opening the popped item leads to the next state. */
  lemma ReachedNext(m: seq<Block>, masks: Masks, area: Node -> real, wanted: nat, t: Tree, heap: seq<Item>, trace: seq<seq<Tree>>,
                    i: nat, more: seq<Item>)
    requires Reached(m, masks, area, wanted, t, heap, trace) && NonNegative(area)
    requires i < |heap| < wanted && |heap| + NUM_CHILDREN - 1 <= MAX_SUBTREES && heap[i].priority != 0.0
    requires forall j: nat :: j < |heap| ==> heap[j].priority <= heap[i].priority
    ensures var ts := trace[|trace| - 1];
      && |ts| == |heap| && ts[i].Inner?
      && (Tracks(m, masks, area, more, ts[i].kids) ==>
            Reached(m, masks, area, wanted, t, heap[..i] + heap[i + 1..] + more, trace + [Opened(ts, i)]))
      && NodesOf(Opened(ts, i)) < NodesOf(ts)
  {
    hide Encodes, NodePriority, Leaves, LeavesOf, NodesOf, Cut, Opening, OpensAt;
    ReachedSize(m, masks, area, wanted, t, heap, trace);
    var ts := trace[|trace| - 1];
    var prio := Prio(m, area);
    assert ItemAt(m, masks, area, heap[i], ts[i]);
    PriorityFacts(m, masks, area, ts[i]);
    OpensNow(prio, wanted, ts, i, heap);
    OpeningNext(prio, wanted, t, trace, i);
    CutOpened(t, ts, i);
    if Tracks(m, masks, area, more, ts[i].kids) {
      TracksPopped(m, masks, area, heap, ts, i);
      TracksConcat(m, masks, area, heap[..i] + heap[i + 1..], ts[..i] + ts[i + 1..], more, ts[i].kids);
    }
  }

  lemma OpensNow(prio: Tree -> real, wanted: nat, ts: seq<Tree>, i: nat, heap: seq<Item>)
    requires |heap| == |ts| && i < |ts| && ts[i].Inner? && 0.0 < prio(ts[i])
    requires forall j: nat :: j < |ts| ==> heap[j].priority == prio(ts[j]) <= heap[i].priority
    requires |ts| < wanted && |ts| + NUM_CHILDREN - 1 <= MAX_SUBTREES
    ensures OpensAt(prio, wanted, ts, i, Opened(ts, i))
  {
  }

  /** When an item of largest priority has none, the run is complete. */
  lemma NothingToOpen(m: seq<Block>, masks: Masks, area: Node -> real, wanted: nat, t: Tree, heap: seq<Item>, trace: seq<seq<Tree>>, i: nat)
    requires Reached(m, masks, area, wanted, t, heap, trace) && NonNegative(area)
    requires i < |heap| && heap[i].priority == 0.0 && forall j: nat :: j < |heap| ==> heap[j].priority <= heap[i].priority
    ensures Complete(Prio(m, area), wanted, trace[|trace| - 1])
  {
    hide Encodes, NodePriority, Leaves, LeavesOf, Cut, Opening;
    ReachedSize(m, masks, area, wanted, t, heap, trace);
    var ts := trace[|trace| - 1];
    forall j: nat | j < |ts|
      ensures NodePriority(m, area, ts[j]) == 0.0
    {
      assert ItemAt(m, masks, area, heap[j], ts[j]);
      PriorityFacts(m, masks, area, ts[j]);
    }
  }

  /** Opens the nodes of largest area until there are enough of them. */
  method Open(mem: array<Block>, root: int, wanted: nat, area: Node -> real, ghost masks: Masks, ghost t: Tree)
    returns (heap: seq<Item>, ghost trace: seq<seq<Tree>>)
    requires Encodes(mem[..], masks, t) && root == t.addr
    requires 1 <= wanted <= MAX_SUBTREES && NonNegative(area)
    ensures Reached(mem[..], masks, area, wanted, t, heap, trace)
    ensures Complete(Prio(mem[..], area), wanted, trace[|trace| - 1])
    ensures 1 <= |heap| <= MAX_SUBTREES && |heap| <= wanted + NUM_CHILDREN - 2 && |heap| == |trace[|trace| - 1]|
    ensures forall i: nat :: i < |heap| ==> heap[i] == Item(trace[|trace| - 1][i].addr, NodePriority(mem[..], area, trace[|trace| - 1][i]))
  {
    hide Encodes, Reached, Complete, NodePriority, Priority, NonNegative, Tracks, NodesOf;
    ghost var m := mem[..];
    RootNode(m, masks, t);
    IsPriority(m, area, t);
    heap, trace := [Item(root, Priority(area, mem[root].node))], [[t]];
    ReachedStart(m, masks, area, wanted, t);
    while |heap| + (NUM_CHILDREN - 1) <= MAX_SUBTREES
      invariant Reached(m, masks, area, wanted, t, heap, trace) && trace != [] && heap != []
      decreases NodesOf(trace[|trace| - 1])
    {
      ReachedSize(m, masks, area, wanted, t, heap, trace);
      if |heap| >= wanted {
        CompleteIf(Prio(m, area), wanted, trace[|trace| - 1]);
        ReachedHeap(m, masks, area, wanted, t, heap, trace);
        return;
      }
      var popped, i := PopHeap(heap);
      var top := popped[|popped| - 1];
      if top.priority == 0.0 {
        NothingToOpen(m, masks, area, wanted, t, heap, trace, i);
        ReachedHeap(m, masks, area, wanted, t, heap, trace);
        return;
      }
      ghost var ts := trace[|trace| - 1];
      ReachedNext(m, masks, area, wanted, t, heap, trace, i, []);
      ReachedItem(m, masks, area, wanted, t, heap, trace, i);
      var rest := popped[..|popped| - 1];
      var next := PushChildren(mem, top.node, area, rest, masks, ts[i]);
      ReachedNext(m, masks, area, wanted, t, heap, trace, i, next[|rest|..]);
      assert next == rest + next[|rest|..];
      heap, trace := next, trace + [Opened(ts, i)];
      ReachedSize(m, masks, area, wanted, t, heap, trace);
    }
    ReachedSize(m, masks, area, wanted, t, heap, trace);
    CompleteIf(Prio(m, area), wanted, trace[|trace| - 1]);
    ReachedHeap(m, masks, area, wanted, t, heap, trace);
  }

  lemma ReachedHeap(m: seq<Block>, masks: Masks, area: Node -> real, wanted: nat, t: Tree, heap: seq<Item>, trace: seq<seq<Tree>>)
    requires Reached(m, masks, area, wanted, t, heap, trace)
    ensures 1 <= |heap| <= MAX_SUBTREES && |heap| <= wanted + NUM_CHILDREN - 2
    ensures trace != [] && |heap| == |trace[|trace| - 1]|
    ensures forall i: nat :: i < |heap| ==> heap[i] == Item(trace[|trace| - 1][i].addr, NodePriority(m, area, trace[|trace| - 1][i]))
  {
    hide Encodes, NodePriority;
    var ts := trace[|trace| - 1];
    forall i: nat | i < |heap|
      ensures heap[i] == Item(ts[i].addr, NodePriority(m, area, ts[i]))
    {
      assert ItemAt(m, masks, area, heap[i], ts[i]);
    }
  }

  lemma ReachedSize(m: seq<Block>, masks: Masks, area: Node -> real, wanted: nat, t: Tree, heap: seq<Item>, trace: seq<seq<Tree>>)
    requires Reached(m, masks, area, wanted, t, heap, trace)
    ensures trace != [] && |trace[|trace| - 1]| == |heap| && heap != []
  {
  }

  lemma CompleteIf(prio: Tree -> real, wanted: nat, ts: seq<Tree>)
    requires wanted <= |ts| || MAX_SUBTREES < |ts| + NUM_CHILDREN - 1
    ensures Complete(prio, wanted, ts)
  {
  }

  lemma ReachedItem(m: seq<Block>, masks: Masks, area: Node -> real, wanted: nat, t: Tree, heap: seq<Item>, trace: seq<seq<Tree>>, i: nat)
    requires Reached(m, masks, area, wanted, t, heap, trace) && i < |heap|
    ensures trace != [] && |trace[|trace| - 1]| == |heap|
    ensures Encodes(m, masks, trace[|trace| - 1][i]) && heap[i].node == trace[|trace| - 1][i].addr
  {
    hide Encodes;
    assert ItemAt(m, masks, area, heap[i], trace[|trace| - 1][i]);
  }

  // ----- the references

  /** A complete run on a stored hierarchy. */
  ghost predicate RunOn(m: seq<Block>, masks: Masks, area: Node -> real, wanted: nat, t: Tree, trace: seq<seq<Tree>>)
    ensures RunOn(m, masks, area, wanted, t, trace) ==> trace != []
  {
    && Encodes(m, masks, t) && NonNegative(area) && Opening(Prio(m, area), wanted, t, trace)
    && Complete(Prio(m, area), wanted, trace[|trace| - 1])
  }

  /** A stored hierarchy, and how an instance places it in the scene. */
  datatype Instanced = Instanced(mem: seq<Block>, masks: Masks, t: Tree, local2world: Affine)

  /** The reference has the transformed box of the subtree's root; the distance
      from the root of the hierarchy stands for the primitive number. */
  ghost predicate StandsFor(x: Instanced, prim: PrimRef, t: Tree, part: PrimRef) {
    && t.addr < |x.mem| && x.mem[t.addr].NodeBlock? && x.mem[t.addr].node.WellFormed()
    && part == PrimRef(XfmBounds(x.local2world, x.mem[t.addr].node.Bounds()), prim.geomID, t.addr - x.t.addr)
  }

  ghost predicate OpensAlong(x: Instanced, prim: PrimRef, wanted: nat, trace: seq<seq<Tree>>, parts: seq<PrimRef>) {
    && RunOn(x.mem, x.masks, NodeArea, wanted, x.t, trace) && |parts| == |trace[|trace| - 1]|
    && forall i: nat :: i < |parts| ==> StandsFor(x, prim, trace[|trace| - 1][i], parts[i])
  }

  /** The references are those of the last cut of a complete run. */
  ghost predicate Opens(x: Instanced, prim: PrimRef, wanted: nat, parts: seq<PrimRef>) {
    exists trace: seq<seq<Tree>> :: OpensAlong(x, prim, wanted, trace, parts)
  }

  method OpenReference(mem: array<Block>, prim: PrimRef, root: int, wanted: nat, local2world: Affine, ghost masks: Masks, ghost t: Tree)
    returns (subPrims: seq<PrimRef>)
    requires Encodes(mem[..], masks, t) && root == t.addr
    requires 1 <= wanted <= MAX_SUBTREES
    ensures Opens(Instanced(mem[..], masks, t, local2world), prim, wanted, subPrims)
  {
    hide Encodes, Complete, Reached, Opening, NodeArea;
    ghost var x := Instanced(mem[..], masks, t, local2world);
    var items; ghost var trace;
    items, trace := Open(mem, root, wanted, NodeArea, masks, t);
    RunFrom(mem[..], masks, NodeArea, wanted, t, items, trace);
    subPrims := [];
    ghost var ts := trace[|trace| - 1];
    for i := 0 to |items|
      invariant |subPrims| == i
      invariant forall j: nat :: j < i ==> StandsFor(x, prim, ts[j], subPrims[j])
    {
      ReachedItem(mem[..], masks, NodeArea, wanted, t, items, trace, i);
      RootNode(mem[..], masks, ts[i]);
      var node := items[i].node;
      subPrims := subPrims + [PrimRef(XfmBounds(local2world, mem[node].node.Bounds()), prim.geomID, node - root)];
    }
    assert OpensAlong(x, prim, wanted, trace, subPrims);
  }

  lemma RunFrom(m: seq<Block>, masks: Masks, area: Node -> real, wanted: nat, t: Tree, heap: seq<Item>, trace: seq<seq<Tree>>)
    requires Encodes(m, masks, t) && NonNegative(area) && Reached(m, masks, area, wanted, t, heap, trace)
    requires Complete(Prio(m, area), wanted, trace[|trace| - 1])
    ensures RunOn(m, masks, area, wanted, t, trace)
  {
    hide Encodes, Complete;
  }
}
