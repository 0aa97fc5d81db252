/** What a finished subtree has to be, and how a parent gets there one child at
    a time, in any order (rtbuild/qbvh6_builder_sah.h:751-764, 822-862). */
module Subtrees {
  import opened Common
  import opened Geometry
  import opened PrimLeafDesc
  import opened QNode
  import opened Bvh
  import opened Partition
  import opened Records
  import opened Depth
  import opened Children

  /** What a finished child reports to its parent. */
  datatype Value = Value(mask: bv8, blocks: nat)

  // ----- sizes of trees

  /** Blocks of the leaf lists; neighbouring procedurals may share a block. */
  function LeafBlocks(ty: PType, lists: seq<Kid>): nat {
    if lists == [] then 0 else
      var n := |lists| - 1;
      var shared := ty == Procedural && 0 < n && lists[n].addr == lists[n - 1].addr;
      LeafBlocks(ty, lists[..n]) + if shared then 0 else ListBlocks(ty, lists[n])
  }

  /** Blocks of a tree without its root node. */
  function Blocks(t: Tree): nat
    decreases t, 1
  {
    match t
    case Inner(_, kids) => |kids| + BlocksOf(kids)
    case Fat(_, ty, lists) => LeafBlocks(ty, lists)
  }

  function BlocksOf(ts: seq<Tree>): nat
    decreases ts, 0
  {
    if ts == [] then 0 else BlocksOf(ts[..|ts| - 1]) + Blocks(ts[|ts| - 1])
  }

  lemma {:induction false} BlocksUpdate(ts: seq<Tree>, i: nat, t: Tree)
    requires i < |ts|
    ensures BlocksOf(ts[i := t]) == BlocksOf(ts) - Blocks(ts[i]) + Blocks(t)
  {
    hide Blocks;
    var n := |ts| - 1;
    if i == n {
      assert ts[i := t][..n] == ts[..n];
    } else {
      BlocksUpdate(ts[..n], i, t);
      assert ts[i := t][..n] == ts[..n][i := t];
    }
  }

  /** Most blocks a reference takes in a leaf. */
  function PerRef(sc: Scene): nat {
    match sc.only
    case None => 2
    case Some(ty) => if ty == Instance then 2 else 1
  }

  /** Five times the nodes a reference may cost: 6/5, or 8/5 with mixed types. */
  function NodeRate(sc: Scene): nat {
    if sc.only.Some? then 6 else 8
  }

  /** The tree is small for the number of its references. */
  predicate Small(sc: Scene, t: Tree) {
    && 5 * Nodes(t) + 1 <= NodeRate(sc) * |Leaves(t)|
    && Blocks(t) <= Nodes(t) - 1 + PerRef(sc) * |Leaves(t)|
  }

  /** Five times the blocks that are certainly enough below the node of a record. */
  function Need(sc: Scene, r: Record): int {
    5 * PerRef(sc) * r.Size() + if LeafRecord(r) then 0 else NodeRate(sc) * r.Size() - 6
  }

  // ----- a finished subtree

  /** The blocks from lo to hi and the one at addr hold a tree over exactly the
      references of the record. */
  ghost predicate Stored(sc: Scene, s: seq<PrimRef>, m: seq<Block>, r: Record, addr: nat, lo: nat, hi: nat, t: Tree, mask: bv8)
  {
    && t.addr == addr && Encodes(m, sc.masks, t) && Within(t, lo, hi) && Typed(sc.typeOf, t)
    && multiset(Leaves(t)) == multiset(Slice(s, r)) && mask == MaskOf(sc.masks, Leaves(t))
    && Small(sc, t) && (LeafRecord(r) ==> Nodes(t) == 1)
  }

  /** Memory below lo is unchanged apart from the block at addr. */
  ghost predicate Kept(m: seq<Block>, m1: seq<Block>, addr: nat, lo: nat) {
    |m1| == |m| && forall a: nat :: a < lo && a < |m| && a != addr ==> m1[a] == m[a]
  }

  lemma StoredNeed(sc: Scene, s: seq<PrimRef>, m: seq<Block>, r: Record, addr: nat, lo: nat, hi: nat, t: Tree, mask: bv8)
    requires Stored(sc, s, m, r, addr, lo, hi, t, mask) && r.begin < r.end <= |s|
    ensures 5 * Blocks(t) <= Need(sc, r)
  {
    hide Encodes, Within, Typed, MaskOf, Blocks, Nodes, Leaves, Small, Need, LeafRecord;
    assert |Leaves(t)| == |multiset(Leaves(t))| == |multiset(Slice(s, r))| == |Slice(s, r)| == r.Size();
    SmallNeed(sc, r, t);
  }

  lemma SmallNeed(sc: Scene, r: Record, t: Tree)
    requires Small(sc, t) && |Leaves(t)| == r.Size() && (LeafRecord(r) ==> Nodes(t) == 1)
    ensures 5 * Blocks(t) <= Need(sc, r)
  {
    hide Blocks, Nodes, Leaves, LeafRecord, PerRef, NodeRate;
    assert 5 * (PerRef(sc) * r.Size()) == 5 * PerRef(sc) * r.Size();
  }

  /** A finished subtree survives work on other records and other blocks. */
  lemma StoredFrame(sc: Scene, s: seq<PrimRef>, s1: seq<PrimRef>, m: seq<Block>, m1: seq<Block>, r: Record, addr: nat,
                    lo: nat, hi: nat, hi1: nat, t: Tree, mask: bv8, other: nat)
    requires Stored(sc, s, m, r, addr, lo, hi, t, mask) && Slice(s1, r) == Slice(s, r)
    requires Kept(m, m1, other, hi) && addr != other && addr < hi <= |m| && hi <= hi1
    requires other < lo
    ensures Stored(sc, s1, m1, r, addr, lo, hi1, t, mask)
  {
    hide Encodes, Within, Typed, MaskOf, Small, Nodes, Leaves;
    EncodesFrame(m, m1, sc.masks, t, lo, hi);
    WithinMono(t, lo, hi, lo, hi1);
  }

  // ----- progress over the children of a node

  /** Stands for a subtree that is not built yet. */
  const Unbuilt: Tree := Fat(0, Triangle, [])

  /** The children that are no longer pending are finished; they lie in the
      blocks from base on, and everything below them between lo and hi. */
  ghost predicate Progress(sc: Scene, s: seq<PrimRef>, m: seq<Block>, cs: seq<Record>, ts: seq<Tree>, vs: seq<Value>,
                           pending: set<nat>, base: nat, lo: nat, hi: nat)
  {
    && |ts| == |vs| == |cs|
    && forall i: nat :: i < |cs| ==> ChildState(sc, s, m, cs[i], ts[i], vs[i], i in pending, base + i, lo, hi)
  }

  ghost predicate ChildState(sc: Scene, s: seq<PrimRef>, m: seq<Block>, c: Record, t: Tree, v: Value, open: bool, addr: nat,
                             lo: nat, hi: nat)
  {
    if open then t == Unbuilt else v.blocks == 1 && Stored(sc, s, m, c, addr, lo, hi, t, v.mask)
  }

  lemma ProgressStep(sc: Scene, s: seq<PrimRef>, s1: seq<PrimRef>, m: seq<Block>, m1: seq<Block>, b: nat, e: nat,
                     cs: seq<Record>, ts: seq<Tree>, vs: seq<Value>, pending: set<nat>, base: nat, lo: nat, hi: nat, hi1: nat,
                     u: nat, t: Tree, v: Value)
    requires Progress(sc, s, m, cs, ts, vs, pending, base, lo, hi) && u < |cs| && base + |cs| <= lo <= hi <= hi1 && hi <= |m|
    requires Family(s, b, e, cs) && PermutesRange(s, s1, cs[u].begin, cs[u].end)
    requires Kept(m, m1, base + u, hi) && Stored(sc, s1, m1, cs[u], base + u, hi, hi1, t, v.mask) && v.blocks == 1
    ensures Progress(sc, s1, m1, cs, ts[u := t], vs[u := v], pending - {u}, base, lo, hi1)
  {
    hide Stored, Kept, Family, PermutesRange, Slice;
    FamilyPermute(s, s1, b, e, cs, u);
    StoredWiden(sc, s1, m1, cs[u], base + u, hi, hi1, lo, t, v.mask);
    forall i: nat | i < |cs| && i != u && i !in pending
      ensures Stored(sc, s1, m1, cs[i], base + i, lo, hi1, ts[i], vs[i].mask)
    {
      assert ChildState(sc, s, m, cs[i], ts[i], vs[i], i in pending, base + i, lo, hi);
      StoredFrame(sc, s, s1, m, m1, cs[i], base + i, lo, hi, hi1, ts[i], vs[i].mask, base + u);
    }
    forall i: nat | i < |cs|
      ensures ChildState(sc, s1, m1, cs[i], ts[u := t][i], vs[u := v][i], i in pending - {u}, base + i, lo, hi1)
    {
      assert ChildState(sc, s, m, cs[i], ts[i], vs[i], i in pending, base + i, lo, hi);
    }
  }

  lemma StoredWiden(sc: Scene, s: seq<PrimRef>, m: seq<Block>, r: Record, addr: nat, lo: nat, hi: nat, lo1: nat, t: Tree, mask: bv8)
    requires Stored(sc, s, m, r, addr, lo, hi, t, mask) && lo1 <= lo
    ensures Stored(sc, s, m, r, addr, lo1, hi, t, mask)
  {
    hide Encodes, Within, Typed, MaskOf, Small, Nodes, Leaves;
    WithinMono(t, lo, hi, lo1, hi);
  }

  // ----- the memory budget

  /** What the pending children may still need. */
  function Needs(sc: Scene, cs: seq<Record>): (r: seq<int>)
    ensures |r| == |cs| && forall i: nat :: i < |cs| ==> r[i] == Need(sc, cs[i])
  {
    seq(|cs|, i requires 0 <= i < |cs| => Need(sc, cs[i]))
  }

  /** left holds the needs of the pending children; with the blocks used so far
      they stay within the needs of all. */
  ghost predicate Budget(sc: Scene, cs: seq<Record>, ts: seq<Tree>, left: seq<int>, pending: set<nat>) {
    && |ts| == |left| == |cs|
    && (forall i: nat :: i < |cs| ==> left[i] == if i in pending then Need(sc, cs[i]) else 0)
    && (forall i: nat :: i < |cs| ==> 0 <= left[i])
    && (forall i: nat :: i < |cs| && i in pending ==> ts[i] == Unbuilt)
    && 5 * BlocksOf(ts) + Sum(left) <= Sum(Needs(sc, cs))
  }

  lemma {:induction false} SumOne(s: seq<int>, i: nat)
    requires i < |s| && forall k: nat :: k < |s| ==> 0 <= s[k]
    ensures 0 <= s[i] <= Sum(s)
  {
    var n := |s| - 1;
    if i < n {
      SumOne(s[..n], i);
    } else if 0 < n {
      SumOne(s[..n], 0);
    }
  }

  lemma BudgetStep(sc: Scene, cs: seq<Record>, ts: seq<Tree>, left: seq<int>, pending: set<nat>, u: nat, t: Tree)
    requires Budget(sc, cs, ts, left, pending) && u < |cs| && u in pending && 5 * Blocks(t) <= Need(sc, cs[u])
    ensures Budget(sc, cs, ts[u := t], left[u := 0], pending - {u})
    ensures BlocksOf(ts[u := t]) == BlocksOf(ts) + Blocks(t)
  {
    hide Need, Needs, Sum, BlocksOf;
    BlocksUpdate(ts, u, t);
    SumUpdate(left, u, 0);
  }

  lemma BudgetLeft(sc: Scene, cs: seq<Record>, ts: seq<Tree>, left: seq<int>, pending: set<nat>, u: nat)
    requires Budget(sc, cs, ts, left, pending) && u < |cs| && u in pending
    ensures 5 * BlocksOf(ts) + Need(sc, cs[u]) <= Sum(Needs(sc, cs))
  {
    hide Need, Needs, Sum, BlocksOf;
    SumOne(left, u);
  }

  lemma {:induction false} UnbuiltBlocks(ts: seq<Tree>)
    requires forall i: nat :: i < |ts| ==> ts[i] == Unbuilt
    ensures BlocksOf(ts) == 0
  {
    if ts != [] {
      UnbuiltBlocks(ts[..|ts| - 1]);
    }
  }

  lemma BudgetNone(sc: Scene, cs: seq<Record>, ts: seq<Tree>, pending: set<nat>)
    requires |ts| == |cs| && forall i: nat :: i < |cs| ==> ts[i] == Unbuilt && i in pending
    requires forall i: nat :: i < |cs| ==> 1 <= cs[i].Size()
    ensures Budget(sc, cs, ts, Needs(sc, cs), pending)
  {
    UnbuiltBlocks(ts);
    forall i: nat | i < |cs|
      ensures 0 <= Need(sc, cs[i])
    {
      NeedPositive(sc, cs[i]);
    }
  }

  lemma NeedPositive(sc: Scene, r: Record)
    requires 1 <= r.Size()
    ensures 0 <= Need(sc, r)
  {
    MulMono(1, r.Size(), NodeRate(sc));
  }

  lemma NeedLimits(sc: Scene, r: Record)
    requires 1 <= r.Size()
    ensures Need(sc, r) <= 5 * PerRef(sc) * r.Size() + NodeRate(sc) * r.Size() - 6
    ensures LeafRecord(r) ==> Need(sc, r) == 5 * PerRef(sc) * r.Size()
  {
    hide LeafRecord;
    MulMono(1, r.Size(), NodeRate(sc));
  }

  lemma {:induction false} NeedsSum(sc: Scene, s: seq<PrimRef>, cs: seq<Record>)
    requires forall i: nat :: i < |cs| ==> cs[i].begin < cs[i].end <= |s|
    ensures Sum(Needs(sc, cs)) <= 5 * PerRef(sc) * |Gather(s, cs)| + NodeRate(sc) * |Gather(s, cs)| - 6 * |cs|
    ensures (forall i: nat :: i < |cs| ==> LeafRecord(cs[i])) ==> Sum(Needs(sc, cs)) == 5 * PerRef(sc) * |Gather(s, cs)|
  {
    hide LeafRecord, Need, PerRef, NodeRate, Slice;
    if cs != [] {
      var n := |cs| - 1;
      NeedsSum(sc, s, cs[..n]);
      assert Needs(sc, cs)[..n] == Needs(sc, cs[..n]);
      NeedLimits(sc, cs[n]);
      SumsAdd(5 * PerRef(sc), NodeRate(sc), |Gather(s, cs[..n])|, cs[n].Size(), Sum(Needs(sc, cs[..n])), Need(sc, cs[n]), n);
    }
  }

  lemma SumsAdd(p: int, c: int, g: int, x: int, sum: int, need: int, k: int)
    ensures sum <= p * g + c * g - 6 * k && need <= p * x + c * x - 6 ==>
              sum + need <= p * (g + x) + c * (g + x) - 6 * (k + 1)
    ensures sum == p * g && need == p * x ==> sum + need == p * (g + x)
  {
    Distribute(p, g, x);
    Distribute(c, g, x);
  }

  lemma Distribute(a: int, x: int, y: int)
    ensures a * (x + y) == a * x + a * y
  {
  }

  /** The child nodes and all that the children need fit into the need of the
      record. */
  lemma NeedCoversChildren(sc: Scene, s: seq<PrimRef>, r: Record, cs: seq<Record>)
    requires Family(s, r.begin, r.end, cs) && Worthwhile(sc, r, cs) && !LeafRecord(r)
    requires r.begin < r.end
    ensures 5 * |cs| + Sum(Needs(sc, cs)) <= Need(sc, r)
  {
    hide LeafRecord, Gather, Sum, Needs;
    assert |multiset(Gather(s, cs))| == |multiset(s[r.begin..r.end])| == r.Size();
    NeedsSum(sc, s, cs);
  }
}
