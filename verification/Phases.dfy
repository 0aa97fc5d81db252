/** What a call that builds a subtree leaves behind, and how the calls for the
    children of a node add up (rtbuild/qbvh6_builder_sah.h:720-862). */
module Phases {
  import opened Common
  import opened Geometry
  import opened PrimLeafDesc
  import opened QNode
  import opened Bvh
  import opened Hulls
  import opened Partition
  import opened NodeWriter
  import opened Records
  import opened Depth
  import opened Children
  import opened Decisions
  import opened Subtrees
  import opened LeafWriter

  /** A valid node with its mask, a null pointer, or one of the exceptions "BVH
      too deep" and "too large geometry ID". */
  datatype Outcome = Done(mask: bv8) | OutOfMemory | TooDeep | BadGeometry

  /** References, node memory and allocator position. */
  datatype State = State(s: seq<PrimRef>, m: seq<Block>, cur: nat)

  /** After the build of the record: the allocated blocks are exactly those of
      the tree; when memory ran out it was less than the record may need. */
  ghost predicate Outcomes(sc: Scene, v0: State, v: State, end: nat, r: Record, addr: nat, out: Outcome, t: Tree) {
    && PermutesRange(v0.s, v.s, r.begin, r.end)
    && Kept(v0.m, v.m, addr, v0.cur / 64)
    && v0.cur <= v.cur && v.cur % 64 == 0
    && (out.Done? ==> Built(sc, v0, v, end, r, addr, out.mask, t))
    && (out.OutOfMemory? ==> 5 * end <= 5 * v0.cur + 64 * Need(sc, r))
    && (out.BadGeometry? ==> Unstorable(sc, Slice(v0.s, r)))
  }

  ghost predicate Built(sc: Scene, v0: State, v: State, end: nat, r: Record, addr: nat, mask: bv8, t: Tree) {
    && v0.cur < v.cur < end && v.cur == v0.cur + 64 * Blocks(t)
    && Stored(sc, v.s, v.m, r, addr, v0.cur / 64, v.cur / 64, t, mask)
  }

  ghost predicate KeptBelow(m: seq<Block>, m1: seq<Block>, base: nat) {
    |m1| == |m| && forall a: nat :: a < base && a < |m| ==> m1[a] == m[a]
  }

  /** What stays true of a node's range and memory whatever its children do. */
  ghost predicate Sound(sc: Scene, v0: State, v: State, r: Record, cs: seq<Record>, base: nat) {
    && Group(sc, v.s, r.begin, r.end, cs) && PermutesRange(v0.s, v.s, r.begin, r.end)
    && KeptBelow(v0.m, v.m, base) && v0.cur <= v.cur && v.cur % 64 == 0 && base <= v0.cur / 64
  }

  /** The children that are not pending are built. */
  ghost predicate Running(sc: Scene, v0: State, v: State, end: nat, cs: seq<Record>, vs: seq<Value>, ts: seq<Tree>, left: seq<int>,
                          pending: set<nat>, base: nat)
  {
    && v.cur == v0.cur + 64 * BlocksOf(ts) && v.cur < end <= 64 * |v.m| && v0.cur == 64 * (base + |cs|)
    && Progress(sc, v.s, v.m, cs, ts, vs, pending, base, v0.cur / 64, v.cur / 64)
    && Budget(sc, cs, ts, left, pending)
  }

  lemma Starts(sc: Scene, v0: State, end: nat, r: Record, cs: seq<Record>, vs: seq<Value>, ts: seq<Tree>, pending: set<nat>, base: nat)
    requires Group(sc, v0.s, r.begin, r.end, cs) && v0.cur == 64 * (base + |cs|) && v0.cur < end <= 64 * |v0.m|
    requires |vs| == |ts| == |cs| && forall i: nat :: i < |cs| ==> ts[i] == Unbuilt && i in pending
    ensures Sound(sc, v0, v0, r, cs, base) && Running(sc, v0, v0, end, cs, vs, ts, Needs(sc, cs), pending, base)
  {
    hide Group, Budget, Progress, BlocksOf, Need, Needs, ValidRecord, PermutesRange, KeptBelow;
    Aligned(v0.cur, base + |cs|);
    GroupFacts(sc, v0.s, r, cs);
    KeptSelf(v0.m, base);
    BudgetNone(sc, cs, ts, pending);
    UnbuiltBlocks(ts);
    ProgressNone(sc, v0.s, v0.m, cs, vs, ts, pending, base, v0.cur / 64);
    GroupRange(sc, v0.s, r, cs);
    PermutesSelf(v0.s, r.begin, r.end);
  }

  lemma Aligned(c: nat, x: nat)
    requires c == 64 * x
    ensures c / 64 == x && c % 64 == 0
  {
  }

  lemma KeptSelf(m: seq<Block>, base: nat)
    ensures KeptBelow(m, m, base)
  {
  }

  lemma GroupRange(sc: Scene, s: seq<PrimRef>, r: Record, cs: seq<Record>)
    requires Group(sc, s, r.begin, r.end, cs)
    ensures r.begin <= r.end <= |s|
  {
  }

  lemma ProgressNone(sc: Scene, s: seq<PrimRef>, m: seq<Block>, cs: seq<Record>, vs: seq<Value>, ts: seq<Tree>, pending: set<nat>,
                     base: nat, lo: nat)
    requires |vs| == |ts| == |cs| && forall i: nat :: i < |cs| ==> ts[i] == Unbuilt && i in pending
    ensures Progress(sc, s, m, cs, ts, vs, pending, base, lo, lo)
  {
    hide Stored;
  }

  lemma SoundChild(sc: Scene, v0: State, v: State, r: Record, cs: seq<Record>, base: nat, u: nat)
    requires Sound(sc, v0, v, r, cs, base) && u < |cs|
    ensures ValidRecord(sc, v.s, cs[u]) && r.begin <= cs[u].begin < cs[u].end <= r.end <= |v.s|
    ensures v0.cur <= v.cur && v.cur % 64 == 0
  {
    hide ValidRecord, PermutesRange;
    GroupMember(sc, v.s, r.begin, r.end, cs, u);
  }

  lemma GroupPermute(sc: Scene, s: seq<PrimRef>, t: seq<PrimRef>, b: nat, e: nat, cs: seq<Record>, u: nat)
    requires Group(sc, s, b, e, cs) && u < |cs| && PermutesRange(s, t, cs[u].begin, cs[u].end)
    ensures Group(sc, t, b, e, cs) && PermutesRange(s, t, b, e)
  {
    hide Family, PermutesRange, ValidRecord, Slice;
    FamilyPermute(s, t, b, e, cs, u);
    PermutesLength(s, t, b, e);
    forall j: nat | j < |cs|
      ensures ValidRecord(sc, t, cs[j])
    {
      if j == u {
        ValidPermute(sc, s, t, cs[u]);
      } else {
        ValidFrame(sc, s, t, cs[j]);
      }
    }
  }

  lemma SoundStep(sc: Scene, v0: State, v: State, v1: State, end: nat, r: Record, cs: seq<Record>, base: nat, u: nat, out: Outcome,
                  t: Tree)
    requires Sound(sc, v0, v, r, cs, base) && u < |cs|
    requires Outcomes(sc, v, v1, end, cs[u], base + u, out, t)
    ensures Sound(sc, v0, v1, r, cs, base)
  {
    hide Group, PermutesRange, Stored, Blocks, Need;
    GroupPermute(sc, v.s, v1.s, r.begin, r.end, cs, u);
    PermutesTrans(v0.s, v.s, v1.s, r.begin, r.end, r.begin, r.end);
  }

  lemma RunningStep(sc: Scene, v0: State, v: State, v1: State, end: nat, r: Record, cs: seq<Record>, vs: seq<Value>, ts: seq<Tree>,
                    left: seq<int>, pending: set<nat>, base: nat, u: nat, mask: bv8, t: Tree)
    requires Sound(sc, v0, v, r, cs, base) && Running(sc, v0, v, end, cs, vs, ts, left, pending, base)
    requires u < |cs| && u in pending && Outcomes(sc, v, v1, end, cs[u], base + u, Done(mask), t)
    ensures |vs| == |ts| == |left| == |cs|
    ensures Running(sc, v0, v1, end, cs, vs[u := Value(mask, 1)], ts[u := t], left[u := 0], pending - {u}, base)
  {
    hide PermutesRange, Stored, Blocks, Need, Progress, Budget, ValidRecord, Kept, KeptBelow;
    RunningLengths(sc, v0, v, end, cs, vs, ts, left, pending, base);
    GroupMember(sc, v.s, r.begin, r.end, cs, u);
    PermutesLength(v.s, v1.s, cs[u].begin, cs[u].end);
    StoredNeed(sc, v1.s, v1.m, cs[u], base + u, v.cur / 64, v1.cur / 64, t, mask);
    BudgetStep(sc, cs, ts, left, pending, u, t);
    KeptLength(v.m, v1.m, base + u, v.cur / 64);
    ProgressStep(sc, v.s, v1.s, v.m, v1.m, r.begin, r.end, cs, ts, vs, pending, base, v0.cur / 64, v.cur / 64, v1.cur / 64,
                 u, t, Value(mask, 1));
  }

  lemma KeptLength(m: seq<Block>, m1: seq<Block>, addr: nat, lo: nat)
    requires Kept(m, m1, addr, lo)
    ensures |m1| == |m|
  {
  }

  lemma RunningLengths(sc: Scene, v0: State, v: State, end: nat, cs: seq<Record>, vs: seq<Value>, ts: seq<Tree>,
                       left: seq<int>, pending: set<nat>, base: nat)
    requires Running(sc, v0, v, end, cs, vs, ts, left, pending, base)
    ensures |vs| == |ts| == |left| == |cs| && v.cur < end <= 64 * |v.m| && v0.cur == 64 * (base + |cs|) && v0.cur <= v.cur
  {
  }

  /** A child that ran out of memory: the children together may need more. */
  lemma RunningFails(sc: Scene, v0: State, v: State, v1: State, end: nat, cs: seq<Record>, vs: seq<Value>, ts: seq<Tree>,
                     left: seq<int>, pending: set<nat>, base: nat, u: nat, t: Tree)
    requires Running(sc, v0, v, end, cs, vs, ts, left, pending, base)
    requires u < |cs| && u in pending && Outcomes(sc, v, v1, end, cs[u], base + u, OutOfMemory, t)
    ensures 5 * end <= 5 * v0.cur + 64 * Sum(Needs(sc, cs))
  {
    hide PermutesRange, Stored, Blocks, Need, Progress, Budget, Kept, Sum, Needs;
    BudgetLeft(sc, cs, ts, left, pending, u);
  }

  /** A child with a reference that no leaf admits: so has the record. */
  lemma RecordUnstorable(sc: Scene, v0: State, v: State, v1: State, end: nat, r: Record, cs: seq<Record>, base: nat, u: nat, t: Tree)
    requires Sound(sc, v0, v, r, cs, base) && u < |cs| && Outcomes(sc, v, v1, end, cs[u], base + u, BadGeometry, t)
    ensures Unstorable(sc, Slice(v1.s, r))
  {
    hide PermutesRange, Unstorable, Slice, Group, Need;
    forall p | p in Slice(v.s, cs[u])
      ensures p in Slice(v.s, r)
    {
      PartInside(sc, v.s, r, cs, u, p);
    }
    UnstorableIn(sc, Slice(v.s, cs[u]), Slice(v.s, r));
    GroupPermute(sc, v.s, v1.s, r.begin, r.end, cs, u);
    PermutesUnstorable(sc, v.s, v1.s, r);
  }

  lemma PermutesUnstorable(sc: Scene, s: seq<PrimRef>, t: seq<PrimRef>, r: Record)
    requires PermutesRange(s, t, r.begin, r.end)
    ensures Unstorable(sc, Slice(s, r)) <==> Unstorable(sc, Slice(t, r))
  {
    hide Unstorable, PermutesRange;
    PermutesLength(s, t, r.begin, r.end);
    if r.begin <= r.end <= |s| {
      PermutesSlice(s, t, r.begin, r.end);
      if Unstorable(sc, Slice(s, r)) {
        UnstorablePermute(sc, Slice(s, r), Slice(t, r));
      }
      if Unstorable(sc, Slice(t, r)) {
        UnstorablePermute(sc, Slice(t, r), Slice(s, r));
      }
    }
  }

  // ----- what the children are

  /** What a built subtree is for its record and its references. */
  type Verdict = (Record, seq<PrimRef>, Tree) -> bool

  ghost function AsLarge(): Verdict {
    (c: Record, p: seq<PrimRef>, t: Tree) => LargeDecided(Part(p, c.ty), t)
  }

  ghost function AsDecided(sc: Scene): Verdict {
    (c: Record, p: seq<PrimRef>, t: Tree) => Decided(sc, c.depth, Part(p, c.ty), t)
  }

  /** The children that are not pending have trees for the references they had
      at the start, in array s0; the others still have these references. */
  ghost predicate Made(v: Verdict, s0: seq<PrimRef>, s: seq<PrimRef>, cs: seq<Record>, ts: seq<Tree>, pending: set<nat>) {
    && |ts| == |cs|
    && forall i: nat :: i < |cs| ==>
         if i in pending then Slice(s, cs[i]) == Slice(s0, cs[i]) else v(cs[i], Slice(s0, cs[i]), ts[i])
  }

  lemma MadeStart(v: Verdict, s: seq<PrimRef>, cs: seq<Record>, ts: seq<Tree>, pending: set<nat>)
    requires |ts| == |cs| && forall i: nat :: i < |cs| ==> i in pending
    ensures Made(v, s, s, cs, ts, pending)
  {
  }

  lemma MadeStep(v: Verdict, sc: Scene, s0: seq<PrimRef>, s: seq<PrimRef>, s1: seq<PrimRef>, r: Record, cs: seq<Record>,
                 ts: seq<Tree>, pending: set<nat>, u: nat, t: Tree)
    requires Made(v, s0, s, cs, ts, pending) && u < |cs| && u in pending && v(cs[u], Slice(s, cs[u]), t)
    requires Group(sc, s, r.begin, r.end, cs) && PermutesRange(s, s1, cs[u].begin, cs[u].end)
    ensures |ts| == |cs| && Made(v, s0, s1, cs, ts[u := t], pending - {u})
  {
    hide ValidRecord, PermutesRange, Slice, Family;
    FamilyPermute(s, s1, r.begin, r.end, cs, u);
  }

  /** After the children of a record: all are built, or memory ran out. */
  ghost predicate ChildrenDone(sc: Scene, v0: State, v: State, end: nat, r: Record, cs: seq<Record>, base: nat, out: Outcome,
                               vs: seq<Value>, ts: seq<Tree>)
  {
    && Sound(sc, v0, v, r, cs, base)
    && (out.Done? ==> exists left :: Running(sc, v0, v, end, cs, vs, ts, left, {}, base))
    && (out.OutOfMemory? ==> 5 * end <= 5 * v0.cur + 64 * Sum(Needs(sc, cs)))
    && (out.BadGeometry? ==> Unstorable(sc, Slice(v.s, r)))
  }

  // ----- finishing an inner node

  lemma {:induction false} LeavesGather(s: seq<PrimRef>, cs: seq<Record>, ts: seq<Tree>)
    requires |ts| == |cs| && forall i: nat :: i < |cs| ==> multiset(Leaves(ts[i])) == multiset(Slice(s, cs[i]))
    ensures multiset(LeavesOf(ts)) == multiset(Gather(s, cs))
  {
    hide Leaves, Slice;
    if ts != [] {
      LeavesGather(s, cs[..|cs| - 1], ts[..|ts| - 1]);
    }
  }

  lemma {:induction false} SmallSum(sc: Scene, ts: seq<Tree>)
    requires forall i: nat :: i < |ts| ==> Small(sc, ts[i])
    ensures 5 * NodesOf(ts) + |ts| <= NodeRate(sc) * |LeavesOf(ts)|
    ensures BlocksOf(ts) + |ts| <= NodesOf(ts) + PerRef(sc) * |LeavesOf(ts)|
  {
    hide Nodes, Blocks, Leaves, PerRef, NodeRate;
    if ts != [] {
      var n := |ts| - 1;
      SmallSum(sc, ts[..n]);
      assert Small(sc, ts[n]);
      Distribute(NodeRate(sc), |LeavesOf(ts[..n])|, |Leaves(ts[n])|);
      Distribute(PerRef(sc), |LeavesOf(ts[..n])|, |Leaves(ts[n])|);
    }
  }

  lemma {:induction false} SingleNodes(ts: seq<Tree>)
    requires forall i: nat :: i < |ts| ==> Nodes(ts[i]) == 1
    ensures NodesOf(ts) == |ts|
  {
    hide Nodes;
    if ts != [] {
      SingleNodes(ts[..|ts| - 1]);
    }
  }

  lemma SmallInner(sc: Scene, r: Record, cs: seq<Record>, ts: seq<Tree>, addr: nat)
    requires |ts| == |cs| && Worthwhile(sc, r, cs) && |LeavesOf(ts)| == r.Size()
    requires forall i: nat :: i < |ts| ==> Small(sc, ts[i]) && (LeafRecord(cs[i]) ==> Nodes(ts[i]) == 1)
    ensures Small(sc, Inner(addr, ts))
  {
    hide LeafRecord, Small;
    SmallSum(sc, ts);
    if |cs| < BVH_WIDTH {
      SingleNodes(ts);
      FewLeaves(NodeRate(sc), |cs|, r.Size());
    }
    InnerCounts(addr, ts);
    SmallIf(sc, Inner(addr, ts));
  }

  lemma FewLeaves(c: nat, k: nat, n: nat)
    requires (6 <= c && 7 <= n && k <= 5) || (8 <= c && 2 <= k <= n)
    ensures 5 * k + 6 <= c * n
  {
    if 7 <= n {
      MulMono(6, c, 7);
      Swap(c, 7);
      MulMono(7, n, c);
      Swap(n, c);
      if k > 5 {
        MulMono(8, c, n);
      }
    } else {
      MulMono(8, c, n);
    }
  }

  lemma Swap(a: int, b: int)
    ensures a * b == b * a
  {
  }

  lemma InnerCounts(addr: nat, ts: seq<Tree>)
    ensures var t := Inner(addr, ts);
      Nodes(t) == 1 + NodesOf(ts) && Blocks(t) == |ts| + BlocksOf(ts) && Leaves(t) == LeavesOf(ts)
  {
  }

  lemma SmallIf(sc: Scene, t: Tree)
    requires 5 * Nodes(t) + 1 <= NodeRate(sc) * |Leaves(t)|
    requires Blocks(t) <= Nodes(t) - 1 + PerRef(sc) * |Leaves(t)|
    ensures Small(sc, t)
  {
  }

  lemma ProgressAll(sc: Scene, s: seq<PrimRef>, m: seq<Block>, cs: seq<Record>, ts: seq<Tree>, vs: seq<Value>, base: nat, lo: nat,
                    hi: nat, i: nat)
    requires Progress(sc, s, m, cs, ts, vs, {}, base, lo, hi) && i < |cs|
    ensures |ts| == |vs| == |cs| && vs[i].blocks == 1 && Stored(sc, s, m, cs[i], base + i, lo, hi, ts[i], vs[i].mask)
  {
    hide Stored;
    assert ChildState(sc, s, m, cs[i], ts[i], vs[i], false, base + i, lo, hi);
  }

  lemma StoredFacts(sc: Scene, s: seq<PrimRef>, m: seq<Block>, r: Record, addr: nat, lo: nat, hi: nat, t: Tree, mask: bv8)
    requires Stored(sc, s, m, r, addr, lo, hi, t, mask)
    ensures t.addr == addr && multiset(Leaves(t)) == multiset(Slice(s, r)) && mask == MaskOf(sc.masks, Leaves(t))
    ensures Small(sc, t) && (LeafRecord(r) ==> Nodes(t) == 1)
    ensures Encodes(m, sc.masks, t) && Within(t, lo, hi) && Typed(sc.typeOf, t)
  {
    hide Small, Leaves, Nodes, Encodes, Within, Typed, MaskOf, LeafRecord, Slice;
  }

  /** What the parent writes about its children. */
  lemma ChildrenDescribed(sc: Scene, s: seq<PrimRef>, m: seq<Block>, r: Record, cs: seq<Record>, ts: seq<Tree>, vs: seq<Value>,
                          base: nat, lo: nat, hi: nat)
    requires Progress(sc, s, m, cs, ts, vs, {}, base, lo, hi) && Group(sc, s, r.begin, r.end, cs)
    ensures |vs| == |ts| == |cs| && Describes(EntriesOf(cs, vs), KidsOf(ts), base)
    ensures forall i: nat :: i < |cs| ==> Proper(cs[i].bounds) && vs[i].blocks < 4 && vs[i].mask == MaskOf(sc.masks, KidsOf(ts)[i].prims)
  {
    hide Stored, Progress, MaskOf, Leaves, Group, Proper, Describes, KidsOf, EntriesOf;
    GroupFacts(sc, s, r, cs);
    ProgressLength(sc, s, m, cs, ts, vs, base, lo, hi);
    forall i: nat | i < |cs|
      ensures vs[i].blocks == 1 && vs[i].mask == MaskOf(sc.masks, KidsOf(ts)[i].prims)
    {
      ChildValue(sc, s, m, cs, ts, vs, base, lo, hi, i);
    }
    KidsDescribed(sc, s, m, r, cs, ts, vs, base, lo, hi);
  }

  lemma ChildValue(sc: Scene, s: seq<PrimRef>, m: seq<Block>, cs: seq<Record>, ts: seq<Tree>, vs: seq<Value>, base: nat, lo: nat, hi: nat,
                   i: nat)
    requires Progress(sc, s, m, cs, ts, vs, {}, base, lo, hi) && i < |cs|
    ensures |ts| == |vs| == |cs| && vs[i].blocks == 1 && vs[i].mask == MaskOf(sc.masks, KidsOf(ts)[i].prims)
  {
    hide Stored, Progress, MaskOf, Leaves;
    ProgressLength(sc, s, m, cs, ts, vs, base, lo, hi);
    ProgressAll(sc, s, m, cs, ts, vs, base, lo, hi, i);
    StoredFacts(sc, s, m, cs[i], base + i, lo, hi, ts[i], vs[i].mask);
  }

  lemma KidsDescribed(sc: Scene, s: seq<PrimRef>, m: seq<Block>, r: Record, cs: seq<Record>, ts: seq<Tree>, vs: seq<Value>,
                      base: nat, lo: nat, hi: nat)
    requires Progress(sc, s, m, cs, ts, vs, {}, base, lo, hi) && Group(sc, s, r.begin, r.end, cs)
    requires |vs| == |ts| == |cs| && forall i: nat :: i < |vs| ==> vs[i].blocks == 1
    ensures Describes(EntriesOf(cs, vs), KidsOf(ts), base)
  {
    hide Stored, Progress, Leaves, Group, BlocksBefore, ValidRecord, KidEntry, SingleBlocks;
    var es := EntriesOf(cs, vs);
    OneEach(es, vs);
    forall i: nat | i < |cs|
      ensures KidEntry(es, KidsOf(ts)[i], base, i)
    {
      ProgressAll(sc, s, m, cs, ts, vs, base, lo, hi, i);
      GroupMember(sc, s, r.begin, r.end, cs, i);
      KidBounds(sc, s, m, cs[i], base + i, lo, hi, ts[i], vs[i].mask);
      InnerEntry(es, ts[i], base, i);
    }
  }

  ghost predicate SingleBlocks(es: seq<Entry>) {
    forall j: nat :: j < |es| ==> es[j].blocks == 1 && es[j].slot == 0
  }

  lemma OneEach(es: seq<Entry>, vs: seq<Value>)
    requires |es| == |vs| && forall i: nat :: i < |vs| ==> vs[i].blocks == 1 && es[i].blocks == vs[i].blocks && es[i].slot == 0
    ensures SingleBlocks(es)
  {
  }

  lemma InnerEntry(es: seq<Entry>, t: Tree, base: nat, i: nat)
    requires i < |es| && t.addr == base + i && SingleBlocks(es)
    requires es[i].bounds == Hull(Leaves(t))
    ensures KidEntry(es, KidOf(t), base, i)
  {
    hide BlocksBefore, Leaves, Hull;
    OneBlockEach(es, i);
  }

  lemma KidBounds(sc: Scene, s: seq<PrimRef>, m: seq<Block>, c: Record, addr: nat, lo: nat, hi: nat, t: Tree, mask: bv8)
    requires Stored(sc, s, m, c, addr, lo, hi, t, mask) && ValidRecord(sc, s, c)
    ensures KidOf(t).addr == addr && c.bounds == Hull(Leaves(t))
  {
    hide Stored, ValidRecord, Leaves, Hull, Slice;
    StoredFacts(sc, s, m, c, addr, lo, hi, t, mask);
    BoundsAreHull(sc, s, c);
    HullPermutes(Leaves(t), Slice(s, c));
  }

  lemma ProgressLength(sc: Scene, s: seq<PrimRef>, m: seq<Block>, cs: seq<Record>, ts: seq<Tree>, vs: seq<Value>, base: nat, lo: nat,
                       hi: nat)
    requires Progress(sc, s, m, cs, ts, vs, {}, base, lo, hi)
    ensures |ts| == |vs| == |cs|
  {
  }

  lemma {:induction false} OneBlockEach(es: seq<Entry>, i: nat)
    requires i <= |es| && forall j: nat :: j < |es| ==> es[j].blocks == 1
    ensures BlocksBefore(es, i) == i
  {
    if 0 < i {
      OneBlockEach(es, i - 1);
    }
  }

  /** The finished inner node is a subtree again. */
  lemma InnerStored(sc: Scene, s: seq<PrimRef>, m: seq<Block>, m1: seq<Block>, r: Record, cs: seq<Record>, ts: seq<Tree>, vs: seq<Value>,
                    base: nat, hi: nat, addr: nat, mask: bv8)
    requires Progress(sc, s, m, cs, ts, vs, {}, base, base + |cs|, hi) && Group(sc, s, r.begin, r.end, cs)
    requires Worthwhile(sc, r, cs) && !LeafRecord(r)
    requires NodeAt(m1, sc.masks, addr, NODE_TYPE_INTERNAL, KidsOf(ts)) && OnlyAt(m, m1, addr) && addr < base && base + |cs| <= hi <= |m|
    requires mask == MaskOf(sc.masks, AllPrims(KidsOf(ts)))
    ensures Stored(sc, s, m1, r, addr, base, hi, Inner(addr, ts), mask)
  {
    hide Progress, Group, Worthwhile, LeafRecord, NodeAt, OnlyAt, MaskOf, AllPrims, Small, Slice, Stored;
    ProgressLength(sc, s, m, cs, ts, vs, base, base + |cs|, hi);
    OnlyKept(m, m1, addr, hi);
    forall i: nat | i < |cs|
      ensures Stored(sc, s, m1, cs[i], base + i, base + |cs|, hi, ts[i], vs[i].mask)
    {
      ProgressAll(sc, s, m, cs, ts, vs, base, base + |cs|, hi, i);
      StoredFrame(sc, s, s, m, m1, cs[i], base + i, base + |cs|, hi, hi, ts[i], vs[i].mask, addr);
    }
    InnerTree(sc, s, m1, cs, ts, vs, base, hi, addr);
    GroupFacts(sc, s, r, cs);
    AllPrimsOfKids(ts);
    assert |LeavesOf(ts)| == |multiset(LeavesOf(ts))| == |multiset(Slice(s, r))| == r.Size();
    SmallInner(sc, r, cs, ts, addr);
    InnerCounts(addr, ts);
    StoredIf(sc, s, m1, r, addr, base, hi, Inner(addr, ts), mask);
  }

  lemma OnlyKept(m: seq<Block>, m1: seq<Block>, addr: nat, lo: nat)
    requires OnlyAt(m, m1, addr)
    ensures Kept(m, m1, addr, lo)
  {
  }

  lemma StoredIf(sc: Scene, s: seq<PrimRef>, m: seq<Block>, r: Record, addr: nat, lo: nat, hi: nat, t: Tree, mask: bv8)
    requires t.addr == addr && Encodes(m, sc.masks, t) && Within(t, lo, hi) && Typed(sc.typeOf, t)
    requires multiset(Leaves(t)) == multiset(Slice(s, r)) && mask == MaskOf(sc.masks, Leaves(t))
    requires Small(sc, t) && (LeafRecord(r) ==> Nodes(t) == 1)
    ensures Stored(sc, s, m, r, addr, lo, hi, t, mask)
  {
  }

  lemma InnerTree(sc: Scene, s: seq<PrimRef>, m: seq<Block>, cs: seq<Record>, ts: seq<Tree>, vs: seq<Value>, base: nat, hi: nat,
                  addr: nat)
    requires |ts| == |cs| == |vs|
    requires forall i: nat :: i < |cs| ==> Stored(sc, s, m, cs[i], base + i, base + |cs|, hi, ts[i], vs[i].mask)
    requires NodeAt(m, sc.masks, addr, NODE_TYPE_INTERNAL, KidsOf(ts)) && base + |cs| <= hi
    ensures var t := Inner(addr, ts);
      Encodes(m, sc.masks, t) && Within(t, base, hi) && Typed(sc.typeOf, t)
    ensures multiset(LeavesOf(ts)) == multiset(Gather(s, cs))
    ensures forall i: nat :: i < |ts| ==> Small(sc, ts[i]) && (LeafRecord(cs[i]) ==> Nodes(ts[i]) == 1)
  {
    hide Stored, NodeAt, Small, LeafRecord, Nodes, MaskOf, Slice, Leaves, Encodes, Within, Typed;
    forall i: nat | i < |cs|
      ensures ts[i].addr == base + i && multiset(Leaves(ts[i])) == multiset(Slice(s, cs[i]))
      ensures Small(sc, ts[i]) && (LeafRecord(cs[i]) ==> Nodes(ts[i]) == 1)
      ensures Encodes(m, sc.masks, ts[i]) && Within(ts[i], base, hi) && Typed(sc.typeOf, ts[i])
    {
      StoredFacts(sc, s, m, cs[i], base + i, base + |cs|, hi, ts[i], vs[i].mask);
      WithinMono(ts[i], base + |cs|, hi, base, hi);
    }
    LeavesGather(s, cs, ts);
    InnerEncodes(m, sc.masks, ts, addr);
    InnerWithin(ts, addr, base, hi);
    InnerTyped(sc.typeOf, ts, addr);
  }

  lemma InnerEncodes(m: seq<Block>, masks: Masks, ts: seq<Tree>, addr: nat)
    requires NodeAt(m, masks, addr, NODE_TYPE_INTERNAL, KidsOf(ts)) && forall i: nat :: i < |ts| ==> Encodes(m, masks, ts[i])
    ensures Encodes(m, masks, Inner(addr, ts))
  {
    hide NodeAt;
  }

  lemma InnerWithin(ts: seq<Tree>, addr: nat, lo: nat, hi: nat)
    requires forall i: nat :: i < |ts| ==> lo <= ts[i].addr < hi && Within(ts[i], lo, hi)
    ensures Within(Inner(addr, ts), lo, hi)
  {
  }

  lemma InnerTyped(typeOf: nat -> PType, ts: seq<Tree>, addr: nat)
    requires forall i: nat :: i < |ts| ==> Typed(typeOf, ts[i])
    ensures Typed(typeOf, Inner(addr, ts))
  {
  }
}
