/** The recursive builder (rtbuild/qbvh6_builder_sah.h:416-862): it splits the
    reference array in place, allocates node memory and writes the hierarchy. */
module Builder {
  import opened Common
  import opened Geometry
  import opened PrimLeafDesc
  import opened QNode
  import opened Bvh
  import opened Partition
  import opened NodeWriter
  import opened Records
  import opened Depth
  import opened Splits
  import opened Children
  import opened Decisions
  import opened Hulls
  import opened Subtrees
  import opened LeafWriter
  import opened Procedurals
  import opened Instances
  import opened Phases
  import Allocator

  class BuilderSAH {
    const scene: Scene
    const prims: array<PrimRef>
    const mem: array<Block>
    /** Size of the node memory in bytes. */
    const end: nat
    var cur: nat

    ghost predicate Valid()
      reads this
    {
      cur % 64 == 0 && end <= 64 * mem.Length && mem.Length < 0x8000_0000
    }

    ghost function Now(): State
      reads this, prims, mem
    {
      State(prims[..], mem[..], cur)
    }

    constructor (scene: Scene, prims: array<PrimRef>, mem: array<Block>, end: nat)
      requires end <= 64 * mem.Length && mem.Length < 0x8000_0000
      ensures Valid() && cur == 0
      ensures this.scene == scene && this.prims == prims && this.mem == mem && this.end == end
    {
      this.scene := scene;
      this.prims := prims;
      this.mem := mem;
      this.end := end;
      cur := 0;
    }

    /** Allocates blocks; null when the end would be reached. */
    method Malloc(bytes: nat) returns (block: Option<nat>)
      requires Valid() && bytes % 64 == 0
      modifies this`cur
      ensures Valid() && old(cur) <= cur
      ensures block.Some? ==> 64 * block.value == old(cur) && cur == old(cur) + bytes < end
      ensures block.None? ==> end <= old(cur) + bytes
    {
      if cur >= end {
        return None;
      }
      var extra := Allocator.Extra(cur, 64);
      Allocator.NoPadding(cur, 64);
      var cur_old := cur;
      cur := cur_old + bytes + extra;
      if cur >= end {
        return None;
      }
      block := Some((cur_old + extra) / 64);
    }

    // ----- fat leaves

    method CreateFatQuadLeaf(ty: PType, r: Record, addr: nat, cs: seq<Record>) returns (out: Outcome, ghost t: Tree)
      requires Valid() && (ty == Triangle || ty == Quad)
      requires ValidRecord(scene, prims[..], r) && r.ty == Some(ty) && LeafRecord(r)
      requires Group(scene, prims[..], r.begin, r.end, cs) && 1 <= |cs| <= BVH_WIDTH
      requires forall i: nat :: i < |cs| ==> 1 <= cs[i].Size() <= 3
      requires addr < cur / 64
      modifies mem, this`cur
      ensures Valid() && Outcomes(scene, old(Now()), Now(), end, r, addr, out, t) && !out.TooDeep?
      ensures out.Done? ==> t.Fat? && t.ty == ty && ListPrims(t.lists) == PrimsOf(PartsOf(prims[..], cs))
    {
      hide Stored, ValidRecord, Group, PermutesRange, Kept, Blocks, Need, LeafRecord, Outcomes, PartsOf, PrimsOf, ListPrims;
      ghost var v0 := Now();
      RecordBounds(scene, prims[..], r);
      LeafRequest(r);
      assert r.Size() * 64 <= Allocator.BUILDER_REQUEST;
      var childData := Malloc(r.Size() * 64);
      t := Unbuilt;
      if childData.None? {
        LeafRefused(scene, v0, Now(), end, r, addr, r.Size(), t);
        return OutOfMemory, t;
      }
      var mask;
      mask, t := WriteFatQuadLeaf(scene, prims, mem, ty, r, addr, cs, childData.value);
      if mask.None? {
        GeometryRefused(scene, v0, Now(), end, r, addr, t);
        return BadGeometry, t;
      }
      LeafBuilt(scene, v0, Now(), end, r, addr, r.Size(), mask.value, t);
      out := Done(mask.value);
    }

    method CreateProcedurals(r: Record, addr: nat) returns (out: Outcome, ghost t: Tree)
      requires Valid() && ValidRecord(scene, prims[..], r) && r.ty == Some(Procedural) && LeafRecord(r)
      requires addr < cur / 64
      modifies mem, this`cur
      ensures Valid() && Outcomes(scene, old(Now()), Now(), end, r, addr, out, t) && !out.TooDeep?
      ensures out.Done? ==> t.Fat? && t.ty == Procedural && ListPrims(t.lists) == PrimsOf(Singles(Part(Slice(prims[..], r), r.ty)))
    {
      hide Stored, ValidRecord, PermutesRange, Kept, Blocks, Need, BlockNo;
      ghost var v0 := Now();
      RecordBounds(scene, prims[..], r);
      t := Unbuilt;
      var count := CountGeometries(prims, r);
      TooLargeIff(scene, prims[..], r);
      if count.None? {
        KeptAll(v0.m, addr, v0.cur / 64);
        GeometryRefused(scene, v0, v0, end, r, addr, t);
        return BadGeometry, t;
      }
      var numGeometries := count.value;
      GeometriesBound(Slice(prims[..], r), r.Size() - 1);
      assert numGeometries * 64 <= Allocator.BUILDER_REQUEST;
      var childData := Malloc(numGeometries * 64);
      if childData.None? {
        LeafRefused(scene, v0, Now(), end, r, addr, numGeometries, t);
        return OutOfMemory, t;
      }
      var mask;
      mask, t := WriteProcedurals(scene, prims, mem, r, addr, childData.value, numGeometries);
      LeafBuilt(scene, v0, Now(), end, r, addr, numGeometries, mask, t);
      out := Done(mask);
    }

    method CreateInstances(r: Record, addr: nat) returns (out: Outcome, ghost t: Tree)
      requires Valid() && ValidRecord(scene, prims[..], r) && r.ty == Some(Instance) && LeafRecord(r)
      requires addr < cur / 64
      modifies mem, this`cur
      ensures Valid() && Outcomes(scene, old(Now()), Now(), end, r, addr, out, t) && !out.TooDeep?
      ensures out.Done? ==> t.Fat? && t.ty == Instance && ListPrims(t.lists) == PrimsOf(Singles(Part(Slice(prims[..], r), r.ty)))
    {
      hide Stored, ValidRecord, PermutesRange, Kept, Blocks, Need;
      ghost var v0 := Now();
      RecordBounds(scene, prims[..], r);
      InstancePerRef(scene, prims[..], r);
      assert r.Size() * 128 <= Allocator.BUILDER_REQUEST;
      var childData := Malloc(r.Size() * 128);
      t := Unbuilt;
      if childData.None? {
        LeafRefused(scene, v0, Now(), end, r, addr, 2 * r.Size(), t);
        return OutOfMemory, t;
      }
      var mask;
      mask, t := WriteInstances(scene, prims, mem, r, addr, childData.value);
      LeafBuilt(scene, v0, Now(), end, r, addr, 2 * r.Size(), mask, t);
      out := Done(mask);
    }

    /** A node that points to leaf lists only. */
    method CreateFatLeaf(r: Record, addr: nat) returns (out: Outcome, ghost t: Tree)
      requires Valid() && ValidRecord(scene, prims[..], r) && LeafRecord(r)
      requires addr < cur / 64
      modifies prims, mem, this`cur
      ensures Valid() && Outcomes(scene, old(Now()), Now(), end, r, addr, out, t)
      ensures out.TooDeep? <==> MAX_DEPTH < r.depth
      ensures out.Done? ==> FatDecided(Part(old(Slice(prims[..], r)), r.ty), t)
    {
      hide ValidRecord, Group, PermutesRange, Outcomes, FatParts, FatDecided, ByArea, Ascending, Slice;
      ghost var v0 := Now();
      ghost var p0 := Part(Slice(prims[..], r), r.ty);
      RecordBounds(scene, prims[..], r);
      t := Unbuilt;
      if r.depth > MAX_DEPTH {
        NothingDone(scene, v0, end, r, addr, t);
        return TooDeep, t;
      }
      var ty := scene.typeOf(prims[r.begin].geomID);
      TypeKnown(scene, prims[..], r);
      var cs := FatLeafChildren(scene, prims, r);
      ghost var ks := PartsOf(prims[..], cs);
      cs := SortFatChildren(scene, prims[..], r, cs);
      ValidPermute(scene, v0.s, prims[..], r);
      ghost var v1 := Now();
      if ty == Triangle || ty == Quad {
        out, t := CreateFatQuadLeaf(ty, r, addr, cs);
      } else if ty == Procedural {
        out, t := CreateProcedurals(r, addr);
      } else {
        out, t := CreateInstances(r, addr);
      }
      AfterReorder(scene, v0, v1, Now(), end, r, addr, out, t);
      if out.Done? {
        if ty == Triangle || ty == Quad {
          SortedFat(p0, ks, PartsOf(v1.s, cs), t);
        } else {
          SinglesSorted(scene, v0.s, v1.s, r, t);
        }
      }
    }

    // ----- nodes over children

    /** Writes the node of a record whose children are built. */
    method FinishNode(r: Record, cs: seq<Record>, vs: seq<Value>, addr: nat, base: nat, ghost v0: State, ghost v1: State,
                      ghost done: Outcome, ghost ts: seq<Tree>) returns (out: Outcome, ghost t: Tree)
      requires Valid() && ChildrenDone(scene, v1, Now(), end, r, cs, base, done, vs, ts) && done.Done?
      requires Worthwhile(scene, r, cs) && !LeafRecord(r) && addr < base
      requires PermutesRange(v0.s, v1.s, r.begin, r.end) && v1.m == v0.m && v0.cur == 64 * base
      modifies mem
      ensures Valid() && Outcomes(scene, v0, Now(), end, r, addr, out, t) && out.Done? && t == Inner(addr, ts)
    {
      hide Stored, Group, PermutesRange, Blocks, Need, Worthwhile, LeafRecord, NodeAt, OnlyAt, MaskOf, AllPrims, Describes, Outcomes,
        Progress, Budget, ChildrenDone, Sound, KeptBelow;
      ghost var v := Now();
      ChildrenReady(scene, v0, v1, v, end, r, cs, base, done, vs, ts);
      ChildrenDescribed(scene, v.s, v.m, r, cs, ts, vs, base, base + |cs|, v.cur / 64);
      var mask := SetInternalNode(scene, mem, addr, NODE_TYPE_INTERNAL, base, cs, vs, KidsOf(ts));
      t := Inner(addr, ts);
      out := Done(mask);
      NodeFinished(scene, v0, v1, v, Now(), end, r, cs, base, done, vs, ts, addr, mask);
    }

    // ----- large leaves

    /** A balanced tree over references of one type: runs into the depth limit
        exactly when they are more than the levels below can hold. */
    method CreateLargeLeaf(r: Record, addr: nat) returns (out: Outcome, ghost t: Tree)
      requires Valid() && ValidRecord(scene, prims[..], r) && r.ty.Some? && addr < cur / 64
      modifies prims, mem, this`cur
      ensures Valid() && Outcomes(scene, old(Now()), Now(), end, r, addr, out, t)
      ensures out.TooDeep? ==> Capacity(LeafSize(r.ty), r.depth) < r.Size()
      ensures out.Done? ==> r.Size() <= Capacity(LeafSize(r.ty), r.depth)
      ensures out.Done? ==> LargeDecided(Part(old(Slice(prims[..], r)), r.ty), t)
      decreases r.Size(), 1
    {
      hide ValidRecord, Group, PermutesRange, Outcomes, Worthwhile, OneBelow, Spread, Capacity, ChildrenDone, Stored, Need, FatDecided,
        LargeDecided, AllLarge, SpreadParts, Slice;
      ghost var v0 := Now();
      ghost var p := Part(Slice(prims[..], r), r.ty);
      RecordBounds(scene, prims[..], r);
      SliceSize(prims[..], r);
      t := Unbuilt;
      if r.depth > MAX_DEPTH {
        NothingDone(scene, v0, end, r, addr, t);
        NoCapacity(LeafSize(r.ty), r.depth);
        return TooDeep, t;
      }
      if r.Size() <= LeafSize(r.ty) {
        CapacityLeaf(LeafSize(r.ty), r.depth);
        out, t := CreateFatLeaf(r, addr);
        LargeIfFat(p, t);
        return;
      }
      var cs := HalveLargest(scene, prims, r, LeafSize(r.ty));
      HalvedChildren(scene, prims[..], r, cs);
      PermutesSelf(v0.s, r.begin, r.end);
      NodeRequest(scene, r, cs);
      assert |cs| * 64 <= Allocator.BUILDER_REQUEST;
      var childBase := Malloc(|cs| * 64);
      if childBase.None? {
        NodeRefused(scene, v0, Now(), end, r, cs, addr, t);
        return OutOfMemory, t;
      }
      ghost var v1 := Now();
      var vs; ghost var ts;
      out, vs, ts := CreateLargeChildren(r, cs, childBase.value);
      LargeDepth(scene, prims[..], r, cs);
      if !out.Done? {
        NodeStops(scene, v0, v1, Now(), end, r, cs, childBase.value, out, vs, ts, addr, t);
        return;
      }
      out, t := FinishNode(r, cs, vs, addr, childBase.value, v0, v1, out, ts);
      LargeIfInner(p, PartsOf(v1.s, cs), t);
    }

    method CreateLargeChildren(r: Record, cs: seq<Record>, base: nat) returns (out: Outcome, vs: seq<Value>, ghost ts: seq<Tree>)
      requires Valid() && Group(scene, prims[..], r.begin, r.end, cs) && r.ty.Some?
      requires forall i: nat :: i < |cs| ==> cs[i].ty == r.ty && cs[i].depth == r.depth + 1 && cs[i].Size() < r.Size()
      requires cur == 64 * (base + |cs|) && cur < end
      modifies prims, mem, this`cur
      ensures Valid() && ChildrenDone(scene, old(Now()), Now(), end, r, cs, base, out, vs, ts)
      ensures out.TooDeep? ==> exists i: nat :: i < |cs| && Capacity(LeafSize(r.ty), r.depth + 1) < cs[i].Size()
      ensures out.Done? ==> forall i: nat :: i < |cs| ==> cs[i].Size() <= Capacity(LeafSize(r.ty), r.depth + 1)
      ensures out.Done? ==> AllLarge(PartsOf(old(prims[..]), cs), ts)
      decreases r.Size(), 0
    {
      hide ValidRecord, Group, PermutesRange, Outcomes, Capacity, Stored, Need, Needs, Sound, Running, BlocksOf, Made, LargeDecided, Slice;
      ghost var v1 := Now();
      ghost var pending := Tasks(|cs|);
      ghost var left := Needs(scene, cs);
      vs, ts := seq(|cs|, _ => Value(0, 0)), seq(|cs|, _ => Unbuilt);
      Starts(scene, v1, end, r, cs, vs, ts, pending, base);
      MadeStart(AsLarge(), v1.s, cs, ts, pending);
      for i := 0 to |cs|
        invariant Valid() && Sound(scene, v1, Now(), r, cs, base)
        invariant Running(scene, v1, Now(), end, cs, vs, ts, left, pending, base)
        invariant forall k: nat :: k in pending <==> i <= k < |cs|
        invariant forall k: nat :: k < i ==> cs[k].Size() <= Capacity(LeafSize(r.ty), r.depth + 1)
        invariant Made(AsLarge(), v1.s, prims[..], cs, ts, pending)
      {
        ghost var v := Now();
        SoundChild(scene, v1, v, r, cs, base, i);
        RunningLengths(scene, v1, v, end, cs, vs, ts, left, pending, base);
        ghost var t;
        out, t := CreateLargeLeaf(cs[i], base + i);
        SoundStep(scene, v1, v, Now(), end, r, cs, base, i, out, t);
        if !out.Done? {
          if out.OutOfMemory? {
            RunningFails(scene, v1, v, Now(), end, cs, vs, ts, left, pending, base, i, t);
          } else if out.BadGeometry? {
            RecordUnstorable(scene, v1, v, Now(), end, r, cs, base, i, t);
          }
          return;
        }
        RunningStep(scene, v1, v, Now(), end, r, cs, vs, ts, left, pending, base, i, out.mask, t);
        ChildMade(AsLarge(), scene, v1, v, Now(), end, r, cs, base, ts, pending, i, out, t);
        vs, ts, left, pending := vs[i := Value(out.mask, 1)], ts[i := t], left[i := 0], pending - {i};
      }
      assert pending == {};
      MadeAllLarge(v1.s, prims[..], cs, ts);
      out := Done(0);
    }

    // ----- inner nodes

    /** Builds the subtree of a record below the node at addr. */
    method CreateInternalNode(r: Record, addr: nat) returns (out: Outcome, ghost t: Tree)
      requires Valid() && ValidRecord(scene, prims[..], r) && addr < cur / 64
      modifies prims, mem, this`cur
      ensures Valid() && Outcomes(scene, old(Now()), Now(), end, r, addr, out, t)
      ensures out.TooDeep? ==> !DepthOK(r)
      ensures out.Done? && r.Size() <= LeafSize(r.ty) && (r.ty.Some? || scene.only.Some?) ==> Nodes(t) == 1
      ensures out.Done? ==> Decided(scene, r.depth, Part(old(Slice(prims[..], r)), r.ty), t)
      decreases r.Size(), if r.ty.None? then 1 else 0, 2
    {
      hide ValidRecord, Group, PermutesRange, Outcomes, Worthwhile, ChildrenDone, Stored, Need, Nodes, Mixed, DepthOK, Capacity,
        LargeDecided, Decided, NodeParts, AllMade, AsDecided, CommonType, Slice, PartsOf, Hull, Unstorable;
      ghost var v0 := Now();
      ghost var p := Part(Slice(prims[..], r), r.ty);
      RecordBounds(scene, prims[..], r);
      SliceSize(prims[..], r);
      t := Unbuilt;
      var createLeaf := r.Size() <= LeafSize(r.ty) || r.depth + MIN_LARGE_LEAF_LEVELS >= MAX_DEPTH;
      var performTypeSplit := r.ty.None? && (createLeaf || r.Size() <= TYPE_SPLIT_SIZE);
      var c := r;
      if performTypeSplit {
        var ty := SharedType(scene, prims, r.begin, r.end);
        c := r.(ty := ty);
        performTypeSplit := ty.None?;
        TypeFound(scene, prims[..], r, ty);
        SliceIs(prims[..], r);
      }
      SameDepth(r, c);
      if !performTypeSplit && createLeaf {
        LeafDepth(c);
        out, t := CreateLargeLeaf(c, addr);
        Retyped(scene, v0, Now(), end, r, c, addr, out, t);
        SameSlice(v0.s, r, c);
        if out.Done? {
          DecidedLarge(scene, r.depth, p, t);
        }
        return;
      }
      var cs := InternalChildren(scene, prims, c, performTypeSplit);
      ChildrenSmaller(scene, prims[..], r, c, cs);
      ghost var v1 := Now();
      out, t := CreateNodeOver(r, cs, addr);
      AfterReorder(scene, v0, v1, Now(), end, r, addr, out, t);
      SameSlice(v0.s, r, c);
      if out.Done? {
        DecidedInner(scene, r.depth, p, v1.s, cs, t);
      }
    }

    /** Allocates the child nodes, builds them and writes the node above. */
    method CreateNodeOver(r: Record, cs: seq<Record>, addr: nat) returns (out: Outcome, ghost t: Tree)
      requires Valid() && Group(scene, prims[..], r.begin, r.end, cs) && Worthwhile(scene, r, cs) && !LeafRecord(r)
      requires forall i: nat :: i < |cs| ==> Smaller(cs[i], r)
      requires addr < cur / 64
      modifies prims, mem, this`cur
      ensures Valid() && Outcomes(scene, old(Now()), Now(), end, r, addr, out, t)
      ensures out.TooDeep? ==> exists i: nat :: i < |cs| && !DepthOK(cs[i])
      ensures out.Done? ==> t.Inner? && AllMade(AsDecided(scene), old(prims[..]), cs, t.kids)
      decreases r.Size(), if r.ty.None? then 1 else 0, 1
    {
      hide Group, PermutesRange, Outcomes, Worthwhile, ChildrenDone, Stored, Need, DepthOK, LeafRecord, Smaller, AllMade, AsDecided;
      ghost var v0 := Now();
      GroupRange(scene, prims[..], r, cs);
      PermutesSelf(v0.s, r.begin, r.end);
      t := Unbuilt;
      NodeRequest(scene, r, cs);
      assert |cs| * 64 <= Allocator.BUILDER_REQUEST;
      var childBase := Malloc(|cs| * 64);
      if childBase.None? {
        NodeRefused(scene, v0, Now(), end, r, cs, addr, t);
        return OutOfMemory, t;
      }
      ghost var v1 := Now();
      var vs; ghost var ts;
      if r.Size() > SINGLE_THREAD_THRESHOLD {
        out, vs, ts := CreateChildrenParallel(r, cs, childBase.value);
      } else {
        out, vs, ts := CreateChildrenSerial(r, cs, childBase.value);
      }
      if !out.Done? {
        NodeStops(scene, v0, v1, Now(), end, r, cs, childBase.value, out, vs, ts, addr, t);
        return;
      }
      out, t := FinishNode(r, cs, vs, addr, childBase.value, v0, v1, out, ts);
    }

    method CreateChildrenSerial(r: Record, cs: seq<Record>, base: nat) returns (out: Outcome, vs: seq<Value>, ghost ts: seq<Tree>)
      requires Valid() && Group(scene, prims[..], r.begin, r.end, cs)
      requires forall i: nat :: i < |cs| ==> Smaller(cs[i], r)
      requires cur == 64 * (base + |cs|) && cur < end
      modifies prims, mem, this`cur
      ensures Valid() && ChildrenDone(scene, old(Now()), Now(), end, r, cs, base, out, vs, ts)
      ensures out.TooDeep? ==> exists i: nat :: i < |cs| && !DepthOK(cs[i])
      ensures out.Done? ==> AllMade(AsDecided(scene), old(prims[..]), cs, ts)
      decreases r.Size(), if r.ty.None? then 1 else 0, 0
    {
      hide ValidRecord, Group, PermutesRange, Outcomes, Stored, Need, Needs, Sound, Running, BlocksOf, DepthOK, Made, AllMade, Decided, Slice;
      ghost var v1 := Now();
      ghost var pending := Tasks(|cs|);
      ghost var left := Needs(scene, cs);
      vs, ts := seq(|cs|, _ => Value(0, 0)), seq(|cs|, _ => Unbuilt);
      Starts(scene, v1, end, r, cs, vs, ts, pending, base);
      MadeStart(AsDecided(scene), v1.s, cs, ts, pending);
      for i := 0 to |cs|
        invariant Valid() && Sound(scene, v1, Now(), r, cs, base)
        invariant Running(scene, v1, Now(), end, cs, vs, ts, left, pending, base)
        invariant forall k: nat :: k in pending <==> i <= k < |cs|
        invariant Made(AsDecided(scene), v1.s, prims[..], cs, ts, pending)
      {
        ghost var v := Now();
        SoundChild(scene, v1, v, r, cs, base, i);
        RunningLengths(scene, v1, v, end, cs, vs, ts, left, pending, base);
        ghost var t;
        out, t := CreateInternalNode(cs[i], base + i);
        SoundStep(scene, v1, v, Now(), end, r, cs, base, i, out, t);
        if !out.Done? {
          if out.OutOfMemory? {
            RunningFails(scene, v1, v, Now(), end, cs, vs, ts, left, pending, base, i, t);
          } else if out.BadGeometry? {
            RecordUnstorable(scene, v1, v, Now(), end, r, cs, base, i, t);
          }
          return;
        }
        RunningStep(scene, v1, v, Now(), end, r, cs, vs, ts, left, pending, base, i, out.mask, t);
        ChildMade(AsDecided(scene), scene, v1, v, Now(), end, r, cs, base, ts, pending, i, out, t);
        vs, ts, left, pending := vs[i := Value(out.mask, 1)], ts[i := t], left[i := 0], pending - {i};
      }
      assert pending == {};
      MadeAll(AsDecided(scene), v1.s, prims[..], cs, ts);
      out := Done(0);
    }

    /** The tasks run in any order; once one has failed the others may or may not
        be skipped. */
    method CreateChildrenParallel(r: Record, cs: seq<Record>, base: nat) returns (out: Outcome, vs: seq<Value>, ghost ts: seq<Tree>)
      requires Valid() && Group(scene, prims[..], r.begin, r.end, cs)
      requires forall i: nat :: i < |cs| ==> Smaller(cs[i], r)
      requires cur == 64 * (base + |cs|) && cur < end
      modifies prims, mem, this`cur
      ensures Valid() && ChildrenDone(scene, old(Now()), Now(), end, r, cs, base, out, vs, ts)
      ensures out.TooDeep? ==> exists i: nat :: i < |cs| && !DepthOK(cs[i])
      ensures out.Done? ==> AllMade(AsDecided(scene), old(prims[..]), cs, ts)
      decreases r.Size(), if r.ty.None? then 1 else 0, 0
    {
      hide ValidRecord, Group, PermutesRange, Outcomes, Stored, Need, Needs, Sound, Running, BlocksOf, DepthOK, Made, AllMade, Decided, Slice;
      ghost var v1 := Now();
      var pending := Tasks(|cs|);
      ghost var left := Needs(scene, cs);
      var success := true;
      vs, ts := seq(|cs|, _ => Value(0, 0)), seq(|cs|, _ => Unbuilt);
      Starts(scene, v1, end, r, cs, vs, ts, pending, base);
      MadeStart(AsDecided(scene), v1.s, cs, ts, pending);
      while pending != {}
        invariant Valid() && Sound(scene, v1, Now(), r, cs, base)
        invariant success ==> Running(scene, v1, Now(), end, cs, vs, ts, left, pending, base)
        invariant success ==> Made(AsDecided(scene), v1.s, prims[..], cs, ts, pending)
        invariant !success ==> 5 * end <= 5 * v1.cur + 64 * Sum(Needs(scene, cs))
        invariant forall k: nat :: k in pending ==> k < |cs|
      {
        var i: nat :| i in pending;
        var skipped: bool := *;
        if success || !skipped {
          ghost var v := Now();
          SoundChild(scene, v1, v, r, cs, base, i);
          ghost var t;
          out, t := CreateInternalNode(cs[i], base + i);
          SoundStep(scene, v1, v, Now(), end, r, cs, base, i, out, t);
          if out.TooDeep? {
            return;
          }
          if out.BadGeometry? {
            RecordUnstorable(scene, v1, v, Now(), end, r, cs, base, i, t);
            return;
          }
          if success {
            if out.OutOfMemory? {
              RunningFails(scene, v1, v, Now(), end, cs, vs, ts, left, pending, base, i, t);
              success := false;
            } else {
              RunningStep(scene, v1, v, Now(), end, r, cs, vs, ts, left, pending, base, i, out.mask, t);
              ChildMade(AsDecided(scene), scene, v1, v, Now(), end, r, cs, base, ts, pending, i, out, t);
              vs, ts, left := vs[i := Value(out.mask, 1)], ts[i := t], left[i := 0];
            }
          }
        }
        pending := pending - {i};
      }
      if success {
        MadeAll(AsDecided(scene), v1.s, prims[..], cs, ts);
      }
      out := if success then Done(0) else OutOfMemory;
    }
  }

  // ----- what was decided

  lemma SliceSize(s: seq<PrimRef>, r: Record)
    requires r.begin < r.end <= |s|
    ensures |Slice(s, r)| == r.Size()
  {
  }

  lemma SliceIs(s: seq<PrimRef>, r: Record)
    requires r.begin < r.end <= |s|
    ensures Slice(s, r) == s[r.begin..r.end]
  {
  }

  lemma SameSlice(s: seq<PrimRef>, r: Record, c: Record)
    requires r.begin == c.begin && r.end == c.end
    ensures Slice(s, r) == Slice(s, c)
  {
  }

  lemma LargeIfFat(p: Part, t: Tree)
    requires |p.prims| <= LeafSize(p.ty)
    ensures FatDecided(p, t) ==> LargeDecided(p, t)
  {
    hide FatDecided;
  }

  lemma LargeIfInner(p: Part, ps: seq<Part>, t: Tree)
    requires LeafSize(p.ty) < |p.prims| && t.Inner? && ps == SpreadParts([p], LeafSize(p.ty)) && AllLarge(ps, t.kids)
    ensures LargeDecided(p, t)
  {
    hide AllLarge, SpreadParts;
  }

  /** A child built from the references it had at the start. */
  lemma ChildMade(verdict: Verdict, sc: Scene, v0: State, v: State, v1: State, end: nat, r: Record, cs: seq<Record>, base: nat,
                  ts: seq<Tree>, pending: set<nat>, u: nat, out: Outcome, t: Tree)
    requires Made(verdict, v0.s, v.s, cs, ts, pending) && Sound(sc, v0, v, r, cs, base) && u < |cs| && u in pending
    requires Outcomes(sc, v, v1, end, cs[u], base + u, out, t) && verdict(cs[u], Slice(v.s, cs[u]), t)
    ensures |ts| == |cs| && Made(verdict, v0.s, v1.s, cs, ts[u := t], pending - {u})
  {
    hide Made, Group, PermutesRange, Stored, Blocks, Need, Slice, Kept, KeptBelow, Unstorable;
    MadeStep(verdict, sc, v0.s, v.s, v1.s, r, cs, ts, pending, u, t);
  }

  /** All children are built. */
  ghost predicate AllMade(verdict: Verdict, s: seq<PrimRef>, cs: seq<Record>, ts: seq<Tree>) {
    |ts| == |cs| && forall i: nat :: i < |cs| ==> verdict(cs[i], Slice(s, cs[i]), ts[i])
  }

  lemma MadeAll(verdict: Verdict, s0: seq<PrimRef>, s: seq<PrimRef>, cs: seq<Record>, ts: seq<Tree>)
    requires Made(verdict, s0, s, cs, ts, {})
    ensures AllMade(verdict, s0, cs, ts)
  {
  }

  lemma MadeAllLarge(s0: seq<PrimRef>, s: seq<PrimRef>, cs: seq<Record>, ts: seq<Tree>)
    requires Made(AsLarge(), s0, s, cs, ts, {})
    ensures AllLarge(PartsOf(s0, cs), ts)
  {
    hide LargeDecided, Slice;
    forall i: nat | i < |cs|
      ensures LargeDecided(PartsOf(s0, cs)[i], ts[i])
    {
      assert AsLarge()(cs[i], Slice(s0, cs[i]), ts[i]);
    }
  }

  lemma DecidedLarge(sc: Scene, depth: nat, p: Part, t: Tree)
    requires |p.prims| <= LeafSize(p.ty) || depth + MIN_LARGE_LEAF_LEVELS >= MAX_DEPTH
    requires var c := if p.ty.None? then Part(p.prims, CommonType(sc, p.prims)) else p;
      c.ty.Some? && LargeDecided(c, t)
    ensures Decided(sc, depth, p, t)
  {
    hide LargeDecided, CommonType;
  }

  lemma DecidedInner(sc: Scene, depth: nat, p: Part, s: seq<PrimRef>, cs: seq<Record>, t: Tree)
    requires t.Inner? && AllMade(AsDecided(sc), s, cs, t.kids)
    requires forall i: nat :: i < |cs| ==> cs[i].depth == if |cs| == 1 then depth else depth + 1
    requires var leaf := |p.prims| <= LeafSize(p.ty) || depth + MIN_LARGE_LEAF_LEVELS >= MAX_DEPTH;
      var asked := p.ty.None? && (leaf || |p.prims| <= TYPE_SPLIT_SIZE);
      var c := if asked then Part(p.prims, CommonType(sc, p.prims)) else p;
      !(leaf && c.ty.Some?) && NodeParts(sc, c, asked && c.ty.None?, PartsOf(s, cs))
    ensures Decided(sc, depth, p, t)
  {
    hide LargeDecided, CommonType, NodeParts, Decided, Slice;
    var ks := PartsOf(s, cs);
    forall i: nat | i < |ks|
      ensures Decided(sc, if |ks| == 1 then depth else depth + 1, ks[i], t.kids[i])
    {
      assert AsDecided(sc)(cs[i], Slice(s, cs[i]), t.kids[i]);
    }
    DecidedIf(sc, depth, p, ks, t);
  }

  lemma DecidedIf(sc: Scene, depth: nat, p: Part, ks: seq<Part>, t: Tree)
    requires t.Inner? && AllDecided(sc, depth, ks, t.kids)
    requires var leaf := |p.prims| <= LeafSize(p.ty) || depth + MIN_LARGE_LEAF_LEVELS >= MAX_DEPTH;
      var asked := p.ty.None? && (leaf || |p.prims| <= TYPE_SPLIT_SIZE);
      var c := if asked then Part(p.prims, CommonType(sc, p.prims)) else p;
      !(leaf && c.ty.Some?) && NodeParts(sc, c, asked && c.ty.None?, ks)
    ensures Decided(sc, depth, p, t)
  {
    hide LargeDecided, CommonType, NodeParts, AllDecided;
  }

  // ----- value-level steps

  lemma GeometriesBound(p: seq<PrimRef>, n: nat)
    requires n < |p|
    ensures BlockNo(p, n) <= n
  {
    if 0 < n {
      GeometriesBound(p, n - 1);
    }
  }

  lemma LeafRefused(sc: Scene, v0: State, v: State, end: nat, r: Record, addr: nat, blocks: nat, t: Tree)
    requires v.s == v0.s && v.m == v0.m && v0.cur <= v.cur && v.cur % 64 == 0
    requires r.begin <= r.end <= |v0.s| && LeafRecord(r)
    requires end <= v0.cur + 64 * blocks && blocks <= PerRef(sc) * r.Size()
    ensures Outcomes(sc, v0, v, end, r, addr, OutOfMemory, t)
  {
    hide LeafRecord, PermutesRange;
    PermutesSelf(v0.s, r.begin, r.end);
  }

  lemma LeafBuilt(sc: Scene, v0: State, v: State, end: nat, r: Record, addr: nat, blocks: nat, mask: bv8, t: Tree)
    requires v.s == v0.s && v0.cur % 64 == 0 && v.cur == v0.cur + 64 * blocks < end && 1 <= blocks
    requires r.begin <= r.end <= |v0.s| && Kept(v0.m, v.m, addr, v0.cur / 64)
    requires Stored(sc, v.s, v.m, r, addr, v0.cur / 64, v0.cur / 64 + blocks, t, mask) && Blocks(t) == blocks
    ensures Outcomes(sc, v0, v, end, r, addr, Done(mask), t)
  {
    hide Stored, Kept, PermutesRange, Blocks;
    PermutesSelf(v0.s, r.begin, r.end);
  }

  /** A header refused a geometry ID; blocks of the leaf may have been written. */
  lemma GeometryRefused(sc: Scene, v0: State, v: State, end: nat, r: Record, addr: nat, t: Tree)
    requires v.s == v0.s && v0.cur <= v.cur && v.cur % 64 == 0 && Kept(v0.m, v.m, addr, v0.cur / 64)
    requires r.begin <= r.end <= |v0.s| && Unstorable(sc, Slice(v0.s, r))
    ensures Outcomes(sc, v0, v, end, r, addr, BadGeometry, t)
  {
    hide Kept, PermutesRange, Unstorable, Slice;
    PermutesSelf(v0.s, r.begin, r.end);
  }

  lemma KeptAll(m: seq<Block>, addr: nat, lo: nat)
    ensures Kept(m, m, addr, lo)
  {
  }

  lemma LeafRequest(r: Record)
    requires LeafRecord(r)
    ensures r.Size() * 64 <= Allocator.BUILDER_REQUEST
  {
  }

  lemma NodeRequest(sc: Scene, r: Record, cs: seq<Record>)
    requires Worthwhile(sc, r, cs)
    ensures |cs| * 64 <= Allocator.BUILDER_REQUEST
  {
  }

  lemma NothingDone(sc: Scene, v0: State, end: nat, r: Record, addr: nat, t: Tree)
    requires r.begin <= r.end <= |v0.s| && v0.cur % 64 == 0
    ensures Outcomes(sc, v0, v0, end, r, addr, TooDeep, t)
  {
  }

  lemma TypeKnown(sc: Scene, s: seq<PrimRef>, r: Record)
    requires ValidRecord(sc, s, r) && r.ty.Some?
    ensures sc.typeOf(s[r.begin].geomID) == r.ty.value
  {
    assert Fits(sc, r, s[r.begin]);
  }

  method SortFatChildren(ghost sc: Scene, ghost s: seq<PrimRef>, ghost r: Record, cs0: seq<Record>) returns (cs: seq<Record>)
    requires Group(sc, s, r.begin, r.end, cs0) && forall i: nat :: i < |cs0| ==> 1 <= cs0[i].Size() <= 3
    ensures Group(sc, s, r.begin, r.end, cs) && |cs| == |cs0| && forall i: nat :: i < |cs| ==> 1 <= cs[i].Size() <= 3
    ensures multiset(PartsOf(s, cs)) == multiset(PartsOf(s, cs0)) && ByArea(PrimsOf(PartsOf(s, cs)))
  {
    hide Group, Ascending, Slice;
    cs := SortChildren(sc, s, r, cs0, AreaKey());
    assert |cs| == |multiset(cs)| == |multiset(cs0)| == |cs0|;
    forall i: nat | i < |cs|
      ensures 1 <= cs[i].Size() <= 3
    {
      var j := SameRecords(cs0, cs, i);
    }
    PartsPermute(s, cs0, cs);
    SortedByArea(sc, s, r, cs);
  }

  lemma SortedByArea(sc: Scene, s: seq<PrimRef>, r: Record, cs: seq<Record>)
    requires Group(sc, s, r.begin, r.end, cs) && Ascending(AreaKey(), cs, |cs|)
    ensures ByArea(PrimsOf(PartsOf(s, cs)))
  {
    hide Group, HalfArea, Slice, Hull;
    var ps := PrimsOf(PartsOf(s, cs));
    forall i: nat, j: nat | i < j < |ps|
      ensures HalfArea(Hull(ps[j])) <= HalfArea(Hull(ps[i]))
    {
      BoxesAreHulls(sc, s, r.begin, r.end, cs, i);
      BoxesAreHulls(sc, s, r.begin, r.end, cs, j);
      assert AreaKey()(cs[i]) <= AreaKey()(cs[j]);
    }
  }

  lemma PrimsPermute(ps: seq<Part>, qs: seq<Part>)
    requires multiset(ps) == multiset(qs)
    ensures multiset(PrimsOf(ps)) == multiset(PrimsOf(qs))
  {
    var f := (p: Part) => p.prims;
    MapPermutation(f, ps, qs);
    assert PrimsOf(ps) == Map(f, ps) && PrimsOf(qs) == Map(f, qs);
  }

  /** The lists of triangles or quads are the sorted children. */
  lemma SortedFat(p: Part, ks: seq<Part>, qs: seq<Part>, t: Tree)
    requires t.Fat? && p.ty == Some(t.ty) && FatParts(p, ks) && multiset(qs) == multiset(ks)
    requires ListPrims(t.lists) == PrimsOf(qs) && ByArea(PrimsOf(qs))
    ensures FatDecided(p, t)
  {
    hide FatParts, ByArea;
    PrimsPermute(qs, ks);
  }

  /** Procedurals and instances have one list for each reference. */
  lemma SinglesSorted(sc: Scene, s: seq<PrimRef>, s1: seq<PrimRef>, r: Record, t: Tree)
    requires PermutesRange(s, s1, r.begin, r.end) && LeafRecord(r)
    requires t.Fat? && r.ty == Some(t.ty) && t.ty != Triangle && t.ty != Quad
    requires ListPrims(t.lists) == PrimsOf(Singles(Part(Slice(s1, r), r.ty)))
    ensures FatDecided(Part(Slice(s, r), r.ty), t)
  {
    hide PermutesRange;
    PermutesLength(s, s1, r.begin, r.end);
    PermutesSlice(s, s1, r.begin, r.end);
    var p, p1 := Part(Slice(s, r), r.ty), Part(Slice(s1, r), r.ty);
    var f := (x: PrimRef) => [x];
    MapPermutation(f, p1.prims, p.prims);
    assert PrimsOf(Singles(p1)) == Map(f, p1.prims) && PrimsOf(Singles(p)) == Map(f, p.prims);
    SinglesFat(p);
  }

  /** References of the record may have been rearranged before. */
  lemma AfterReorder(sc: Scene, v0: State, v1: State, v: State, end: nat, r: Record, addr: nat, out: Outcome, t: Tree)
    requires PermutesRange(v0.s, v1.s, r.begin, r.end) && v1.m == v0.m && v1.cur == v0.cur
    requires Outcomes(sc, v1, v, end, r, addr, out, t)
    ensures Outcomes(sc, v0, v, end, r, addr, out, t)
  {
    hide Stored, Kept, PermutesRange, Blocks, Need, Unstorable, Slice;
    PermutesTrans(v0.s, v1.s, v.s, r.begin, r.end, r.begin, r.end);
    PermutesUnstorable(sc, v0.s, v1.s, r);
  }

  lemma ChildrenReady(sc: Scene, v0: State, v1: State, v: State, end: nat, r: Record, cs: seq<Record>, base: nat, done: Outcome, vs: seq<Value>,
                      ts: seq<Tree>)
    requires ChildrenDone(sc, v1, v, end, r, cs, base, done, vs, ts) && done.Done? && Worthwhile(sc, r, cs)
    requires v1.m == v0.m && v0.cur == 64 * base
    ensures 1 <= |cs| <= BVH_WIDTH && Group(sc, v.s, r.begin, r.end, cs) && base + |cs| <= v.cur / 64 <= |v.m|
    ensures Progress(sc, v.s, v.m, cs, ts, vs, {}, base, base + |cs|, v.cur / 64)
    ensures v.cur == v0.cur + 64 * (|cs| + BlocksOf(ts)) && v.cur < end && v.cur % 64 == 0
    ensures PermutesRange(v1.s, v.s, r.begin, r.end) && KeptBelow(v0.m, v.m, base)
  {
    hide Group, Progress, Budget, PermutesRange, BlocksOf, KeptBelow, LeafRecord;
  }

  lemma NodeFinished(sc: Scene, v0: State, v1: State, v: State, v2: State, end: nat, r: Record, cs: seq<Record>, base: nat,
                     done: Outcome, vs: seq<Value>, ts: seq<Tree>, addr: nat, mask: bv8)
    requires ChildrenDone(sc, v1, v, end, r, cs, base, done, vs, ts) && done.Done?
    requires Worthwhile(sc, r, cs) && !LeafRecord(r) && addr < base
    requires PermutesRange(v0.s, v1.s, r.begin, r.end) && v1.m == v0.m && v0.cur == 64 * base
    requires v2.s == v.s && v2.cur == v.cur && OnlyAt(v.m, v2.m, addr)
    requires NodeAt(v2.m, sc.masks, addr, NODE_TYPE_INTERNAL, KidsOf(ts)) && mask == MaskOf(sc.masks, AllPrims(KidsOf(ts)))
    ensures Outcomes(sc, v0, v2, end, r, addr, Done(mask), Inner(addr, ts))
  {
    hide Stored, Group, PermutesRange, Blocks, Need, Worthwhile, LeafRecord, NodeAt, OnlyAt, MaskOf, AllPrims, Progress, Kept, KeptBelow,
      ChildrenDone;
    ChildrenReady(sc, v0, v1, v, end, r, cs, base, done, vs, ts);
    ProgressLength(sc, v.s, v.m, cs, ts, vs, base, base + |cs|, v.cur / 64);
    InnerStored(sc, v.s, v.m, v2.m, r, cs, ts, vs, base, v.cur / 64, addr, mask);
    InnerCounts(addr, ts);
    PermutesTrans(v0.s, v1.s, v.s, r.begin, r.end, r.begin, r.end);
    KeptBoth(v0.m, v.m, v2.m, addr, base);
  }

  lemma KeptBoth(m: seq<Block>, m1: seq<Block>, m2: seq<Block>, addr: nat, base: nat)
    requires KeptBelow(m, m1, base) && OnlyAt(m1, m2, addr)
    ensures Kept(m, m2, addr, base)
  {
  }

  lemma NoCapacity(leaf: nat, d: nat)
    requires MAX_DEPTH < d
    ensures Capacity(leaf, d) == 0
  {
  }

  /** The halves of a large leaf: six, or at most five leaves. */
  lemma HalvedChildren(sc: Scene, s: seq<PrimRef>, r: Record, cs: seq<Record>)
    requires Group(sc, s, r.begin, r.end, cs) && 2 <= |cs| && OneBelow(cs, r.depth, r.ty) && r.ty.Some?
    requires LeafSize(r.ty) < r.Size() && Sizes(cs) == Spread([r.Size()], LeafSize(r.ty))
    ensures Worthwhile(sc, r, cs)
    ensures forall i: nat :: i < |cs| ==> cs[i].ty == r.ty && cs[i].depth == r.depth + 1 && cs[i].Size() < r.Size()
  {
    hide Group, Spread;
    SpreadLimits(r.Size(), LeafSize(r.ty));
    forall i: nat | i < |cs|
      ensures cs[i].Size() < r.Size() && (|cs| < BVH_WIDTH ==> cs[i].Size() <= LeafSize(r.ty))
    {
      GroupPart(sc, s, r, cs, i);
      assert cs[i].Size() == Sizes(cs)[i];
    }
  }

  lemma GroupPart(sc: Scene, s: seq<PrimRef>, r: Record, cs: seq<Record>, i: nat)
    requires Group(sc, s, r.begin, r.end, cs) && i < |cs| && 2 <= |cs|
    ensures cs[i].Size() < r.Size()
  {
    GroupRange(sc, s, r, cs);
    PartSmaller(s, r.begin, r.end, cs, i);
  }

  lemma LargeDepth(sc: Scene, s: seq<PrimRef>, r: Record, cs: seq<Record>)
    requires LeafSize(r.ty) < r.Size() && Sizes(cs) == Spread([r.Size()], LeafSize(r.ty)) && r.depth <= MAX_DEPTH
    ensures r.Size() <= Capacity(LeafSize(r.ty), r.depth) <==>
            forall i: nat :: i < |cs| ==> cs[i].Size() <= Capacity(LeafSize(r.ty), r.depth + 1)
  {
    hide Spread, Capacity;
    CapacitySpread(r.Size(), LeafSize(r.ty), r.depth);
    assert forall i: nat :: i < |cs| ==> cs[i].Size() == Sizes(cs)[i];
  }

  /** No memory for the child nodes. */
  lemma NodeRefused(sc: Scene, v0: State, v: State, end: nat, r: Record, cs: seq<Record>, addr: nat, t: Tree)
    requires PermutesRange(v0.s, v.s, r.begin, r.end) && v.m == v0.m && v0.cur <= v.cur && v.cur % 64 == 0
    requires Group(sc, v.s, r.begin, r.end, cs) && Worthwhile(sc, r, cs) && !LeafRecord(r)
    requires end <= v0.cur + 64 * |cs|
    ensures Outcomes(sc, v0, v, end, r, addr, OutOfMemory, t)
  {
    hide LeafRecord, PermutesRange, Group, Worthwhile, Need, Sum, Needs;
    NeedsCovered(sc, v.s, r, cs);
  }

  lemma NeedsCovered(sc: Scene, s: seq<PrimRef>, r: Record, cs: seq<Record>)
    requires Group(sc, s, r.begin, r.end, cs) && Worthwhile(sc, r, cs) && !LeafRecord(r)
    ensures 0 <= Sum(Needs(sc, cs)) && 5 * |cs| + Sum(Needs(sc, cs)) <= Need(sc, r)
  {
    hide LeafRecord, ValidRecord, Gather, Sum, Need;
    GroupMember(sc, s, r.begin, r.end, cs, 0);
    NeedCoversChildren(sc, s, r, cs);
    forall i: nat | i < |cs|
      ensures 0 <= Needs(sc, cs)[i]
    {
      NeedPositive(sc, cs[i]);
    }
    SumOne(Needs(sc, cs), 0);
  }

  /** A child that stopped stops its parent. */
  lemma NodeStops(sc: Scene, v0: State, v1: State, v: State, end: nat, r: Record, cs: seq<Record>, base: nat, out: Outcome,
                  vs: seq<Value>, ts: seq<Tree>, addr: nat, t: Tree)
    requires ChildrenDone(sc, v1, v, end, r, cs, base, out, vs, ts) && !out.Done? && Worthwhile(sc, r, cs) && !LeafRecord(r)
    requires PermutesRange(v0.s, v1.s, r.begin, r.end) && v1.m == v0.m && v0.cur == 64 * base && v1.cur == v0.cur + 64 * |cs|
    ensures Outcomes(sc, v0, v, end, r, addr, out, t)
  {
    hide LeafRecord, PermutesRange, Group, Worthwhile, Need, Sum, Needs, Running, Unstorable, Slice;
    PermutesTrans(v0.s, v1.s, v.s, r.begin, r.end, r.begin, r.end);
    PermutesUnstorable(sc, v0.s, v.s, r);
    NeedsCovered(sc, v.s, r, cs);
  }

  /** Smaller, or of known type where the other's is unknown. */
  ghost predicate Smaller(c: Record, r: Record) {
    c.Size() < r.Size() || (c.Size() == r.Size() && c.ty.Some? && r.ty.None?)
  }

  lemma TypeFound(sc: Scene, s: seq<PrimRef>, r: Record, ty: Option<PType>)
    requires ValidRecord(sc, s, r) && r.ty.None?
    requires ty.Some? ==> forall q :: r.begin <= q < r.end ==> sc.typeOf(s[q].geomID) == ty.value
    requires ty.None? ==> exists q :: r.begin <= q < r.end && sc.typeOf(s[q].geomID) != sc.typeOf(s[r.begin].geomID)
    ensures ValidRecord(sc, s, r.(ty := ty))
    ensures ty.None? ==> Mixed(sc, s, r.begin, r.end) && sc.only.None?
  {
    forall q | r.begin <= q < r.end
      ensures Subset(s[q].bounds, r.bounds)
    {
      assert Fits(sc, r, s[q]);
    }
    PartValid(sc, s, r, r.(ty := ty));
    if ty.None? {
      MixedScene(sc, s, r);
    }
  }

  lemma SameDepth(r: Record, c: Record)
    requires c == r.(ty := c.ty) && (r.ty.Some? ==> c == r)
    ensures DepthOK(r) ==> DepthOK(c)
  {
  }

  lemma LeafDepth(c: Record)
    ensures DepthOK(c) ==> c.Size() <= Capacity(LeafSize(c.ty), c.depth)
  {
    hide Capacity;
    if DepthOK(c) {
      CapacityMono(6, LeafSize(c.ty), MAX_DEPTH - MIN_LARGE_LEAF_LEVELS + 1, c.depth);
    }
  }

  /** The result for a record whose type was found counts for the record. */
  lemma Retyped(sc: Scene, v0: State, v: State, end: nat, r: Record, c: Record, addr: nat, out: Outcome, t: Tree)
    requires c == r.(ty := c.ty) && (r.ty.Some? ==> c == r) && 1 <= r.Size()
    requires Outcomes(sc, v0, v, end, c, addr, out, t)
    ensures Outcomes(sc, v0, v, end, r, addr, out, t)
    ensures out.Done? && LeafRecord(c) ==> Nodes(t) == 1
  {
    hide PermutesRange, Kept, Blocks, Nodes;
    NeedLess(sc, r, c);
    if out.Done? {
      StoredAs(sc, v.s, v.m, r, c, addr, v0.cur / 64, v.cur / 64, t, out.mask);
    }
  }

  lemma NeedLess(sc: Scene, r: Record, c: Record)
    requires c == r.(ty := c.ty) && (r.ty.Some? ==> c == r) && 1 <= r.Size()
    ensures Need(sc, c) <= Need(sc, r)
  {
    MulMono(1, r.Size(), NodeRate(sc));
  }

  lemma StoredAs(sc: Scene, s: seq<PrimRef>, m: seq<Block>, r: Record, c: Record, addr: nat, lo: nat, hi: nat, t: Tree, mask: bv8)
    requires c == r.(ty := c.ty) && (r.ty.Some? ==> c == r)
    requires Stored(sc, s, m, c, addr, lo, hi, t, mask)
    ensures Stored(sc, s, m, r, addr, lo, hi, t, mask)
    ensures LeafRecord(c) ==> Nodes(t) == 1
  {
    hide Encodes, Within, Typed, Small, Nodes, MaskOf;
  }

  lemma ChildrenSmaller(sc: Scene, s: seq<PrimRef>, r: Record, c: Record, cs: seq<Record>)
    requires c == r.(ty := c.ty) && (r.ty.Some? ==> c == r && LeafSize(r.ty) < r.Size())
    requires Group(sc, s, c.begin, c.end, cs) && Worthwhile(sc, c, cs)
    requires |cs| == 1 ==> cs[0] == c && c.Size() <= LeafSize(c.ty)
    ensures Worthwhile(sc, r, cs)
    ensures forall i: nat :: i < |cs| ==> Smaller(cs[i], r)
  {
    hide Group;
    forall i: nat | i < |cs|
      ensures Smaller(cs[i], r)
    {
      if |cs| == 1 {
        assert LeafRecord(cs[0]);
      } else {
        GroupPart(sc, s, r, cs, i);
      }
    }
  }
}
