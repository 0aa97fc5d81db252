/** Procedural leaves: neighbouring references of the same geometry index share a
    64-byte block, each with a slot of its own (rtbuild/qbvh6_builder_sah.h:253-298, 448-493
    and rtbuild/leaf.h:670-735). */
module Procedurals {
  import opened Common
  import opened Geometry
  import opened PrimLeafDesc
  import opened QNode
  import opened Bvh
  import opened Hulls
  import opened NodeWriter
  import opened Records
  import opened Decisions
  import opened Subtrees
  import opened LeafWriter

  /** Slots of a block. */
  const SLOTS: nat := 13

  /** Leaf headers are compared by geometry index. */
  predicate SameIndex(x: PrimRef, y: PrimRef) {
    GeomIndex(x.geomID) == GeomIndex(y.geomID)
  }

  /** Headers admit the geometries of all references. */
  predicate Admitted(masks: Masks, x: PrimRef) {
    x.geomID <= MAX_GEOM_INDEX && x.geomID < masks.count
  }

  /** The block of reference j: the number of index changes up to it. */
  function BlockNo(p: seq<PrimRef>, j: nat): nat
    requires j < |p|
  {
    if j == 0 then 0 else BlockNo(p, j - 1) + if SameIndex(p[j], p[j - 1]) then 0 else 1
  }

  /** The slot of reference j in its block. */
  function SlotNo(p: seq<PrimRef>, j: nat): (k: nat)
    requires j < |p|
    ensures k <= j
  {
    if j == 0 || !SameIndex(p[j], p[j - 1]) then 0 else SlotNo(p, j - 1) + 1
  }

  lemma {:induction false} NumbersPrefix(p: seq<PrimRef>, q: seq<PrimRef>, j: nat)
    requires j < |p| <= |q| && q[..|p|] == p
    ensures BlockNo(q, j) == BlockNo(p, j) && SlotNo(q, j) == SlotNo(p, j)
  {
    assert q[j] == q[..|p|][j];
    if 0 < j {
      assert q[j - 1] == q[..|p|][j - 1];
      NumbersPrefix(p, q, j - 1);
    }
  }

  lemma {:induction false} BlockNoMono(p: seq<PrimRef>, i: nat, j: nat)
    requires i <= j < |p|
    ensures BlockNo(p, i) <= BlockNo(p, j)
    decreases j
  {
    if i < j {
      BlockNoMono(p, i, j - 1);
    }
  }

  /** The first reference in the block of reference j. */
  function HeadOf(p: seq<PrimRef>, j: nat): (h: nat)
    requires j < |p|
    ensures h <= j
  {
    j - SlotNo(p, j)
  }

  /** A block has one geometry index, that of its first reference. */
  lemma {:induction false} HeadIndex(p: seq<PrimRef>, j: nat)
    requires j < |p|
    ensures SameIndex(p[HeadOf(p, j)], p[j])
  {
    if 0 < j && SameIndex(p[j], p[j - 1]) {
      HeadIndex(p, j - 1);
    }
  }

  /** Reference j stands in its block and slot; the header of the block is that
      of its first reference. */
  ghost predicate SlotAt(sc: Scene, m: seq<Block>, base: nat, p: seq<PrimRef>, j: nat)
    requires j < |p|
  {
    var a := base + BlockNo(p, j);
    && a < |m| && m[a].ProceduralBlock? && SlotNo(p, j) < |m[a].primIndex| == |m[a].lasts|
    && Admitted(sc.masks, p[j]) && m[a].geomIndex == GeomIndex(p[j].geomID) && m[a].primIndex[SlotNo(p, j)] == p[j].primID
    && m[a].lasts[SlotNo(p, j)] && m[a].mask == sc.masks.of(p[HeadOf(p, j)].geomID)
  }

  /** The blocks from base on hold the references p; cur is the block in use. */
  ghost predicate Filled(sc: Scene, m: seq<Block>, base: nat, p: seq<PrimRef>, cur: nat) {
    && base + cur < |m| && m[base + cur].ProceduralBlock? && |m[base + cur].primIndex| == |m[base + cur].lasts|
    && (if p == [] then cur == 0 && m[base + cur].primIndex == []
        else cur == BlockNo(p, |p| - 1) && |m[base + cur].primIndex| == SlotNo(p, |p| - 1) + 1)
    && forall j: nat :: j < |p| ==> SlotAt(sc, m, base, p, j)
  }

  /** The block after another reference of its geometry index was added; the
      first one gives it its header. */
  function Added(b: Block, x: PrimRef, mask: bv8): Block
    requires b.ProceduralBlock?
  {
    if b.primIndex == [] then ProceduralBlock(GeomIndex(x.geomID), mask, [x.primID], b.lasts + [true])
    else ProceduralBlock(b.geomIndex, b.mask, b.primIndex + [x.primID], b.lasts + [true])
  }

  /** The numbers of an added reference. */
  lemma NextNumbers(p: seq<PrimRef>, x: PrimRef)
    ensures p == [] ==> BlockNo(p + [x], |p|) == 0 && SlotNo(p + [x], |p|) == 0
    ensures p != [] && SameIndex(x, p[|p| - 1]) ==>
      BlockNo(p + [x], |p|) == BlockNo(p, |p| - 1) && SlotNo(p + [x], |p|) == SlotNo(p, |p| - 1) + 1
    ensures p != [] && !SameIndex(x, p[|p| - 1]) ==>
      BlockNo(p + [x], |p|) == BlockNo(p, |p| - 1) + 1 && SlotNo(p + [x], |p|) == 0
  {
    if p != [] {
      NumbersPrefix(p, p + [x], |p| - 1);
    }
  }

  /** Nothing is lost from a block, it may only grow. */
  ghost predicate Grows(b: Block, b1: Block) {
    b1 == b || (b.ProceduralBlock? && b1.ProceduralBlock? && b1.geomIndex == b.geomIndex && b1.mask == b.mask
      && b.primIndex <= b1.primIndex && b.lasts <= b1.lasts && |b1.primIndex| == |b1.lasts|)
  }

  /** A stored reference stays where it is when one is added behind. */
  lemma SlotKept(sc: Scene, m: seq<Block>, m1: seq<Block>, base: nat, p: seq<PrimRef>, x: PrimRef, j: nat)
    requires j < |p| && SlotAt(sc, m, base, p, j) && |m1| == |m|
    requires Grows(m[base + BlockNo(p, j)], m1[base + BlockNo(p, j)])
    ensures SlotAt(sc, m1, base, p + [x], j)
  {
    hide BlockNo, SlotNo;
    NumbersPrefix(p, p + [x], j);
  }

  lemma FilledSame(sc: Scene, m: seq<Block>, base: nat, p: seq<PrimRef>, cur: nat, x: PrimRef)
    requires Filled(sc, m, base, p, cur) && Admitted(sc.masks, x) && (p != [] ==> SameIndex(x, p[|p| - 1]))
    ensures BlockNo(p + [x], |p|) == cur && SlotNo(p + [x], |p|) == |m[base + cur].primIndex|
    ensures Filled(sc, m[base + cur := Added(m[base + cur], x, sc.masks.of(x.geomID))], base, p + [x], cur)
  {
    hide BlockNo, SlotNo, SlotAt, Admitted;
    var m1 := m[base + cur := Added(m[base + cur], x, sc.masks.of(x.geomID))];
    NextNumbers(p, x);
    forall j: nat | j < |p|
      ensures SlotAt(sc, m1, base, p + [x], j)
    {
      SlotBlock(sc, m, base, p, j);
      SlotKept(sc, m, m1, base, p, x, j);
    }
    SameSlot(sc, m, base, p, cur, x);
  }

  lemma SlotBlock(sc: Scene, m: seq<Block>, base: nat, p: seq<PrimRef>, j: nat)
    requires j < |p| && SlotAt(sc, m, base, p, j)
    ensures base + BlockNo(p, j) < |m|
  {
    hide BlockNo, SlotNo, Admitted;
  }

  /** The reference added to the block in use. */
  lemma SameSlot(sc: Scene, m: seq<Block>, base: nat, p: seq<PrimRef>, cur: nat, x: PrimRef)
    requires Filled(sc, m, base, p, cur) && Admitted(sc.masks, x) && (p != [] ==> SameIndex(x, p[|p| - 1]))
    ensures SlotAt(sc, m[base + cur := Added(m[base + cur], x, sc.masks.of(x.geomID))], base, p + [x], |p|)
  {
    hide BlockNo, SlotNo, Admitted;
    NextNumbers(p, x);
    if p != [] {
      assert SlotAt(sc, m, base, p, |p| - 1);
      assert (p + [x])[HeadOf(p, |p| - 1)] == p[HeadOf(p, |p| - 1)];
    }
  }

  lemma FilledNew(sc: Scene, m: seq<Block>, base: nat, p: seq<PrimRef>, cur: nat, x: PrimRef)
    requires Filled(sc, m, base, p, cur) && p != [] && !SameIndex(x, p[|p| - 1]) && base + cur + 1 < |m| && Admitted(sc.masks, x)
    ensures BlockNo(p + [x], |p|) == cur + 1 && SlotNo(p + [x], |p|) == 0
    ensures Filled(sc, m[base + cur + 1 := ProceduralBlock(GeomIndex(x.geomID), sc.masks.of(x.geomID), [x.primID], [true])], base, p + [x], cur + 1)
  {
    hide BlockNo, SlotNo, SlotAt, Admitted;
    var m1 := m[base + cur + 1 := ProceduralBlock(GeomIndex(x.geomID), sc.masks.of(x.geomID), [x.primID], [true])];
    NextNumbers(p, x);
    forall j: nat | j < |p|
      ensures SlotAt(sc, m1, base, p + [x], j)
    {
      SlotBlock(sc, m, base, p, j);
      BlockNoMono(p, j, |p| - 1);
      SlotKept(sc, m, m1, base, p, x, j);
    }
    NewSlot(sc, m1, base, p + [x], |p|);
  }

  lemma NewSlot(sc: Scene, m: seq<Block>, base: nat, q: seq<PrimRef>, j: nat)
    requires j < |q| && SlotNo(q, j) == 0 && Admitted(sc.masks, q[j]) && base + BlockNo(q, j) < |m|
    requires m[base + BlockNo(q, j)] == ProceduralBlock(GeomIndex(q[j].geomID), sc.masks.of(q[j].geomID), [q[j].primID], [true])
    ensures SlotAt(sc, m, base, q, j)
  {
    hide BlockNo, SlotNo, Admitted, GeomIndex;
  }

  lemma FilledCurrent(sc: Scene, m: seq<Block>, base: nat, p: seq<PrimRef>, cur: nat)
    requires Filled(sc, m, base, p, cur)
    ensures base + cur < |m| && m[base + cur].ProceduralBlock? && |m[base + cur].primIndex| <= |p|
    ensures p == [] <==> m[base + cur].primIndex == []
    ensures p != [] ==> m[base + cur].geomIndex == GeomIndex(p[|p| - 1].geomID) && cur == BlockNo(p, |p| - 1)
    ensures p != [] ==> |m[base + cur].primIndex| == SlotNo(p, |p| - 1) + 1
  {
    hide BlockNo, SlotNo, Admitted;
    if p != [] {
      assert SlotAt(sc, m, base, p, |p| - 1);
    }
  }

  /** Every block carries the mask of each of its geometries, whatever the
      references are, exactly when geometries of the same index have the same
      mask. */
  lemma OwnMasksIff(masks: Masks)
    ensures (forall p: seq<PrimRef>, j: nat :: j < |p| && AllAdmit(masks, p) ==> masks.of(p[HeadOf(p, j)].geomID) == masks.of(p[j].geomID))
       <==> MasksAgree(masks)
  {
    if MasksAgree(masks) {
      forall p: seq<PrimRef>, j: nat | j < |p| && AllAdmit(masks, p)
        ensures masks.of(p[HeadOf(p, j)].geomID) == masks.of(p[j].geomID)
      {
        HeadIndex(p, j);
        assert p[HeadOf(p, j)] in p && p[j] in p;
        assert OneHeader(masks, p[HeadOf(p, j)].geomID, p[j].geomID);
      }
    } else {
      var g: nat, h: nat :| OneHeader(masks, g, h) && masks.of(g) != masks.of(h);
      var p := [PrimRef(Empty, g, 0), PrimRef(Empty, h, 0)];
      assert AllAdmit(masks, p) && HeadOf(p, 1) == 0;
    }
  }

  ghost predicate AllAdmit(masks: Masks, p: seq<PrimRef>) {
    forall x :: x in p ==> Admitted(masks, x)
  }

  ghost predicate MasksAgree(masks: Masks) {
    forall g: nat, h: nat :: OneHeader(masks, g, h) ==> masks.of(g) == masks.of(h)
  }

  /** Admitted geometries of the scene with the same index. */
  predicate OneHeader(masks: Masks, g: nat, h: nat) {
    g <= MAX_GEOM_INDEX && h <= MAX_GEOM_INDEX && g < masks.count && h < masks.count && GeomIndex(g) == GeomIndex(h)
  }

  /** Packs procedurals into consecutive blocks. */
  class ProceduralLeafBuilder {
    const mem: array<Block>
    ghost const sc: Scene
    ghost const base: nat
    var data: nat
    var numBlocks: nat
    var prevBlockID: nat
    var currBlockID: nat
    ghost var added: seq<PrimRef>

    ghost predicate Valid()
      reads this, mem
    {
      && Filled(sc, mem[..], base, added, currBlockID)
      && data == base + currBlockID + 1 && data + numBlocks <= mem.Length
      && prevBlockID == currBlockID
    }

    /** The constructor followed by getCurProcedural: starts with an empty block. */
    constructor (mem: array<Block>, ghost sc: Scene, data: nat, numBlocks: nat)
      requires 1 <= numBlocks && data + numBlocks <= mem.Length
      modifies mem
      ensures Valid() && this.mem == mem && this.sc == sc && base == data && added == [] && this.numBlocks == numBlocks - 1
      ensures currBlockID == 0 && OnlyAt(old(mem[..]), mem[..], data)
    {
      this.mem := mem;
      this.sc := sc;
      this.base := data;
      this.data := data + 1;
      this.numBlocks := numBlocks - 1;
      prevBlockID := 0;
      currBlockID := 0;
      added := [];
      new;
      mem[data] := ProceduralBlock(GeomIndex(MAX_GEOM_INDEX), 0, [], []);
    }

    /** Adds a reference; returns how many blocks to advance and its slot. */
    method AddProcedural(x: PrimRef, mask: bv8) returns (blockDelta: nat, currPrim: nat)
      requires Valid() && mask == sc.masks.of(x.geomID) && |added| < SLOTS && Admitted(sc.masks, x)
      requires added != [] && !SameIndex(x, added[|added| - 1]) ==> 1 <= numBlocks
      modifies this, mem
      ensures Valid() && added == old(added) + [x]
      ensures blockDelta == currBlockID - old(currBlockID) && currBlockID == BlockNo(added, |added| - 1)
      ensures currPrim == SlotNo(added, |added| - 1) && blockDelta <= 1
      ensures numBlocks + currBlockID == old(numBlocks + currBlockID)
      ensures OnlyIn(old(mem[..]), mem[..], base, base + currBlockID + 1)
    {
      hide Filled, BlockNo, SlotNo, Admitted, GeomIndex;
      FilledCurrent(sc, mem[..], base, added, currBlockID);
      var curr := data - 1;
      var b := mem[curr];
      if |b.primIndex| < SLOTS && (b.primIndex == [] || b.geomIndex == GeomIndex(x.geomID)) {
        FilledSame(sc, mem[..], base, added, currBlockID, x);
        mem[curr] := Added(b, x, mask);
      } else {
        FilledNew(sc, mem[..], base, added, currBlockID, x);
        mem[data] := ProceduralBlock(GeomIndex(x.geomID), mask, [x.primID], [true]);
        curr := data;
        data := data + 1;
        numBlocks := numBlocks - 1;
        currBlockID := currBlockID + 1;
      }
      added := added + [x];
      FilledCurrent(sc, mem[..], base, added, currBlockID);
      blockDelta := currBlockID - prevBlockID;
      currPrim := |mem[curr].primIndex| - 1;
      prevBlockID := currBlockID;
    }
  }

  // ----- the fat leaf

  function KidsFor(p: seq<PrimRef>, base: nat): (kids: seq<Kid>)
    ensures |kids| == |p|
    ensures forall j: nat :: j < |p| ==> kids[j] == Kid(base + BlockNo(p, j), SlotNo(p, j), [p[j]])
  {
    seq(|p|, j requires 0 <= j < |p| => Kid(base + BlockNo(p, j), SlotNo(p, j), [p[j]]))
  }

  /** The step to the block of reference j from that of its predecessor. */
  function Delta(p: seq<PrimRef>, j: nat): (d: nat)
    requires j < |p|
    ensures d <= 1
  {
    if j == 0 then 0 else BlockNo(p, j) - BlockNo(p, j - 1)
  }

  /** The entry of a child holds the step to the next one. */
  function EntriesFor(p: seq<PrimRef>): (es: seq<Entry>)
    ensures |es| == |p|
    ensures forall j: nat :: j < |p| ==> es[j] == Entry(p[j].bounds, if j + 1 < |p| then Delta(p, j + 1) else 0, SlotNo(p, j))
  {
    seq(|p|, j requires 0 <= j < |p| => Entry(p[j].bounds, if j + 1 < |p| then Delta(p, j + 1) else 0, SlotNo(p, j)))
  }

  lemma {:induction false} EntryBlocks(p: seq<PrimRef>, j: nat)
    requires j < |p|
    ensures BlocksBefore(EntriesFor(p), j) == BlockNo(p, j)
  {
    hide BlockNo, SlotNo, Delta, EntriesFor;
    DeltaIs(p, j);
    if 0 < j {
      EntryBlocks(p, j - 1);
    }
  }

  lemma DeltaIs(p: seq<PrimRef>, j: nat)
    requires j < |p|
    ensures BlockNo(p, j) == Delta(p, j) + if j == 0 then 0 else BlockNo(p, j - 1)
    ensures BlockNo(p, 0) == 0
  {
  }

  lemma EntriesDescribe(p: seq<PrimRef>, base: nat)
    ensures Describes(EntriesFor(p), KidsFor(p, base), base)
  {
    hide BlockNo, SlotNo, BlocksBefore;
    forall j: nat | j < |p|
      ensures KidEntry(EntriesFor(p), KidsFor(p, base)[j], base, j)
    {
      EntryBlocks(p, j);
      HullOne(p[j]);
    }
  }

  /** Kids with one reference each. */
  lemma {:induction false} SinglesAll(kids: seq<Kid>, p: seq<PrimRef>)
    requires |kids| == |p| && forall j: nat :: j < |p| ==> kids[j].prims == [p[j]]
    ensures AllPrims(kids) == p
  {
    if p != [] {
      var n := |p| - 1;
      SinglesAll(kids[..n], p[..n]);
      assert p == p[..n] + [p[n]];
    }
  }

  lemma {:induction false} ProceduralBlocks(p: seq<PrimRef>, kids: seq<Kid>, base: nat, n: nat)
    requires n < |p| == |kids| && forall j: nat :: j < |p| ==> kids[j].addr == base + BlockNo(p, j)
    ensures LeafBlocks(Procedural, kids[..n + 1]) == BlockNo(p, n) + 1 <= n + 1
  {
    hide BlockNo;
    BlockStep(p, n);
    var lists := kids[..n + 1];
    assert lists[..n] == kids[..n] && lists[n] == kids[n];
    if 0 < n {
      ProceduralBlocks(p, kids, base, n - 1);
      assert lists[n - 1] == kids[n - 1];
    }
  }

  lemma BlockStep(p: seq<PrimRef>, n: nat)
    requires n < |p|
    ensures n == 0 ==> BlockNo(p, n) == 0
    ensures 0 < n ==> BlockNo(p, n - 1) <= BlockNo(p, n) <= BlockNo(p, n - 1) + 1
  {
  }

  /** Counts the blocks; None when a header refuses its geometry ID. */
  method CountGeometries(prims: array<PrimRef>, r: Record) returns (count: Option<nat>)
    requires r.begin < r.end <= prims.Length
    ensures count.Some? ==> count.value == BlockNo(Slice(prims[..], r), r.Size() - 1) + 1
    ensures count.None? <==> AnyTooLarge(Slice(prims[..], r))
  {
    ghost var p := Slice(prims[..], r);
    var numGeometries := 1;
    assert prims[r.begin] == p[0];
    if prims[r.begin].geomID > MAX_GEOM_INDEX {
      return None;
    }
    var desc0 := GeomIndex(prims[r.begin].geomID);
    for i := r.begin + 1 to r.end
      invariant desc0 == GeomIndex(prims[i - 1].geomID)
      invariant numGeometries == BlockNo(p, i - 1 - r.begin) + 1
      invariant forall j: nat :: j < i - r.begin ==> p[j].geomID <= MAX_GEOM_INDEX
    {
      assert prims[i] == p[i - r.begin];
      if prims[i].geomID > MAX_GEOM_INDEX {
        return None;
      }
      var desc1 := GeomIndex(prims[i].geomID);
      numGeometries := numGeometries + if desc0 != desc1 then 1 else 0;
      desc0 := desc1;
    }
    count := Some(numGeometries);
  }

  /** Slots and steps of the first k references. */
  ghost predicate RangesOf(p: seq<PrimRef>, ranges: seq<(nat, nat)>, k: nat) {
    k <= |p| && |ranges| == k && forall j: nat :: j < k ==> ranges[j] == (Delta(p, j), SlotNo(p, j))
  }

  /** The loop over addProcedural. */
  method FillBlocks(sc: Scene, prims: array<PrimRef>, mem: array<Block>, r: Record, childData: nat, numGeometries: nat)
    returns (ranges: seq<(nat, nat)>, mask: bv8)
    requires r.begin < r.end <= prims.Length && r.Size() <= NUM_CHILDREN
    requires numGeometries == BlockNo(Slice(prims[..], r), r.Size() - 1) + 1 && childData + numGeometries <= mem.Length
    requires forall x :: x in Slice(prims[..], r) ==> Admitted(sc.masks, x)
    modifies mem
    ensures OnlyIn(old(mem[..]), mem[..], childData, childData + numGeometries)
    ensures RangesOf(Slice(prims[..], r), ranges, r.Size())
    ensures Filled(sc, mem[..], childData, Slice(prims[..], r), numGeometries - 1)
    ensures mask == MaskOf(sc.masks, Slice(prims[..], r))
  {
    hide Filled, RangesOf, MaskOf, BlockNo, SlotNo, OnlyIn, FillInv, Admitted;
    ghost var p := Slice(prims[..], r);
    var b := new ProceduralLeafBuilder(mem, sc, childData, numGeometries);
    ranges, mask := [], 0;
    RangesNone(sc, p);
    FillNone(b, sc, p, numGeometries);
    OnlyInWiden(old(mem[..]), mem[..], childData, childData + numGeometries);
    for i := r.begin to r.end
      invariant fresh(b) && b.mem == mem && b.base == childData
      invariant FillInv(b, sc, p, ranges, mask, i - r.begin, numGeometries)
      invariant OnlyIn(old(mem[..]), mem[..], childData, childData + numGeometries)
    {
      ghost var m := mem[..];
      ranges, mask := FillOne(sc, b, prims[i], ranges, mask, p, i - r.begin, numGeometries);
      OnlyInTrans(old(mem[..]), m, mem[..], childData, childData + numGeometries, childData + numGeometries);
    }
    FillEnd(b, sc, p, ranges, mask, numGeometries);
  }

  /** The first j references are in the builder, which has blocks for all. */
  ghost predicate FillInv(b: ProceduralLeafBuilder, sc: Scene, p: seq<PrimRef>, ranges: seq<(nat, nat)>, mask: bv8, j: nat, total: nat)
    reads b, b.mem
  {
    && b.Valid() && b.sc == sc && j <= |p| && b.added == p[..j] && b.numBlocks + b.currBlockID == total - 1
    && FillState(sc, p, ranges, mask, j, b.currBlockID)
  }

  lemma FillNone(b: ProceduralLeafBuilder, sc: Scene, p: seq<PrimRef>, total: nat)
    requires b.Valid() && b.sc == sc && b.added == [] && b.currBlockID == 0 && b.numBlocks == total - 1
    ensures FillInv(b, sc, p, [], 0, 0, total)
  {
    RangesNone(sc, p);
  }

  method FillOne(sc: Scene, b: ProceduralLeafBuilder, x: PrimRef, ranges: seq<(nat, nat)>, mask: bv8, ghost p: seq<PrimRef>,
                 ghost j: nat, ghost total: nat) returns (ranges1: seq<(nat, nat)>, mask1: bv8)
    requires FillInv(b, sc, p, ranges, mask, j, total) && j < |p| <= SLOTS && x == p[j] && Admitted(sc.masks, x)
    requires total == BlockNo(p, |p| - 1) + 1
    modifies b, b.mem
    ensures FillInv(b, sc, p, ranges1, mask1, j + 1, total)
    ensures OnlyIn(old(b.mem[..]), b.mem[..], b.base, b.base + total)
  {
    hide Filled, RangesOf, MaskOf, BlockNo, SlotNo, FillState, Admitted, SameIndex;
    ghost var cur := b.currBlockID;
    assert p[..j] + [x] == p[..j + 1];
    BlocksLeft(sc, p, ranges, mask, j, cur);
    var blockDelta, currPrim := b.AddProcedural(x, sc.masks.of(x.geomID));
    FillStep(sc, p, ranges, mask, j, cur, b.currBlockID, blockDelta, currPrim);
    ranges1 := ranges + [(blockDelta, currPrim)];
    mask1 := mask | sc.masks.of(x.geomID);
  }

  lemma OnlyInWiden(m: seq<Block>, m1: seq<Block>, lo: nat, hi: nat)
    requires OnlyAt(m, m1, lo) && lo < hi
    ensures OnlyIn(m, m1, lo, hi)
  {
  }

  lemma OnlyInTrans(m: seq<Block>, m1: seq<Block>, m2: seq<Block>, lo: nat, hi: nat, hi1: nat)
    requires OnlyIn(m, m1, lo, hi) && OnlyIn(m1, m2, lo, hi1) && hi1 <= hi
    ensures OnlyIn(m, m2, lo, hi)
  {
  }

  /** After k references: their ranges and masks, and the block in use. */
  ghost predicate FillState(sc: Scene, p: seq<PrimRef>, ranges: seq<(nat, nat)>, mask: bv8, k: nat, cur: nat) {
    && RangesOf(p, ranges, k) && mask == MaskOf(sc.masks, p[..k])
    && cur == if k == 0 then 0 else BlockNo(p, k - 1)
  }

  lemma RangesNone(sc: Scene, p: seq<PrimRef>)
    ensures FillState(sc, p, [], 0, 0, 0)
  {
  }

  lemma FillStep(sc: Scene, p: seq<PrimRef>, ranges: seq<(nat, nat)>, mask: bv8, j: nat, cur: nat, cur1: nat, blockDelta: nat,
                 currPrim: nat)
    requires FillState(sc, p, ranges, mask, j, cur) && j < |p|
    requires cur1 == BlockNo(p[..j + 1], j) && currPrim == SlotNo(p[..j + 1], j) && blockDelta == cur1 - cur
    ensures FillState(sc, p, ranges + [(blockDelta, currPrim)], mask | sc.masks.of(p[j].geomID), j + 1, cur1)
    ensures cur1 <= BlockNo(p, |p| - 1)
  {
    hide BlockNo, SlotNo, Delta, MaskOf;
    NumbersPrefix(p[..j + 1], p, j);
    MaskStep(sc.masks, p, j);
    BlockNoMono(p, j, |p| - 1);
    DeltaIs(p, j);
  }

  lemma FillEnd(b: ProceduralLeafBuilder, sc: Scene, p: seq<PrimRef>, ranges: seq<(nat, nat)>, mask: bv8, total: nat)
    requires FillInv(b, sc, p, ranges, mask, |p|, total) && p != []
    ensures RangesOf(p, ranges, |p|) && mask == MaskOf(sc.masks, p)
    ensures Filled(sc, b.mem[..], b.base, p, BlockNo(p, |p| - 1))
  {
    hide Filled, RangesOf, MaskOf, BlockNo;
    assert p[..|p|] == p;
  }

  /** A change of geometry leaves another block to use. */
  lemma BlocksLeft(sc: Scene, p: seq<PrimRef>, ranges: seq<(nat, nat)>, mask: bv8, j: nat, cur: nat)
    requires FillState(sc, p, ranges, mask, j, cur) && j < |p|
    ensures p[..j] != [] && !SameIndex(p[j], p[..j][|p[..j]| - 1]) ==> cur < BlockNo(p, |p| - 1)
  {
    BlockNoMono(p, j, |p| - 1);
  }

  lemma FilledLists(sc: Scene, m: seq<Block>, base: nat, p: seq<PrimRef>, cur: nat)
    requires Filled(sc, m, base, p, cur) && p != []
    ensures forall j: nat :: j < |p| ==> ListAt(m, sc.masks, Procedural, KidsFor(p, base)[j])
    ensures forall j: nat :: j < |p| ==> base <= KidsFor(p, base)[j].addr <= base + cur
  {
    hide ListAt, Filled, BlockNo, SlotNo;
    forall j: nat | j < |p|
      ensures ListAt(m, sc.masks, Procedural, KidsFor(p, base)[j]) && BlockNo(p, j) <= cur
    {
      FilledList(sc, m, base, p, cur, j);
    }
  }

  lemma FilledList(sc: Scene, m: seq<Block>, base: nat, p: seq<PrimRef>, cur: nat, j: nat)
    requires Filled(sc, m, base, p, cur) && j < |p|
    ensures ListAt(m, sc.masks, Procedural, Kid(base + BlockNo(p, j), SlotNo(p, j), [p[j]])) && BlockNo(p, j) <= cur
  {
    hide BlockNo, SlotNo, SlotAt;
    BlockNoMono(p, j, |p| - 1);
    SlotList(sc, m, base, p, j);
    OneInList(m, sc.masks, Kid(base + BlockNo(p, j), SlotNo(p, j), [p[j]]));
  }

  lemma OneInList(m: seq<Block>, masks: Masks, k: Kid)
    requires 0 <= k.addr < |m| && ProceduralAt(m, masks, k)
    ensures ListAt(m, masks, Procedural, k)
  {
  }

  lemma SlotList(sc: Scene, m: seq<Block>, base: nat, p: seq<PrimRef>, j: nat)
    requires j < |p| && SlotAt(sc, m, base, p, j) && SlotAt(sc, m, base, p, HeadOf(p, j))
    ensures base + BlockNo(p, j) < |m| && ProceduralAt(m, sc.masks, Kid(base + BlockNo(p, j), SlotNo(p, j), [p[j]]))
  {
    hide BlockNo, SlotNo, MaskStored, GeomIndex, HeadOf, Admitted, SameIndex, ProceduralAt;
    HeadIndex(p, j);
    var h := p[HeadOf(p, j)];
    HeadMask(sc.masks, h, p[j]);
    BlockStores(m, sc.masks, base + BlockNo(p, j), SlotNo(p, j), p[j], h);
  }

  lemma BlockStores(m: seq<Block>, masks: Masks, a: nat, slot: nat, x: PrimRef, h: PrimRef)
    requires a < |m| && m[a].ProceduralBlock? && slot < |m[a].primIndex| == |m[a].lasts|
    requires Admitted(masks, x) && m[a].geomIndex == GeomIndex(x.geomID) && m[a].primIndex[slot] == x.primID && m[a].lasts[slot]
    requires m[a].mask == masks.of(h.geomID) && MaskStored(masks, x.geomID, masks.of(h.geomID))
    ensures ProceduralAt(m, masks, Kid(a, slot, [x]))
  {
    hide MaskStored, GeomIndex;
  }

  lemma HeadMask(masks: Masks, h: PrimRef, x: PrimRef)
    requires Admitted(masks, h) && Admitted(masks, x) && SameIndex(h, x)
    ensures MaskStored(masks, x.geomID, masks.of(h.geomID))
  {
    SharedMask(masks, h.geomID, x.geomID, masks.of(h.geomID));
  }

  lemma AllAdmitted(sc: Scene, s: seq<PrimRef>, r: Record)
    requires ValidRecord(sc, s, r) && !AnyTooLarge(Slice(s, r))
    ensures forall x :: x in Slice(s, r) ==> Admitted(sc.masks, x)
  {
    forall x | x in Slice(s, r)
      ensures Admitted(sc.masks, x)
    {
      SliceFits(sc, s, r, x);
    }
  }

  /** What the node over the procedurals of a record is written from. */
  lemma ProceduralsReady(sc: Scene, s: seq<PrimRef>, r: Record, base: nat)
    requires ValidRecord(sc, s, r) && r.Size() <= NUM_CHILDREN && !AnyTooLarge(Slice(s, r))
    ensures r.begin < r.end <= |s| && Proper(r.bounds) && |Slice(s, r)| == r.Size() && r.bounds == Hull(Slice(s, r))
    ensures forall x :: x in Slice(s, r) ==> Admitted(sc.masks, x)
    ensures forall e :: e in EntriesFor(Slice(s, r)) ==> e.Valid() && Subset(e.bounds, r.bounds)
    ensures Describes(EntriesFor(Slice(s, r)), KidsFor(Slice(s, r), base), base) && AllPrims(KidsFor(Slice(s, r), base)) == Slice(s, r)
  {
    hide ValidRecord, Describes, AllPrims, EntriesFor, KidsFor, Subset, Proper, AnyTooLarge, Admitted;
    RecordBounds(sc, s, r);
    BoundsAreHull(sc, s, r);
    AllAdmitted(sc, s, r);
    ProceduralEntries(sc, s, r);
    EntriesDescribe(Slice(s, r), base);
    SinglesAll(KidsFor(Slice(s, r), base), Slice(s, r));
  }

  /** createProcedurals behind its allocation. */
  method WriteProcedurals(sc: Scene, prims: array<PrimRef>, mem: array<Block>, r: Record, addr: nat, childData: nat,
                          numGeometries: nat) returns (mask: bv8, ghost t: Tree)
    requires ValidRecord(sc, prims[..], r) && r.ty == Some(Procedural) && r.Size() <= NUM_CHILDREN
    requires r.begin < r.end <= prims.Length && !AnyTooLarge(Slice(prims[..], r))
    requires numGeometries == BlockNo(Slice(prims[..], r), r.Size() - 1) + 1
    requires addr < childData && childData + numGeometries <= mem.Length < 0x8000_0000
    modifies mem
    ensures Kept(old(mem[..]), mem[..], addr, childData)
    ensures Stored(sc, prims[..], mem[..], r, addr, childData, childData + numGeometries, t, mask) && Blocks(t) == numGeometries
    ensures t.Fat? && t.ty == Procedural && ListPrims(t.lists) == PrimsOf(Singles(Part(Slice(prims[..], r), r.ty)))
  {
    hide ListAt, MaskOf, NodeAt, ValidRecord, Stored, Describes, AllPrims, Filled, RangesOf, BlockNo, SlotNo, LeafBlocks, Kept, OnlyIn, OnlyAt,
      EntriesFor, KidsFor, Subset, Proper, Slice, AnyTooLarge, Admitted, Singles, PrimsOf, ListPrims, Entry.Valid, Hull, OnGrid;
    ghost var p := Slice(prims[..], r);
    ghost var kids := KidsFor(p, childData);
    ProceduralsReady(sc, prims[..], r, childData);
    var ranges;
    ranges, mask := FillBlocks(sc, prims, mem, r, childData, numGeometries);
    ghost var m := mem[..];
    var es := RangeEntries(prims, r, ranges);
    WriteNode(mem, addr, r.bounds, NODE_TYPE_PROCEDURAL, childData, mask, es, kids, sc.masks);
    KeptAfter(old(mem[..]), m, mem[..], addr, childData, childData + numGeometries);
    ProceduralsStored(sc, prims[..], m, mem[..], r, addr, childData, numGeometries, mask);
    t := Fat(addr, Procedural, kids);
  }

  lemma ProceduralsStored(sc: Scene, s: seq<PrimRef>, m: seq<Block>, m1: seq<Block>, r: Record, addr: nat, childData: nat,
                          numGeometries: nat, mask: bv8)
    requires ValidRecord(sc, s, r) && r.ty == Some(Procedural) && 1 <= r.Size()
    requires 1 <= numGeometries && Filled(sc, m, childData, Slice(s, r), numGeometries - 1) && addr < childData
    requires NodeAt(m1, sc.masks, addr, NODE_TYPE_PROCEDURAL, KidsFor(Slice(s, r), childData)) && OnlyAt(m, m1, addr)
    requires mask == MaskOf(sc.masks, Slice(s, r)) && |Slice(s, r)| == r.Size()
    requires numGeometries == BlockNo(Slice(s, r), r.Size() - 1) + 1
    ensures var kids := KidsFor(Slice(s, r), childData);
      && Stored(sc, s, m1, r, addr, childData, childData + numGeometries, Fat(addr, Procedural, kids), mask)
      && LeafBlocks(Procedural, kids) == numGeometries
  {
    hide ListAt, MaskOf, NodeAt, ValidRecord, Stored, AllPrims, Filled, BlockNo, SlotNo, LeafBlocks, Slice, OnlyAt;
    var p := Slice(s, r);
    var kids := KidsFor(p, childData);
    SinglesAll(kids, p);
    FilledLists(sc, m, childData, p, numGeometries - 1);
    ProceduralBlocks(p, kids, childData, |p| - 1);
    assert kids[..|p|] == kids;
    MulMono(1, PerRef(sc), |p|);
    FatStored(sc, s, m, m1, r, addr, childData, childData + numGeometries, Procedural, kids, mask);
  }

  method RangeEntries(prims: array<PrimRef>, r: Record, ranges: seq<(nat, nat)>) returns (es: seq<Entry>)
    requires r.begin < r.end <= prims.Length && RangesOf(Slice(prims[..], r), ranges, r.Size())
    ensures es == EntriesFor(Slice(prims[..], r))
  {
    hide RangesOf, EntriesFor, SlotNo, Delta;
    ghost var p := Slice(prims[..], r);
    RangesLength(p, ranges, r.Size());
    es := [];
    for i := r.begin to r.end
      invariant es == EntriesFor(p)[..i - r.begin]
    {
      var j := i - r.begin;
      RangeEntry(p, ranges, j);
      assert prims[i] == p[j];
      es := es + [Entry(prims[i].bounds, if j + 1 < |ranges| then ranges[j + 1].0 else 0, ranges[j].1)];
    }
    assert es == EntriesFor(p)[..r.Size()];
  }

  lemma RangesLength(p: seq<PrimRef>, ranges: seq<(nat, nat)>, k: nat)
    requires RangesOf(p, ranges, k)
    ensures |ranges| == k <= |p|
  {
  }

  lemma RangeEntry(p: seq<PrimRef>, ranges: seq<(nat, nat)>, j: nat)
    requires RangesOf(p, ranges, |p|) && j < |p|
    ensures |ranges| == |p|
    ensures EntriesFor(p)[j] == Entry(p[j].bounds, if j + 1 < |ranges| then ranges[j + 1].0 else 0, ranges[j].1)
  {
    hide SlotNo, Delta;
  }

  lemma ProceduralEntries(sc: Scene, s: seq<PrimRef>, r: Record)
    requires ValidRecord(sc, s, r) && r.Size() <= NUM_CHILDREN
    ensures forall e :: e in EntriesFor(Slice(s, r)) ==> e.Valid() && Subset(e.bounds, r.bounds)
  {
    hide ValidRecord, Subset, SlotNo, Delta;
    var p := Slice(s, r);
    forall j: nat | j < |p|
      ensures EntriesFor(p)[j].Valid() && Subset(EntriesFor(p)[j].bounds, r.bounds)
    {
      SliceFits(sc, s, r, p[j]);
    }
  }
}
