/** Instance leaves: two blocks for every reference
    (rtbuild/qbvh6_builder_sah.h:496-527). */
module Instances {
  import opened Common
  import opened Geometry
  import opened PrimLeafDesc
  import opened QNode
  import opened Bvh
  import opened Hulls
  import opened NodeWriter
  import opened Records
  import opened Decisions
  import opened Subtrees
  import opened LeafWriter
  import opened Procedurals

  function InstanceKids(p: seq<PrimRef>, base: nat): (kids: seq<Kid>)
    ensures |kids| == |p| && forall j: nat :: j < |p| ==> kids[j] == Kid(base + 2 * j, 0, [p[j]])
  {
    seq(|p|, j requires 0 <= j < |p| => Kid(base + 2 * j, 0, [p[j]]))
  }

  function InstanceEntries(p: seq<PrimRef>): (es: seq<Entry>)
    ensures |es| == |p| && forall j: nat :: j < |p| ==> es[j] == Entry(p[j].bounds, 2, 0)
  {
    seq(|p|, j requires 0 <= j < |p| => Entry(p[j].bounds, 2, 0))
  }

  lemma {:induction false} TwoBlocksEach(p: seq<PrimRef>, j: nat)
    requires j <= |p|
    ensures BlocksBefore(InstanceEntries(p), j) == 2 * j
  {
    if 0 < j {
      TwoBlocksEach(p, j - 1);
    }
  }

  lemma InstancesDescribe(p: seq<PrimRef>, base: nat)
    ensures Describes(InstanceEntries(p), InstanceKids(p, base), base)
  {
    forall j: nat | j < |p|
      ensures KidEntry(InstanceEntries(p), InstanceKids(p, base)[j], base, j)
    {
      TwoBlocksEach(p, j);
      HullOne(p[j]);
    }
  }

  lemma {:induction false} InstanceBlocks(p: seq<PrimRef>, base: nat, n: nat)
    requires n <= |p|
    ensures LeafBlocks(Instance, InstanceKids(p, base)[..n]) == 2 * n
  {
    var kids := InstanceKids(p, base);
    if 0 < n {
      InstanceBlocks(p, base, n - 1);
      assert kids[..n][..n - 1] == kids[..n - 1];
    }
  }

  /** The leaves of the first n references. */
  ghost predicate InstancesAt(sc: Scene, m: seq<Block>, p: seq<PrimRef>, base: nat, n: nat) {
    n <= |p| && forall j: nat :: j < n ==> ListAt(m, sc.masks, Instance, Kid(base + 2 * j, 0, [p[j]]))
  }

  lemma InstancesStep(sc: Scene, m: seq<Block>, m1: seq<Block>, p: seq<PrimRef>, base: nat, n: nat)
    requires InstancesAt(sc, m, p, base, n) && n < |p| && base + 2 * n + 1 < |m|
    requires m1 == m[base + 2 * n := InstanceBlock(p[n].geomID, p[n].primID, sc.masks.of(p[n].geomID))][base + 2 * n + 1 := InstancePart1]
    ensures InstancesAt(sc, m1, p, base, n + 1)
  {
    forall j: nat | j < n + 1
      ensures ListAt(m1, sc.masks, Instance, Kid(base + 2 * j, 0, [p[j]]))
    {
      if j < n {
        assert ListAt(m, sc.masks, Instance, Kid(base + 2 * j, 0, [p[j]]));
      }
    }
  }

  method WriteLeaf(mem: array<Block>, a: nat, b: Block)
    requires a + 1 < mem.Length
    modifies mem
    ensures mem[..] == old(mem[..])[a := b][a + 1 := InstancePart1]
    ensures OnlyIn(old(mem[..]), mem[..], a, a + 2)
  {
    mem[a] := b;
    mem[a + 1] := InstancePart1;
  }

  method FillInstances(sc: Scene, prims: array<PrimRef>, mem: array<Block>, r: Record, childData: nat)
    returns (es: seq<Entry>, mask: bv8)
    requires r.begin < r.end <= prims.Length && childData + 2 * r.Size() <= mem.Length
    modifies mem
    ensures OnlyIn(old(mem[..]), mem[..], childData, childData + 2 * r.Size())
    ensures InstancesAt(sc, mem[..], Slice(prims[..], r), childData, r.Size())
    ensures es == InstanceEntries(Slice(prims[..], r)) && mask == MaskOf(sc.masks, Slice(prims[..], r))
  {
    hide MaskOf, InstancesAt, OnlyIn;
    ghost var p := Slice(prims[..], r);
    es, mask := [], 0;
    InstancesNone(sc, mem[..], p, childData, childData + 2 * r.Size());
    for i := r.begin to r.end
      invariant OnlyIn(old(mem[..]), mem[..], childData, childData + 2 * r.Size())
      invariant InstancesAt(sc, mem[..], p, childData, i - r.begin)
      invariant es == InstanceEntries(p[..i - r.begin]) && mask == MaskOf(sc.masks, p[..i - r.begin])
    {
      ghost var m := mem[..];
      var c := i - r.begin;
      var x := prims[i];
      assert x == p[c];
      MaskStep(sc.masks, p, c);
      WriteLeaf(mem, childData + 2 * c, InstanceBlock(x.geomID, x.primID, sc.masks.of(x.geomID)));
      InstancesStep(sc, m, mem[..], p, childData, c);
      OnlyInSub(old(mem[..]), m, mem[..], childData, childData + 2 * r.Size(), childData + 2 * c, childData + 2 * c + 2);
      es := es + [Entry(x.bounds, 2, 0)];
      mask := mask | sc.masks.of(x.geomID);
    }
    assert p[..r.Size()] == p;
  }

  lemma InstancesNone(sc: Scene, m: seq<Block>, p: seq<PrimRef>, base: nat, hi: nat)
    ensures InstancesAt(sc, m, p, base, 0) && MaskOf(sc.masks, p[..0]) == 0 && OnlyIn(m, m, base, hi)
    ensures InstanceEntries(p[..0]) == []
  {
  }

  lemma OnlyInSub(m: seq<Block>, m1: seq<Block>, m2: seq<Block>, lo: nat, hi: nat, lo1: nat, hi1: nat)
    requires OnlyIn(m, m1, lo, hi) && OnlyIn(m1, m2, lo1, hi1) && lo <= lo1 && hi1 <= hi
    ensures OnlyIn(m, m2, lo, hi)
  {
  }

  lemma InstancesValid(sc: Scene, s: seq<PrimRef>, r: Record)
    requires ValidRecord(sc, s, r)
    ensures forall e :: e in InstanceEntries(Slice(s, r)) ==> e.Valid() && Subset(e.bounds, r.bounds)
  {
    hide ValidRecord, Subset;
    var p := Slice(s, r);
    forall j: nat | j < |p|
      ensures InstanceEntries(p)[j].Valid() && Subset(InstanceEntries(p)[j].bounds, r.bounds)
    {
      SliceFits(sc, s, r, p[j]);
    }
  }

  /** createInstances behind its allocation. */
  method WriteInstances(sc: Scene, prims: array<PrimRef>, mem: array<Block>, r: Record, addr: nat, childData: nat)
    returns (mask: bv8, ghost t: Tree)
    requires ValidRecord(sc, prims[..], r) && r.ty == Some(Instance) && r.Size() <= NUM_CHILDREN
    requires r.begin < r.end <= prims.Length
    requires addr < childData && childData + 2 * r.Size() <= mem.Length < 0x8000_0000
    modifies mem
    ensures Kept(old(mem[..]), mem[..], addr, childData)
    ensures Stored(sc, prims[..], mem[..], r, addr, childData, childData + 2 * r.Size(), t, mask) && Blocks(t) == 2 * r.Size()
    ensures t.Fat? && t.ty == Instance && ListPrims(t.lists) == PrimsOf(Singles(Part(Slice(prims[..], r), r.ty)))
  {
    hide ListAt, MaskOf, NodeAt, ValidRecord, Stored, Describes, AllPrims, InstancesAt, LeafBlocks, Kept, OnlyIn, OnlyAt,
      InstanceEntries, InstanceKids, Subset, Proper, Slice;
    ghost var p := Slice(prims[..], r);
    ghost var kids := InstanceKids(p, childData);
    var es;
    es, mask := FillInstances(sc, prims, mem, r, childData);
    ghost var m := mem[..];
    RecordBounds(sc, prims[..], r);
    InstancesValid(sc, prims[..], r);
    InstancesDescribe(p, childData);
    SinglesAll(kids, p);
    BoundsAreHull(sc, prims[..], r);
    WriteNode(mem, addr, r.bounds, NODE_TYPE_INSTANCE, childData, mask, es, kids, sc.masks);
    KeptAfter(old(mem[..]), m, mem[..], addr, childData, childData + 2 * r.Size());
    InstancesStored(sc, prims[..], m, mem[..], r, addr, childData, mask);
    t := Fat(addr, Instance, kids);
  }

  lemma InstancesStored(sc: Scene, s: seq<PrimRef>, m: seq<Block>, m1: seq<Block>, r: Record, addr: nat, childData: nat, mask: bv8)
    requires ValidRecord(sc, s, r) && r.ty == Some(Instance) && 1 <= r.Size()
    requires InstancesAt(sc, m, Slice(s, r), childData, r.Size()) && addr < childData
    requires NodeAt(m1, sc.masks, addr, NODE_TYPE_INSTANCE, InstanceKids(Slice(s, r), childData)) && OnlyAt(m, m1, addr)
    requires mask == MaskOf(sc.masks, Slice(s, r)) && |Slice(s, r)| == r.Size()
    ensures var kids := InstanceKids(Slice(s, r), childData);
      && Stored(sc, s, m1, r, addr, childData, childData + 2 * r.Size(), Fat(addr, Instance, kids), mask)
      && LeafBlocks(Instance, kids) == 2 * r.Size()
  {
    hide ListAt, MaskOf, NodeAt, ValidRecord, Stored, AllPrims, LeafBlocks, Slice, OnlyAt;
    var p := Slice(s, r);
    var kids := InstanceKids(p, childData);
    SinglesAll(kids, p);
    InstanceBlocks(p, childData, |p|);
    assert kids[..|p|] == kids;
    InstancePerRef(sc, s, r);
    FatStored(sc, s, m, m1, r, addr, childData, childData + 2 * r.Size(), Instance, kids, mask);
  }

  lemma InstancePerRef(sc: Scene, s: seq<PrimRef>, r: Record)
    requires ValidRecord(sc, s, r) && r.ty == Some(Instance)
    ensures PerRef(sc) == 2
  {
    assert Fits(sc, r, s[r.begin]);
  }
}
