/** Writing inner nodes and the four kinds of fat leaves
    (rtbuild/qbvh6_builder_sah.h:342-364, 416-446). */
module LeafWriter {
  import opened Common
  import opened Geometry
  import opened PrimLeafDesc
  import opened QNode
  import opened Bvh
  import opened NodeWriter
  import opened Records
  import opened Decisions
  import opened Hulls
  import opened Subtrees

  function EntriesOf(cs: seq<Record>, vs: seq<Value>): (es: seq<Entry>)
    requires |vs| == |cs|
    ensures |es| == |cs| && forall i: nat :: i < |cs| ==> es[i] == Entry(cs[i].bounds, vs[i].blocks, 0)
  {
    seq(|cs|, i requires 0 <= i < |cs| => Entry(cs[i].bounds, vs[i].blocks, 0))
  }

  /** Only the block at addr may differ. */
  ghost predicate OnlyAt(m: seq<Block>, m1: seq<Block>, addr: nat) {
    |m1| == |m| && forall a: nat :: a < |m| && a != addr ==> m1[a] == m[a]
  }

  /** Only the blocks from lo to hi may differ. */
  ghost predicate OnlyIn(m: seq<Block>, m1: seq<Block>, lo: nat, hi: nat) {
    |m1| == |m| && forall a: nat :: a < |m| && !(lo <= a < hi) ==> m1[a] == m[a]
  }

  /** Writes the node for the entries at addr. */
  method WriteNode(mem: array<Block>, addr: nat, box: Box, ty: nat, childAddr: nat, mask: bv8, es: seq<Entry>,
                   ghost kids: seq<Kid>, ghost masks: Masks)
    requires Proper(box) && ty < 16 && 1 <= |es| <= NUM_CHILDREN
    requires forall e :: e in es ==> e.Valid() && Subset(e.bounds, box) && (ty == NODE_TYPE_INTERNAL ==> e.slot == 0)
    requires Describes(es, kids, childAddr) && box == Hull(AllPrims(kids))
    requires mask == MaskOf(masks, AllPrims(kids))
    requires addr < mem.Length < 0x8000_0000 && childAddr < mem.Length
    modifies mem
    ensures NodeAt(mem[..], masks, addr, ty, kids) && OnlyAt(old(mem[..]), mem[..], addr)
    ensures mem[addr].NodeBlock? && OnGrid(mem[addr].node, box)
  {
    hide MaskOf, AllPrims, NodeAt, Describes;
    var n := MakeNode(box, ty, addr, childAddr, mask, es, kids, masks);
    mem[addr] := NodeBlock(n);
  }

  /** The node over the children: union of the boxes, OR of the masks. */
  method SetInternalNode(sc: Scene, mem: array<Block>, addr: nat, ty: nat, childAddr: nat, cs: seq<Record>, vs: seq<Value>,
                         ghost kids: seq<Kid>) returns (mask: bv8)
    requires |vs| == |cs| == |kids| && 1 <= |cs| <= NUM_CHILDREN && ty < 16
    requires forall i: nat :: i < |cs| ==> Proper(cs[i].bounds) && vs[i].blocks < 4 && vs[i].mask == MaskOf(sc.masks, kids[i].prims)
    requires Describes(EntriesOf(cs, vs), kids, childAddr)
    requires addr < mem.Length < 0x8000_0000 && childAddr < mem.Length
    modifies mem
    ensures NodeAt(mem[..], sc.masks, addr, ty, kids) && mask == MaskOf(sc.masks, AllPrims(kids))
    ensures OnlyAt(old(mem[..]), mem[..], addr)
    ensures mem[addr].NodeBlock? && OnGrid(mem[addr].node, UnionOf(BoundsOf(cs)))
  {
    hide MaskOf, AllPrims, NodeAt, Describes, OnGrid;
    var box := UnionBox(cs);
    mask := OrOfMasks(sc, vs, kids);
    var es := EntriesOf(cs, vs);
    EntriesValid(cs, vs, box);
    UnionIsHull(cs, vs, kids, childAddr, |cs|);
    assert BoundsOf(cs)[..|cs|] == BoundsOf(cs) && kids[..|cs|] == kids;
    WriteNode(mem, addr, box, ty, childAddr, mask, es, kids, sc.masks);
  }

  /** The union of the children's boxes is the box of all references. */
  lemma {:induction false} UnionIsHull(cs: seq<Record>, vs: seq<Value>, kids: seq<Kid>, childAddr: nat, n: nat)
    requires |vs| == |cs| == |kids| && Describes(EntriesOf(cs, vs), kids, childAddr) && n <= |cs|
    requires forall i: nat :: i < |cs| ==> Proper(cs[i].bounds)
    ensures UnionOf(BoundsOf(cs)[..n]) == Hull(AllPrims(kids[..n]))
  {
    hide Hull, AllPrims, Proper, BlocksBefore;
    var bs := BoundsOf(cs);
    if n == 0 {
      HullNone();
      AllPrimsNone(kids);
    } else {
      UnionIsHull(cs, vs, kids, childAddr, n - 1);
      assert bs[..n][..n - 1] == bs[..n - 1];
      assert KidEntry(EntriesOf(cs, vs), kids[n - 1], childAddr, n - 1);
      AllPrimsStep(kids, n - 1);
      HullConcat(AllPrims(kids[..n - 1]), kids[n - 1].prims);
    }
  }

  function BoundsOf(cs: seq<Record>): (bs: seq<Box>)
    ensures |bs| == |cs| && forall i: nat :: i < |cs| ==> bs[i] == cs[i].bounds
  {
    seq(|cs|, i requires 0 <= i < |cs| => cs[i].bounds)
  }

  method UnionBox(cs: seq<Record>) returns (box: Box)
    requires forall i: nat :: i < |cs| ==> Proper(cs[i].bounds)
    ensures box == UnionOf(BoundsOf(cs)) && (cs != [] ==> Proper(box))
    ensures forall i: nat :: i < |cs| ==> Subset(cs[i].bounds, box)
  {
    hide Proper, Subset;
    box := Empty;
    ghost var bs := BoundsOf(cs);
    for i := 0 to |cs|
      invariant box == UnionOf(bs[..i])
    {
      assert bs[..i + 1][..i] == bs[..i];
      box := Extend(box, cs[i].bounds);
    }
    assert bs[..|cs|] == bs;
    forall i: nat | i < |cs|
      ensures Subset(cs[i].bounds, box)
    {
      assert bs[i] in bs;
    }
  }

  lemma EntriesValid(cs: seq<Record>, vs: seq<Value>, box: Box)
    requires |vs| == |cs| && forall i: nat :: i < |cs| ==> Proper(cs[i].bounds) && vs[i].blocks < 4 && Subset(cs[i].bounds, box)
    ensures forall e :: e in EntriesOf(cs, vs) ==> e.Valid() && Subset(e.bounds, box) && e.slot == 0
  {
    hide Subset, Proper;
  }

  method OrOfMasks(sc: Scene, vs: seq<Value>, ghost kids: seq<Kid>) returns (mask: bv8)
    requires |vs| == |kids| && forall i: nat :: i < |vs| ==> vs[i].mask == MaskOf(sc.masks, kids[i].prims)
    ensures mask == MaskOf(sc.masks, AllPrims(kids))
  {
    hide AllPrims;
    mask := 0;
    AllPrimsNone(kids);
    for i := 0 to |vs|
      invariant mask == MaskOf(sc.masks, AllPrims(kids[..i]))
    {
      AllPrimsStep(kids, i);
      MaskConcat(sc.masks, AllPrims(kids[..i]), kids[i].prims);
      mask := mask | vs[i].mask;
    }
    assert kids[..|vs|] == kids;
  }

  // ----- triangles and quads

  ghost predicate AnyTooLarge(s: seq<PrimRef>) {
    exists p :: p in s && MAX_GEOM_INDEX < p.geomID
  }

  /** The list of a child: one block per reference, the last one marked.  None
      when the header of a block refuses its geometry ID. */
  method CreateQuads(sc: Scene, prims: array<PrimRef>, mem: array<Block>, ghost ty: PType, c: Record, addr: nat)
    returns (v: Option<Value>)
    requires ty == Triangle || ty == Quad
    requires c.begin < c.end <= prims.Length && addr + c.Size() <= mem.Length
    modifies mem
    ensures OnlyIn(old(mem[..]), mem[..], addr, addr + c.Size())
    ensures v.Some? ==> ListAt(mem[..], sc.masks, ty, Kid(addr, 0, Slice(prims[..], c)))
    ensures v.Some? ==> v.value == Value(MaskOf(sc.masks, Slice(prims[..], c)), c.Size())
    ensures v.None? <==> AnyTooLarge(Slice(prims[..], c))
  {
    hide MaskOf;
    var nodeMask: bv8 := 0;
    ghost var s := Slice(prims[..], c);
    QuadsNone(sc, mem[..], s, addr);
    for i := c.begin to c.end
      invariant OnlyIn(old(mem[..]), mem[..], addr, addr + c.Size())
      invariant QuadsUpTo(sc, mem[..], s, addr, i - c.begin)
      invariant nodeMask == MaskOf(sc.masks, s[..i - c.begin])
      invariant forall j: nat :: j < i - c.begin ==> s[j].geomID <= MAX_GEOM_INDEX
    {
      var p := prims[i];
      assert p == s[i - c.begin];
      if p.geomID > MAX_GEOM_INDEX {
        return None;
      }
      ghost var m := mem[..];
      mem[addr + (i - c.begin)] := QuadBlock(GeomIndex(p.geomID), p.primID, sc.masks.of(p.geomID), i + 1 == c.end);
      nodeMask := nodeMask | sc.masks.of(p.geomID);
      MaskStep(sc.masks, s, i - c.begin);
      QuadsStep(sc, m, mem[..], s, addr, i - c.begin);
    }
    assert s[..c.Size()] == s;
    QuadsAll(sc, mem[..], s, addr, ty);
    v := Some(Value(nodeMask, c.Size()));
  }

  ghost predicate QuadsUpTo(sc: Scene, m: seq<Block>, s: seq<PrimRef>, addr: nat, n: nat) {
    && addr + |s| <= |m| && n <= |s|
    && forall j: nat :: j < n ==> QuadAt(m, sc.masks, Kid(addr, 0, s), j)
  }

  lemma QuadsNone(sc: Scene, m: seq<Block>, s: seq<PrimRef>, addr: nat)
    requires addr + |s| <= |m|
    ensures QuadsUpTo(sc, m, s, addr, 0)
    ensures MaskOf(sc.masks, s[..0]) == 0
  {
  }

  lemma QuadsStep(sc: Scene, m: seq<Block>, m1: seq<Block>, s: seq<PrimRef>, addr: nat, n: nat)
    requires QuadsUpTo(sc, m, s, addr, n) && n < |s| && s[n].geomID <= MAX_GEOM_INDEX
    requires m1 == m[addr + n := QuadBlock(GeomIndex(s[n].geomID), s[n].primID, sc.masks.of(s[n].geomID), n + 1 == |s|)]
    ensures QuadsUpTo(sc, m1, s, addr, n + 1)
  {
    forall j: nat | j < n
      ensures QuadAt(m1, sc.masks, Kid(addr, 0, s), j)
    {
      assert QuadAt(m, sc.masks, Kid(addr, 0, s), j);
    }
  }

  lemma QuadsAll(sc: Scene, m: seq<Block>, s: seq<PrimRef>, addr: nat, ty: PType)
    requires QuadsUpTo(sc, m, s, addr, |s|) && s != [] && (ty == Triangle || ty == Quad)
    ensures ListAt(m, sc.masks, ty, Kid(addr, 0, s))
  {
  }

  lemma MaskStep(masks: Masks, s: seq<PrimRef>, i: nat)
    requires i < |s|
    ensures MaskOf(masks, s[..i + 1]) == MaskOf(masks, s[..i]) | masks.of(s[i].geomID)
  {
    assert s[..i + 1][..i] == s[..i];
  }

  /** The lists of the children follow each other from childData on. */
  ghost predicate QuadLists(sc: Scene, s: seq<PrimRef>, m: seq<Block>, ty: PType, cs: seq<Record>, vs: seq<Value>, kids: seq<Kid>,
                            childData: nat)
  {
    && |vs| == |kids| <= |cs|
    && forall i: nat :: i < |kids| ==> QuadList(sc, s, m, ty, cs, vs[i], kids[i], childData, i)
  }

  ghost predicate QuadList(sc: Scene, s: seq<PrimRef>, m: seq<Block>, ty: PType, cs: seq<Record>, v: Value, k: Kid, childData: nat,
                           i: nat)
    requires i < |cs|
  {
    && k == Kid(childData + SizesBefore(cs, i), 0, Slice(s, cs[i]))
    && ListAt(m, sc.masks, ty, k) && v == Value(MaskOf(sc.masks, k.prims), cs[i].Size())
  }

  function SizesBefore(cs: seq<Record>, i: nat): nat
    requires i <= |cs|
  {
    if i == 0 then 0 else SizesBefore(cs, i - 1) + cs[i - 1].Size()
  }

  lemma {:induction false} SizesBeforeMono(cs: seq<Record>, i: nat, j: nat)
    requires i < j <= |cs|
    ensures SizesBefore(cs, i) + cs[i].Size() <= SizesBefore(cs, j)
    decreases j
  {
    if i < j - 1 {
      SizesBeforeMono(cs, i, j - 1);
    }
  }

  method CreateQuadLists(sc: Scene, prims: array<PrimRef>, mem: array<Block>, ghost ty: PType, cs: seq<Record>, childData: nat)
    returns (ok: bool, vs: seq<Value>, ghost kids: seq<Kid>)
    requires ty == Triangle || ty == Quad
    requires forall i: nat :: i < |cs| ==> cs[i].begin < cs[i].end <= prims.Length
    requires childData + SizesBefore(cs, |cs|) <= mem.Length
    modifies mem
    ensures OnlyIn(old(mem[..]), mem[..], childData, childData + SizesBefore(cs, |cs|))
    ensures ok ==> QuadLists(sc, prims[..], mem[..], ty, cs, vs, kids, childData) && |kids| == |cs|
    ensures ok <==> forall i: nat :: i < |cs| ==> !AnyTooLarge(Slice(prims[..], cs[i]))
  {
    hide ListAt, MaskOf, AnyTooLarge, Slice;
    ok, vs, kids := true, [], [];
    var j := 0;
    for i := 0 to |cs|
      invariant |kids| == i && j == SizesBefore(cs, i)
      invariant QuadLists(sc, prims[..], mem[..], ty, cs, vs, kids, childData)
      invariant OnlyIn(old(mem[..]), mem[..], childData, childData + j)
      invariant ok && forall k: nat :: k < i ==> !AnyTooLarge(Slice(prims[..], cs[k]))
    {
      ghost var m := mem[..];
      SizesBeforeMono(cs, i, |cs|);
      var v1 := CreateQuads(sc, prims, mem, ty, cs[i], childData + j);
      if v1.None? {
        ok := false;
        return;
      }
      var v := v1.value;
      ghost var k := Kid(childData + j, 0, Slice(prims[..], cs[i]));
      QuadListsStep(sc, prims[..], m, mem[..], ty, cs, vs, kids, childData, v, k, j);
      vs := vs + [v];
      kids := kids + [k];
      j := j + cs[i].Size();
    }
  }

  lemma QuadListsStep(sc: Scene, s: seq<PrimRef>, m: seq<Block>, m1: seq<Block>, ty: PType, cs: seq<Record>, vs: seq<Value>,
                      kids: seq<Kid>, childData: nat, v: Value, k: Kid, j: nat)
    requires QuadLists(sc, s, m, ty, cs, vs, kids, childData) && |kids| < |cs| && (ty == Triangle || ty == Quad)
    requires forall i: nat :: i < |cs| ==> cs[i].begin < cs[i].end <= |s|
    requires j == SizesBefore(cs, |kids|) && k == Kid(childData + j, 0, Slice(s, cs[|kids|]))
    requires OnlyIn(m, m1, childData + j, childData + j + cs[|kids|].Size())
    requires ListAt(m1, sc.masks, ty, k) && v == Value(MaskOf(sc.masks, k.prims), cs[|kids|].Size())
    ensures QuadLists(sc, s, m1, ty, cs, vs + [v], kids + [k], childData)
  {
    hide ListAt, MaskOf, SizesBefore, Slice, OnlyIn, QuadList, QuadLists;
    QuadListsLength(sc, s, m, ty, cs, vs, kids, childData);
    QuadListNew(sc, s, m1, ty, cs, v, childData, |kids|);
    var vs1, kids1 := vs + [v], kids + [k];
    forall i: nat | i < |kids1|
      ensures QuadList(sc, s, m1, ty, cs, vs1[i], kids1[i], childData, i)
    {
      if i < |kids| {
        QuadListsAt(sc, s, m, ty, cs, vs, kids, childData, i);
        QuadListFrame(sc, s, m, m1, ty, cs, vs[i], kids[i], childData, i, |kids|);
      }
    }
    QuadListsIf(sc, s, m1, ty, cs, vs1, kids1, childData);
  }

  lemma QuadListsIf(sc: Scene, s: seq<PrimRef>, m: seq<Block>, ty: PType, cs: seq<Record>, vs: seq<Value>, kids: seq<Kid>,
                    childData: nat)
    requires |vs| == |kids| <= |cs|
    requires forall i: nat :: i < |kids| ==> QuadList(sc, s, m, ty, cs, vs[i], kids[i], childData, i)
    ensures QuadLists(sc, s, m, ty, cs, vs, kids, childData)
  {
    hide QuadList;
  }

  lemma QuadListNew(sc: Scene, s: seq<PrimRef>, m: seq<Block>, ty: PType, cs: seq<Record>, v: Value, childData: nat, i: nat)
    requires i < |cs| && ListAt(m, sc.masks, ty, Kid(childData + SizesBefore(cs, i), 0, Slice(s, cs[i])))
    requires v == Value(MaskOf(sc.masks, Slice(s, cs[i])), cs[i].Size())
    ensures QuadList(sc, s, m, ty, cs, v, Kid(childData + SizesBefore(cs, i), 0, Slice(s, cs[i])), childData, i)
  {
    hide ListAt, MaskOf, SizesBefore, Slice;
  }

  lemma QuadListFrame(sc: Scene, s: seq<PrimRef>, m: seq<Block>, m1: seq<Block>, ty: PType, cs: seq<Record>, v: Value, k: Kid,
                      childData: nat, i: nat, j: nat)
    requires i < j < |cs| && QuadList(sc, s, m, ty, cs, v, k, childData, i) && (ty == Triangle || ty == Quad)
    requires cs[i].begin < cs[i].end <= |s|
    requires OnlyIn(m, m1, childData + SizesBefore(cs, j), childData + SizesBefore(cs, j) + cs[j].Size())
    ensures QuadList(sc, s, m1, ty, cs, v, k, childData, i)
  {
    hide ListAt, MaskOf, SizesBefore;
    SizesBeforeMono(cs, i, j);
    ListBounds(m, sc.masks, ty, k);
    ListFrame(m, m1, sc.masks, ty, k);
  }

  lemma ListBounds(m: seq<Block>, masks: Masks, ty: PType, k: Kid)
    requires ListAt(m, masks, ty, k)
    ensures 0 <= k.addr && k.addr + ListBlocks(ty, k) <= |m| && k.prims != []
  {
  }

  // ----- fat leaves as trees

  lemma KeptAfter(m: seq<Block>, m1: seq<Block>, m2: seq<Block>, addr: nat, lo: nat, hi: nat)
    requires OnlyIn(m, m1, lo, hi) && OnlyAt(m1, m2, addr)
    ensures Kept(m, m2, addr, lo)
  {
  }

  lemma KeptPart(m: seq<Block>, m1: seq<Block>, addr: nat, lo: nat, hi: nat)
    requires OnlyIn(m, m1, lo, hi)
    ensures Kept(m, m1, addr, lo)
  {
  }

  lemma ListsOK(m: seq<Block>, m1: seq<Block>, masks: Masks, ty: PType, kids: seq<Kid>, addr: nat, lo: nat)
    requires forall i: nat :: i < |kids| ==> ListAt(m, masks, ty, kids[i]) && lo <= kids[i].addr
    requires OnlyAt(m, m1, addr) && addr < lo
    ensures forall i: nat :: i < |kids| ==> ListAt(m1, masks, ty, kids[i])
  {
    hide ListAt;
    forall i: nat | i < |kids|
      ensures ListAt(m1, masks, ty, kids[i])
    {
      ListBounds(m, masks, ty, kids[i]);
      ListFrame(m, m1, masks, ty, kids[i]);
    }
  }

  /** A node over leaf lists that hold the references of the record. */
  lemma FatStored(sc: Scene, s: seq<PrimRef>, m: seq<Block>, m1: seq<Block>, r: Record, addr: nat, lo: nat, hi: nat, ty: PType,
                  kids: seq<Kid>, mask: bv8)
    requires ValidRecord(sc, s, r) && r.ty == Some(ty)
    requires NodeAt(m1, sc.masks, addr, NodeTypeOf(ty), kids) && OnlyAt(m, m1, addr) && addr < lo
    requires forall i: nat :: i < |kids| ==> ListAt(m, sc.masks, ty, kids[i])
    requires forall i: nat :: i < |kids| ==> lo <= kids[i].addr && kids[i].addr + ListBlocks(ty, kids[i]) <= hi
    requires multiset(AllPrims(kids)) == multiset(Slice(s, r)) && mask == MaskOf(sc.masks, AllPrims(kids))
    requires LeafBlocks(ty, kids) <= PerRef(sc) * |AllPrims(kids)|
    ensures Stored(sc, s, m1, r, addr, lo, hi, Fat(addr, ty, kids), mask)
  {
    hide ListAt, NodeAt, AllPrims, MaskOf, LeafBlocks, ValidRecord, PerRef, NodeRate;
    ListsOK(m, m1, sc.masks, ty, kids, addr, lo);
    SliceTypes(sc, s, r, AllPrims(kids), ty);
    RecordBounds(sc, s, r);
    RateSix(sc, |AllPrims(kids)|);
  }

  lemma RateSix(sc: Scene, n: nat)
    ensures 6 * n <= NodeRate(sc) * n
  {
    MulMono(6, NodeRate(sc), n);
  }

  lemma SliceTypes(sc: Scene, s: seq<PrimRef>, r: Record, all: seq<PrimRef>, ty: PType)
    requires ValidRecord(sc, s, r) && r.ty == Some(ty) && multiset(all) == multiset(Slice(s, r))
    ensures 1 <= |all| && |all| == r.Size()
    ensures forall p :: p in all ==> sc.typeOf(p.geomID) == ty && Fits(sc, r, p)
  {
    assert |all| == |multiset(all)| == |multiset(Slice(s, r))|;
    forall p | p in all
      ensures Fits(sc, r, p)
    {
      assert p in multiset(Slice(s, r));
      SliceFits(sc, s, r, p);
    }
  }

  // the quad lists of a family

  lemma {:induction false} QuadListsGather(sc: Scene, s: seq<PrimRef>, m: seq<Block>, ty: PType, cs: seq<Record>, vs: seq<Value>,
                                           kids: seq<Kid>, childData: nat, n: nat)
    requires QuadLists(sc, s, m, ty, cs, vs, kids, childData) && |kids| == |cs| && n <= |cs| && (ty == Triangle || ty == Quad)
    requires forall i: nat :: i < |cs| ==> cs[i].begin < cs[i].end <= |s|
    ensures AllPrims(kids[..n]) == Gather(s, cs[..n]) && LeafBlocks(ty, kids[..n]) == SizesBefore(cs, n) == |Gather(s, cs[..n])|
  {
    hide ListAt, MaskOf, QuadLists, Gather, Slice, AllPrims, LeafBlocks;
    if 0 < n {
      QuadListsGather(sc, s, m, ty, cs, vs, kids, childData, n - 1);
      QuadListsAt(sc, s, m, ty, cs, vs, kids, childData, n - 1);
      GatherNext(s, cs, n);
      AllPrimsStep(kids, n - 1);
      QuadBlocksNext(ty, kids, n);
    } else {
      GatherNothing(s, cs);
      AllPrimsNone(kids);
      NoBlocks(ty, kids);
    }
  }

  lemma NoBlocks(ty: PType, kids: seq<Kid>)
    ensures LeafBlocks(ty, kids[..0]) == 0
  {
  }

  lemma QuadBlocksNext(ty: PType, kids: seq<Kid>, n: nat)
    requires 0 < n <= |kids| && (ty == Triangle || ty == Quad)
    ensures LeafBlocks(ty, kids[..n]) == LeafBlocks(ty, kids[..n - 1]) + |kids[n - 1].prims|
  {
    assert kids[..n][..n - 1] == kids[..n - 1];
  }

  lemma QuadListsLength(sc: Scene, s: seq<PrimRef>, m: seq<Block>, ty: PType, cs: seq<Record>, vs: seq<Value>,
                        kids: seq<Kid>, childData: nat)
    requires QuadLists(sc, s, m, ty, cs, vs, kids, childData)
    ensures |vs| == |kids| <= |cs|
  {
    hide QuadList;
  }

  lemma QuadListsAt(sc: Scene, s: seq<PrimRef>, m: seq<Block>, ty: PType, cs: seq<Record>, vs: seq<Value>,
                    kids: seq<Kid>, childData: nat, i: nat)
    requires QuadLists(sc, s, m, ty, cs, vs, kids, childData) && i < |kids|
    ensures QuadList(sc, s, m, ty, cs, vs[i], kids[i], childData, i)
  {
    hide ListAt, MaskOf;
  }

  lemma {:induction false} BeforeSame(cs: seq<Record>, vs: seq<Value>, i: nat)
    requires |vs| == |cs| && i <= |cs| && forall j: nat :: j < |cs| ==> vs[j].blocks == cs[j].Size()
    ensures BlocksBefore(EntriesOf(cs, vs), i) == SizesBefore(cs, i)
  {
    if 0 < i {
      BeforeSame(cs, vs, i - 1);
    }
  }

  lemma QuadsDescribed(sc: Scene, s: seq<PrimRef>, m: seq<Block>, ty: PType, cs: seq<Record>, vs: seq<Value>,
                       kids: seq<Kid>, childData: nat)
    requires QuadLists(sc, s, m, ty, cs, vs, kids, childData) && |kids| == |cs| && (ty == Triangle || ty == Quad)
    requires forall i: nat :: i < |cs| ==> ValidRecord(sc, s, cs[i])
    ensures |vs| == |cs| && Describes(EntriesOf(cs, vs), kids, childData)
    ensures forall i: nat :: i < |cs| ==> vs[i].mask == MaskOf(sc.masks, kids[i].prims) && vs[i].blocks == cs[i].Size()
  {
    hide ListAt, MaskOf, QuadLists, ValidRecord, BlocksBefore, SizesBefore;
    QuadListsLength(sc, s, m, ty, cs, vs, kids, childData);
    forall i: nat | i < |cs|
      ensures vs[i].mask == MaskOf(sc.masks, kids[i].prims) && vs[i].blocks == cs[i].Size()
    {
      QuadListsAt(sc, s, m, ty, cs, vs, kids, childData, i);
    }
    forall i: nat | i < |cs|
      ensures KidEntry(EntriesOf(cs, vs), kids[i], childData, i)
    {
      QuadListsAt(sc, s, m, ty, cs, vs, kids, childData, i);
      BeforeSame(cs, vs, i);
      BoundsAreHull(sc, s, cs[i]);
    }
  }

  /** createFatQuadLeaf behind its allocation. */
  method WriteFatQuadLeaf(sc: Scene, prims: array<PrimRef>, mem: array<Block>, ty: PType, r: Record, addr: nat, cs: seq<Record>,
                          childData: nat) returns (mask: Option<bv8>, ghost t: Tree)
    requires ty == Triangle || ty == Quad
    requires ValidRecord(sc, prims[..], r) && r.ty == Some(ty)
    requires Group(sc, prims[..], r.begin, r.end, cs) && 1 <= |cs| <= NUM_CHILDREN
    requires forall i: nat :: i < |cs| ==> 1 <= cs[i].Size() <= 3
    requires addr < childData && childData + r.Size() <= mem.Length < 0x8000_0000
    modifies mem
    ensures Kept(old(mem[..]), mem[..], addr, childData)
    ensures mask.Some? ==>
              Stored(sc, prims[..], mem[..], r, addr, childData, childData + r.Size(), t, mask.value) && Blocks(t) == r.Size()
    ensures mask.Some? ==> t.Fat? && t.ty == ty && ListPrims(t.lists) == PrimsOf(PartsOf(prims[..], cs))
    ensures mask.None? <==> Unstorable(sc, Slice(prims[..], r))
  {
    hide ListAt, MaskOf, NodeAt, QuadLists, Group, ValidRecord, Stored, SizesBefore, Describes, Gather, AllPrims, AnyTooLarge, Unstorable, Slice,
      OnlyIn, OnlyAt, Kept, LeafBlocks;
    GroupFacts(sc, prims[..], r, cs);
    RecordBounds(sc, prims[..], r);
    SizesGather(prims[..], cs, |cs|);
    assert cs[..|cs|] == cs;
    var ok, vs; ghost var kids;
    ok, vs, kids := CreateQuadLists(sc, prims, mem, ty, cs, childData);
    RefusedIff(sc, prims[..], r, cs);
    ghost var m := mem[..];
    KeptPart(old(mem[..]), m, addr, childData, childData + r.Size());
    if !ok {
      return None, Unbuilt;
    }
    QuadsDescribed(sc, prims[..], m, ty, cs, vs, kids, childData);
    var nodeMask := SetInternalNode(sc, mem, addr, NODE_TYPE_QUAD, childData, cs, vs, kids);
    QuadsStored(sc, prims[..], m, mem[..], r, addr, ty, cs, vs, kids, childData, nodeMask);
    KeptAfter(old(mem[..]), m, mem[..], addr, childData, childData + r.Size());
    ListsAreParts(sc, prims[..], m, ty, cs, vs, kids, childData);
    mask, t := Some(nodeMask), Fat(addr, ty, kids);
  }

  lemma ListsAreParts(sc: Scene, s: seq<PrimRef>, m: seq<Block>, ty: PType, cs: seq<Record>, vs: seq<Value>, kids: seq<Kid>,
                      childData: nat)
    requires QuadLists(sc, s, m, ty, cs, vs, kids, childData) && |kids| == |cs|
    ensures ListPrims(kids) == PrimsOf(PartsOf(s, cs))
  {
    hide ListAt, MaskOf, QuadLists, Slice;
    forall i: nat | i < |cs|
      ensures kids[i].prims == Slice(s, cs[i])
    {
      QuadListsLength(sc, s, m, ty, cs, vs, kids, childData);
      QuadListsAt(sc, s, m, ty, cs, vs, kids, childData, i);
    }
  }

  /** A child list is refused exactly when the record has a reference too large. */
  lemma RefusedIff(sc: Scene, s: seq<PrimRef>, r: Record, cs: seq<Record>)
    requires ValidRecord(sc, s, r) && r.ty.Some? && r.ty != Some(Instance) && Group(sc, s, r.begin, r.end, cs)
    ensures Unstorable(sc, Slice(s, r)) <==> exists i: nat :: i < |cs| && AnyTooLarge(Slice(s, cs[i]))
  {
    hide ValidRecord, Group, Slice, TooLarge;
    if Unstorable(sc, Slice(s, r)) {
      var p :| p in Slice(s, r) && TooLarge(sc.typeOf, p);
      var i := PartOf(sc, s, r, cs, p);
      TooLargeIs(sc, s, r, p);
      assert AnyTooLarge(Slice(s, cs[i]));
    }
    forall i: nat | i < |cs| && AnyTooLarge(Slice(s, cs[i]))
      ensures Unstorable(sc, Slice(s, r))
    {
      var p :| p in Slice(s, cs[i]) && MAX_GEOM_INDEX < p.geomID;
      PartInside(sc, s, r, cs, i, p);
      TooLargeIs(sc, s, r, p);
    }
  }

  lemma TooLargeIs(sc: Scene, s: seq<PrimRef>, r: Record, p: PrimRef)
    requires ValidRecord(sc, s, r) && r.ty.Some? && r.ty != Some(Instance) && p in Slice(s, r)
    ensures TooLarge(sc.typeOf, p) <==> MAX_GEOM_INDEX < p.geomID
  {
    SliceFits(sc, s, r, p);
  }

  lemma TooLargeIff(sc: Scene, s: seq<PrimRef>, r: Record)
    requires ValidRecord(sc, s, r) && r.ty.Some? && r.ty != Some(Instance)
    ensures Unstorable(sc, Slice(s, r)) <==> AnyTooLarge(Slice(s, r))
  {
    hide ValidRecord, TooLarge, Slice;
    forall p | p in Slice(s, r)
      ensures TooLarge(sc.typeOf, p) <==> MAX_GEOM_INDEX < p.geomID
    {
      TooLargeIs(sc, s, r, p);
    }
  }

  lemma PartInside(sc: Scene, s: seq<PrimRef>, r: Record, cs: seq<Record>, i: nat, p: PrimRef)
    requires Group(sc, s, r.begin, r.end, cs) && i < |cs| && p in Slice(s, cs[i])
    ensures p in Slice(s, r)
  {
    hide ValidRecord, Gather, Apart;
    assert r.begin <= cs[i].begin < cs[i].end <= r.end <= |s|;
    SlicesNested(s, r, cs[i], p);
  }

  lemma SlicesNested(s: seq<PrimRef>, r: Record, c: Record, p: PrimRef)
    requires r.begin <= c.begin < c.end <= r.end <= |s| && p in Slice(s, c)
    ensures p in Slice(s, r)
  {
    var k :| 0 <= k < |Slice(s, c)| && Slice(s, c)[k] == p;
    assert Slice(s, r)[c.begin - r.begin + k] == p;
  }

  lemma PartOf(sc: Scene, s: seq<PrimRef>, r: Record, cs: seq<Record>, p: PrimRef) returns (i: nat)
    requires Group(sc, s, r.begin, r.end, cs) && p in Slice(s, r)
    ensures i < |cs| && p in Slice(s, cs[i])
  {
    hide ValidRecord, Gather;
    assert p in multiset(Gather(s, cs));
    i := InGather(s, cs, p);
  }

  lemma {:induction false} InGather(s: seq<PrimRef>, cs: seq<Record>, p: PrimRef) returns (i: nat)
    requires p in Gather(s, cs)
    ensures i < |cs| && p in Slice(s, cs[i])
  {
    var n := |cs| - 1;
    if p in Slice(s, cs[n]) {
      i := n;
    } else {
      i := InGather(s, cs[..n], p);
    }
  }

  lemma {:induction false} SizesGather(s: seq<PrimRef>, cs: seq<Record>, n: nat)
    requires n <= |cs| && forall i: nat :: i < |cs| ==> cs[i].begin < cs[i].end <= |s|
    ensures SizesBefore(cs, n) == |Gather(s, cs[..n])|
  {
    hide Slice, Gather;
    if 0 < n {
      SizesGather(s, cs, n - 1);
      GatherNext(s, cs, n);
    } else {
      GatherNothing(s, cs);
    }
  }

  lemma GatherNothing(s: seq<PrimRef>, cs: seq<Record>)
    ensures Gather(s, cs[..0]) == []
  {
  }

  lemma GatherNext(s: seq<PrimRef>, cs: seq<Record>, n: nat)
    requires 0 < n <= |cs|
    ensures Gather(s, cs[..n]) == Gather(s, cs[..n - 1]) + Slice(s, cs[n - 1])
  {
    assert cs[..n][..n - 1] == cs[..n - 1];
  }

  lemma GroupFacts(sc: Scene, s: seq<PrimRef>, r: Record, cs: seq<Record>)
    requires Group(sc, s, r.begin, r.end, cs)
    ensures forall i: nat :: i < |cs| ==> ValidRecord(sc, s, cs[i]) && r.begin <= cs[i].begin < cs[i].end <= r.end <= |s|
    ensures forall i: nat :: i < |cs| ==> Proper(cs[i].bounds)
    ensures multiset(Gather(s, cs)) == multiset(Slice(s, r)) && |Gather(s, cs)| == r.Size()
  {
    hide ValidRecord, Gather;
    assert |Gather(s, cs)| == |multiset(Gather(s, cs))| == |multiset(s[r.begin..r.end])|;
    forall i: nat | i < |cs|
      ensures Proper(cs[i].bounds)
    {
      RecordBounds(sc, s, cs[i]);
    }
  }

  lemma QuadsStored(sc: Scene, s: seq<PrimRef>, m: seq<Block>, m1: seq<Block>, r: Record, addr: nat, ty: PType, cs: seq<Record>,
                    vs: seq<Value>, kids: seq<Kid>, childData: nat, mask: bv8)
    requires ty == Triangle || ty == Quad
    requires ValidRecord(sc, s, r) && r.ty == Some(ty) && Group(sc, s, r.begin, r.end, cs)
    requires QuadLists(sc, s, m, ty, cs, vs, kids, childData) && |kids| == |cs|
    requires NodeAt(m1, sc.masks, addr, NODE_TYPE_QUAD, kids) && OnlyAt(m, m1, addr) && addr < childData
    requires mask == MaskOf(sc.masks, AllPrims(kids))
    ensures Stored(sc, s, m1, r, addr, childData, childData + r.Size(), Fat(addr, ty, kids), mask)
    ensures LeafBlocks(ty, kids) == r.Size()
  {
    hide ListAt, MaskOf, NodeAt, QuadLists, Group, ValidRecord, Stored, SizesBefore, Gather, AllPrims, LeafBlocks;
    GroupFacts(sc, s, r, cs);
    QuadListsGather(sc, s, m, ty, cs, vs, kids, childData, |cs|);
    assert kids[..|cs|] == kids && cs[..|cs|] == cs;
    forall i: nat | i < |kids|
      ensures ListAt(m, sc.masks, ty, kids[i]) && childData <= kids[i].addr
      ensures kids[i].addr + ListBlocks(ty, kids[i]) <= childData + r.Size()
    {
      QuadListsAt(sc, s, m, ty, cs, vs, kids, childData, i);
      SizesBeforeMono(cs, i, |cs|);
    }
    MulMono(1, PerRef(sc), r.Size());
    FatStored(sc, s, m, m1, r, addr, childData, childData + r.Size(), ty, kids, mask);
  }
}
