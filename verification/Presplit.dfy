/** Splitting large references before the build, within the capacity of the
    reference array (rtbuild/builders/primrefgen_presplit.h:143-178, 221-393). */
module Presplit {
  import opened Common
  import opened Geometry
  import opened Bvh
  import opened Partition
  import opened ParallelPartition
  import opened RadixSort
  import opened PrefixSum

  const MAX_SPLITS: nat := 32

  // ----- splitting one reference

  /** One split of a reference at the plane of the grid, if there is one. */
  type Splitter = PrimRef -> Option<(PrimRef, PrimRef)>

  /** Halves the requested count along with the reference. */
  function SubPrims(sp: Splitter, p: PrimRef, k: nat): (r: seq<PrimRef>)
    requires 1 <= k
    ensures 1 <= |r| <= k
    decreases k
  {
    if k == 1 then [p] else
      match sp(p)
      case None => [p]
      case Some((left, right)) => SubPrims(sp, left, k / 2) + SubPrims(sp, right, k - k / 2)
  }

  method SplitPrimitive(sp: Splitter, p: PrimRef, splitprims: nat, subPrims: array<PrimRef>, numSubPrims0: nat) returns (numSubPrims: nat)
    requires 1 <= splitprims && numSubPrims0 + splitprims <= subPrims.Length
    modifies subPrims
    ensures numSubPrims == numSubPrims0 + |SubPrims(sp, p, splitprims)|
    ensures subPrims[..numSubPrims] == old(subPrims[..numSubPrims0]) + SubPrims(sp, p, splitprims)
    decreases splitprims
  {
    hide SubPrims;
    numSubPrims := numSubPrims0;
    SubPrimsCases(sp, p, splitprims);
    if splitprims == 1 {
      subPrims[numSubPrims] := p;
      numSubPrims := numSubPrims + 1;
    } else {
      var halves := sp(p);
      if halves.None? {
        subPrims[numSubPrims] := p;
        numSubPrims := numSubPrims + 1;
        return;
      }
      var (left, right) := halves.value;
      numSubPrims := SplitPrimitive(sp, left, splitprims / 2, subPrims, numSubPrims);
      ghost var first := subPrims[..numSubPrims];
      numSubPrims := SplitPrimitive(sp, right, splitprims - splitprims / 2, subPrims, numSubPrims);
      Concat3(old(subPrims[..numSubPrims0]), SubPrims(sp, left, splitprims / 2), SubPrims(sp, right, splitprims - splitprims / 2));
    }
  }

  lemma SubPrimsCases(sp: Splitter, p: PrimRef, k: nat)
    requires 1 <= k
    ensures k == 1 || sp(p).None? ==> SubPrims(sp, p, k) == [p]
    ensures 1 < k && sp(p).Some? ==>
      SubPrims(sp, p, k) == SubPrims(sp, sp(p).value.0, k / 2) + SubPrims(sp, sp(p).value.1, k - k / 2)
  {
  }

  lemma Concat3<T>(a: seq<T>, b: seq<T>, c: seq<T>)
    ensures a + b + c == a + (b + c)
  {
  }

  // ----- the items

  /** The requested number of parts of a reference. */
  datatype Item = Item(data: nat, index: nat)

  /** The parts of a reference for a requested number of them. */
  type Split = (PrimRef, nat) -> seq<PrimRef>

  ghost predicate Bounded(split: Split) {
    forall p, k: nat :: 1 <= k <= MAX_SPLITS ==> 1 <= |split(p, k)| <= MAX_SPLITS
  }

  function At(s: seq<PrimRef>, it: Item): PrimRef {
    if it.index < |s| then s[it.index] else PrimRef(Empty, 0, 0)
  }

  function Parts(s: seq<PrimRef>, split: Split, it: Item): seq<PrimRef> {
    split(At(s, it), it.data)
  }

  /** How many more references an item makes than the one it replaces. */
  function More(s: seq<PrimRef>, split: Split, it: Item): nat {
    if Parts(s, split, it) == [] then 0 else |Parts(s, split, it)| - 1
  }

  /** The references of the items. */
  function Pick(s: seq<PrimRef>, its: seq<Item>): seq<PrimRef> {
    Map(it => At(s, it), its)
  }

  /** All parts of the references of the items. */
  function Expand(s: seq<PrimRef>, split: Split, its: seq<Item>): seq<PrimRef> {
    if its == [] then [] else Expand(s, split, its[..|its| - 1]) + Parts(s, split, its[|its| - 1])
  }

  /** The first parts of the references. */
  function Heads(s: seq<PrimRef>, split: Split, its: seq<Item>): seq<PrimRef>
    requires forall it :: it in its ==> Parts(s, split, it) != []
  {
    if its == [] then [] else Heads(s, split, its[..|its| - 1]) + [Parts(s, split, its[|its| - 1])[0]]
  }

  /** The other parts of the references. */
  function Tails(s: seq<PrimRef>, split: Split, its: seq<Item>): seq<PrimRef>
    requires forall it :: it in its ==> Parts(s, split, it) != []
  {
    if its == [] then [] else Tails(s, split, its[..|its| - 1]) + Parts(s, split, its[|its| - 1])[1..]
  }

  lemma {:induction false} HeadsAndTails(s: seq<PrimRef>, split: Split, its: seq<Item>)
    requires forall it :: it in its ==> Parts(s, split, it) != []
    ensures multiset(Heads(s, split, its)) + multiset(Tails(s, split, its)) == multiset(Expand(s, split, its))
  {
    hide Parts;
    if its != [] {
      var n := |its| - 1;
      HeadsAndTails(s, split, its[..n]);
      var p := Parts(s, split, its[n]);
      assert p == [p[0]] + p[1..];
    }
  }

  /** Items in the order of the references. */
  function InitialItems(requested: seq<nat>): (its: seq<Item>)
    ensures |its| == |requested| && forall i: nat :: i < |requested| ==> its[i] == Item(requested[i], i)
  {
    seq(|requested|, i requires 0 <= i < |requested| => Item(requested[i], i))
  }

  lemma {:induction false} OnceEach(requested: seq<nat>, n: nat, x: Item)
    requires n <= |requested|
    ensures multiset(InitialItems(requested)[..n])[x] <= 1
    ensures n <= x.index ==> multiset(InitialItems(requested)[..n])[x] == 0
  {
    if 0 < n {
      var its := InitialItems(requested);
      OnceEach(requested, n - 1, x);
      assert its[..n] == its[..n - 1] + [its[n - 1]];
    }
  }

  lemma Twice<T>(s: seq<T>, i: nat, j: nat)
    requires i < j < |s| && s[i] == s[j]
    ensures 2 <= multiset(s)[s[i]]
  {
    assert s == s[..j] + [s[j]] + s[j + 1..];
    assert s[i] in s[..j];
  }

  /** However the items are rearranged, each index occurs once. */
  ghost predicate Distinct(its: seq<Item>, n: nat) {
    && |its| == n
    && (forall j: nat :: j < n ==> its[j].index < n)
    && (forall i: nat, j: nat :: i < n && j < n && i != j ==> its[i].index != its[j].index)
  }

  lemma RearrangedDistinct(requested: seq<nat>, its: seq<Item>)
    requires multiset(its) == multiset(InitialItems(requested))
    ensures Distinct(its, |requested|)
    ensures forall j: nat :: j < |its| ==> its[j].data == requested[its[j].index]
  {
    var init := InitialItems(requested);
    assert |its| == |multiset(its)| == |multiset(init)| == |init|;
    forall j: nat | j < |its|
      ensures its[j].index < |init| && its[j] == init[its[j].index]
    {
      assert its[j] in multiset(init);
    }
    forall i: nat, j: nat | i < |its| && j < |its| && i < j
      ensures its[i].index != its[j].index
    {
      OnceEach(requested, |init|, its[i]);
      assert init[..|init|] == init;
      if its[i].index == its[j].index {
        Twice(its, i, j);
        assert false;
      }
    }
  }

  /** Picking by all items is a rearrangement of the references. */
  lemma PickAll(s: seq<PrimRef>, requested: seq<nat>, its: seq<Item>)
    requires multiset(its) == multiset(InitialItems(requested)) && |requested| <= |s|
    ensures multiset(Pick(s, its)) == multiset(s[..|requested|])
  {
    MapPermutation(it => At(s, it), its, InitialItems(requested));
    assert Pick(s, InitialItems(requested)) == s[..|requested|];
  }

  // ----- choosing what to split

  predicate Single(it: Item) {
    it.data <= 1
  }

  /** Items that stay whole come first, the others are sorted by their count. */
  ghost predicate Arranged(its: seq<Item>, requested: seq<nat>, center: nat) {
    && multiset(its) == multiset(InitialItems(requested)) && center <= |its| == |requested|
    && (forall j: nat :: j < center ==> its[j].data <= 1)
    && (forall j: nat :: center <= j < |its| ==> 1 < its[j].data)
    && (forall i: nat, j: nat :: center <= i < j < |its| ==> its[i].data <= its[j].data)
  }

  lemma {:induction false} FoldKeeps(v: int, s: seq<Item>)
    ensures Fold((u: int, it: Item) => u, v, s) == v
  {
    if s != [] {
      FoldKeeps(v, s[..|s| - 1]);
    }
  }

  lemma NoReduction()
    ensures Merges((u: int, it: Item) => u, 0, (u: int, w: int) => u)
  {
    var f, m := (u: int, it: Item) => u, (u: int, w: int) => u;
    forall v: int, s: seq<Item>
      ensures m(v, Fold(f, 0, s)) == Fold(f, v, s)
    {
      FoldKeeps(v, s);
    }
  }

  method ArrangeItems(requested: seq<nat>, threads: nat) returns (items: array<Item>, center: nat)
    requires 1 <= threads && forall i :: 0 <= i < |requested| ==> requested[i] <= MAX_SPLITS
    ensures fresh(items) && Arranged(items[..], requested, center)
  {
    hide PermutesRange;
    var n := |requested|;
    items := new Item[n](i requires 0 <= i < n => Item(requested[i], i));
    assert items[..] == InitialItems(requested);
    NoReduction();
    var job := Job((it: Item) => Single(it), (u: int, it: Item) => u, 0, n);
    var l, r;
    center, l, r := ParallelPartitioning(job, items, 0, (u: int, w: int) => u, 0, 0, 1024, threads);
    ghost var parted := items[..];
    RangeMultiset(InitialItems(requested), parted, n);
    SmallData(requested, parted);
    SortTail(items, center, threads);
    TailSorted(requested, parted, items[..], center);
  }

  lemma RangeMultiset(s: seq<Item>, t: seq<Item>, n: nat)
    requires PermutesRange(s, t, 0, n) && |s| == n
    ensures multiset(t) == multiset(s) && |t| == n
  {
  }

  lemma SmallData(requested: seq<nat>, its: seq<Item>)
    requires multiset(its) == multiset(InitialItems(requested))
    requires forall i :: 0 <= i < |requested| ==> requested[i] <= MAX_SPLITS
    ensures forall it :: it in its ==> it.data <= MAX_SPLITS
  {
    RearrangedDistinct(requested, its);
  }

  /** Sorts the items from center on by their count. */
  method SortTail(items: array<Item>, center: nat, threads: nat)
    requires center <= items.Length && 1 <= threads
    requires forall it :: it in items[..] ==> it.data <= MAX_SPLITS
    modifies items
    ensures items[..center] == old(items[..center]) && multiset(items[center..]) == multiset(old(items[center..]))
    ensures Sorted(items[center..], (it: Item) => it.data)
  {
    hide Sorted;
    var n := items.Length - center;
    var tail := new Item[n](i requires 0 <= i < n reads items => items[center + i]);
    var tmp := new Item[n](_ => Item(0, 0));
    assert tail[..] == items[center..];
    var sorter := new ParallelRadixSort(tail, tmp, (it: Item) => it.data);
    DataFits();
    assert forall it :: it in tail[..] ==> it in items[..];
    sorter.Sort(1024, threads, 4);
    for i := 0 to n
      invariant items[..center] == old(items[..center]) && items[center..center + i] == tail[..i]
      invariant Sorted(tail[..], (it: Item) => it.data) && multiset(tail[..]) == multiset(old(items[center..]))
    {
      items[center + i] := tail[i];
    }
    assert items[center..] == items[center..center + n] == tail[..n] == tail[..];
  }

  lemma DataFits()
    ensures MAX_SPLITS < Pow256(4)
  {
    assert Pow256(1) == 256;
    assert Pow256(2) == 256 * Pow256(1);
  }

  lemma TailSorted(requested: seq<nat>, s: seq<Item>, t: seq<Item>, center: nat)
    requires multiset(s) == multiset(InitialItems(requested)) && |s| == |t| == |requested| && center <= |s|
    requires forall j :: 0 <= j < center ==> Single(s[j])
    requires forall j :: center <= j < |s| ==> !Single(s[j])
    requires t[..center] == s[..center] && multiset(t[center..]) == multiset(s[center..])
    requires Sorted(t[center..], (it: Item) => it.data)
    ensures Arranged(t, requested, center)
  {
    assert s == s[..center] + s[center..] && t == t[..center] + t[center..];
    forall j: nat | j < center
      ensures t[j].data <= 1
    {
      assert t[j] == t[..center][j] == s[j];
    }
    forall j: nat | center <= j < |t|
      ensures 1 < t[j].data
    {
      assert t[j] in multiset(s[center..]);
      assert t[center..][j - center] == t[j];
      var k :| 0 <= k < |s| - center && s[center..][k] == t[j];
    }
    forall i: nat, j: nat | center <= i < j < |t|
      ensures t[i].data <= t[j].data
    {
      assert t[center..][i - center].data <= t[center..][j - center].data;
    }
  }

  // ----- counting the parts and keeping within the budget

  /** How many more references each item from center on makes. */
  ghost function Extras(s: seq<PrimRef>, split: Split, its: seq<Item>, center: nat): (lens: seq<nat>)
    requires center <= |its|
    ensures |lens| == |its| - center
    ensures forall k: nat :: k < |lens| ==> lens[k] == More(s, split, its[center + k])
  {
    Map((it: Item) => More(s, split, it), its[center..])
  }

  lemma MoreIs(s: seq<PrimRef>, split: Split, it: Item)
    requires Bounded(split) && 1 <= it.data <= MAX_SPLITS
    ensures Parts(s, split, it) != [] && |Parts(s, split, it)| == More(s, split, it) + 1
  {
  }

  /** data holds the number of further parts and the requested number. */
  ghost predicate Encoded(items: seq<Item>, its: seq<Item>, lens: seq<nat>, center: nat, n: nat) {
    && |items| == |its| && center + |lens| == |its| && center <= n <= |its|
    && (forall j: nat :: j < |its| && !(center <= j < n) ==> items[j] == its[j])
    && (forall j: nat :: center <= j < n ==> items[j] == Item(lens[j - center] * 0x1_0000 + its[j].data, its[j].index))
  }

  method CountParts(prims: array<PrimRef>, items: array<Item>, center: nat, split: Split, offsets: array<nat>, ghost its: seq<Item>,
                    ghost lens: seq<nat>) returns (total: nat)
    requires items[..] == its && center <= |its| && offsets.Length >= 2 * (|its| - center) && Bounded(split)
    requires forall j: nat :: center <= j < |its| ==> 1 <= its[j].data <= MAX_SPLITS
    requires forall j: nat :: j < |its| ==> its[j].index < prims.Length
    requires lens == Extras(prims[..], split, its, center)
    modifies items, offsets
    ensures total == Total(lens) && Encoded(items[..], its, lens, center, |its|)
    ensures offsets[..|lens|] == lens
  {
    hide Total, Extras, More, Map;
    total := 0;
    NoTotal(lens);
    for j := center to items.Length
      invariant Encoded(items[..], its, lens, center, j)
      invariant offsets[..j - center] == lens[..j - center] && total == Total(lens[..j - center])
    {
      var it := items[j];
      var parts := split(prims[it.index], it.data);
      assert parts == Parts(prims[..], split, its[j]);
      MoreIs(prims[..], split, its[j]);
      var numSubPrims := |parts| - 1;
      TotalNext(lens, j - center);
      total := total + numSubPrims;
      items[j] := Item(numSubPrims * 0x1_0000 + it.data, it.index);
      offsets[j - center] := numSubPrims;
    }
    assert lens[..|lens|] == lens;
  }

  /** The items from center on have their numbers of further parts beside the
      requested ones. */
  ghost predicate Packed(items: seq<Item>, its: seq<Item>, lens: seq<nat>, center: nat) {
    && |items| == |its| == center + |lens|
    && forall k: nat :: k < |lens| ==> items[center + k] == Item(lens[k] * 0x1_0000 + its[center + k].data, its[center + k].index)
  }

  lemma Decode(a: nat, b: nat)
    requires b < 0x1_0000
    ensures (a * 0x1_0000 + b) / 0x1_0000 == a && (a * 0x1_0000 + b) % 0x1_0000 == b
  {
  }

  lemma {:induction false} TotalSuffix(lens: seq<nat>, k: nat)
    requires k < |lens|
    ensures Total(lens[k..]) == lens[k] + Total(lens[k + 1..])
  {
    assert lens[k..] == [lens[k]] + lens[k + 1..];
    TotalConcat([lens[k]], lens[k + 1..]);
    assert [lens[k]][..0] == [];
  }

  /** Walks down from the last item while the parts stay below the budget.  The
      walk stops at or above center, at the first item that would reach the
      budget. */
  method Shrink(items: array<Item>, center: nat, budget: nat, ghost its: seq<Item>, ghost lens: seq<nat>) returns (newCenter: nat)
    requires Encoded(items[..], its, lens, center, |its|) && budget < Total(lens)
    requires forall j: nat :: center <= j < |its| ==> its[j].data <= MAX_SPLITS
    ensures center < newCenter <= |its|
    ensures newCenter == |its| || Total(lens[newCenter - center..]) < budget
    ensures budget <= Total(lens[newCenter - 1 - center..])
  {
    hide Total;
    var c: int := items.Length - 1;
    var sum := 0;
    SuffixEnds(lens);
    while c >= center
      invariant center - 1 <= c < items.Length
      invariant sum == Total(lens[c + 1 - center..]) && (c == items.Length - 1 || sum < budget)
      decreases c
    {
      assert items[c] == Item(lens[c - center] * 0x1_0000 + its[c].data, its[c].index);
      Decode(lens[c - center], its[c].data);
      TotalSuffix(lens, c - center);
      var numSubPrims := items[c].data / 0x1_0000;
      if sum + numSubPrims >= budget {
        break;
      }
      sum := sum + numSubPrims;
      c := c - 1;
    }
    newCenter := c + 1;
  }

  lemma SuffixEnds(lens: seq<nat>)
    ensures Total(lens[|lens|..]) == 0 && lens[0..] == lens
  {
  }

  // ----- writing the parts

  /** Item k from center on is replaced by its first part and its other parts
      stand in slots of their own. */
  ghost predicate Emitted(p: seq<PrimRef>, s: seq<PrimRef>, split: Split, its: seq<Item>, center: nat, lens: seq<nat>, k: nat)
    requires k < |lens| && center + |lens| <= |its|
  {
    var it := its[center + k];
    var parts := Parts(s, split, it);
    var ofs := |its| + Total(lens[..k]);
    && it.index < |p| && |parts| == lens[k] + 1 && ofs + lens[k] <= |p|
    && p[it.index] == parts[0] && p[ofs..ofs + lens[k]] == parts[1..]
  }

  /** The references of items that are not split, or not yet, are unchanged. */
  ghost predicate Whole(p: seq<PrimRef>, s: seq<PrimRef>, its: seq<Item>, center: nat, pending: set<nat>) {
    && |p| == |s|
    && forall j: nat :: j < |its| && (j < center || j - center in pending) ==> At(p, its[j]) == At(s, its[j])
  }

  ghost predicate Emitting(p: seq<PrimRef>, s: seq<PrimRef>, split: Split, its: seq<Item>, center: nat, lens: seq<nat>,
                           pending: set<nat>)
  {
    && center + |lens| == |its| && Whole(p, s, its, center, pending)
    && forall k: nat :: k < |lens| && k !in pending ==> Emitted(p, s, split, its, center, lens, k)
  }

  /** The slots written for item k: its own and those of its further parts. */
  ghost predicate WrittenFor(p: seq<PrimRef>, p1: seq<PrimRef>, own: nat, ofs: nat, n: nat) {
    |p1| == |p| && forall x: nat :: x < |p| && x != own && !(ofs <= x < ofs + n) ==> p1[x] == p[x]
  }

  lemma EmitStep(p: seq<PrimRef>, p1: seq<PrimRef>, s: seq<PrimRef>, split: Split, its: seq<Item>, center: nat, lens: seq<nat>,
                 pending: set<nat>, k: nat)
    requires Emitting(p, s, split, its, center, lens, pending) && k < |lens| && k in pending
    requires Distinct(its, |its|) && |its| + Total(lens) <= |s|
    requires WrittenFor(p, p1, its[center + k].index, |its| + Total(lens[..k]), lens[k])
    requires Emitted(p1, s, split, its, center, lens, k)
    ensures Emitting(p1, s, split, its, center, lens, pending - {k})
  {
    hide Total, Parts;
    SlotsFit(lens, k);
    forall i: nat | i < |lens| && i !in pending - {k} && i != k
      ensures Emitted(p1, s, split, its, center, lens, i)
    {
      EmittedFrame(p, p1, s, split, its, center, lens, i, k);
    }
    WholeFrame(p, p1, s, its, center, lens, pending, k);
  }

  lemma EmittedFrame(p: seq<PrimRef>, p1: seq<PrimRef>, s: seq<PrimRef>, split: Split, its: seq<Item>, center: nat, lens: seq<nat>,
                     i: nat, k: nat)
    requires center + |lens| == |its| && i < |lens| && k < |lens| && i != k && Emitted(p, s, split, its, center, lens, i)
    requires Distinct(its, |its|) && |its| <= |p|
    requires WrittenFor(p, p1, its[center + k].index, |its| + Total(lens[..k]), lens[k])
    ensures Emitted(p1, s, split, its, center, lens, i)
  {
    hide Total, Parts;
    if i < k {
      TotalMono(lens, i, k);
    } else {
      TotalMono(lens, k, i);
    }
    var ofs := |its| + Total(lens[..i]);
    assert p1[ofs..ofs + lens[i]] == p[ofs..ofs + lens[i]];
  }

  lemma WholeFrame(p: seq<PrimRef>, p1: seq<PrimRef>, s: seq<PrimRef>, its: seq<Item>, center: nat, lens: seq<nat>,
                   pending: set<nat>, k: nat)
    requires Whole(p, s, its, center, pending) && center + |lens| == |its| && k < |lens|
    requires Distinct(its, |its|) && |its| <= |s|
    requires WrittenFor(p, p1, its[center + k].index, |its| + Total(lens[..k]), lens[k])
    ensures Whole(p1, s, its, center, pending - {k})
  {
    hide Total;
    forall j: nat | j < |its| && (j < center || j - center in pending - {k})
      ensures At(p1, its[j]) == At(s, its[j])
    {
      assert At(p, its[j]) == At(s, its[j]);
    }
  }

  /** Writes the parts of one item. */
  method EmitOne(prims: array<PrimRef>, parts: seq<PrimRef>, own: nat, newID: nat)
    requires parts != [] && own < newID && newID + |parts| - 1 <= prims.Length && own < prims.Length
    modifies prims
    ensures WrittenFor(old(prims[..]), prims[..], own, newID, |parts| - 1)
    ensures prims[own] == parts[0] && prims[newID..newID + |parts| - 1] == parts[1..]
  {
    prims[own] := parts[0];
    for i := 1 to |parts|
      invariant prims[own] == parts[0] && forall k: nat :: 1 <= k < i ==> prims[newID + k - 1] == parts[k]
      invariant forall x: nat :: x < prims.Length && x != own && !(newID <= x < newID + |parts| - 1) ==> prims[x] == old(prims[x])
    {
      prims[newID + i - 1] := parts[i];
    }
    PartsInPlace(prims[..], parts, newID);
  }

  lemma PartsInPlace(s: seq<PrimRef>, parts: seq<PrimRef>, newID: nat)
    requires parts != [] && newID + |parts| - 1 <= |s| && forall k: nat :: 1 <= k < |parts| ==> s[newID + k - 1] == parts[k]
    ensures s[newID..newID + |parts| - 1] == parts[1..]
  {
    var t := s[newID..newID + |parts| - 1];
    forall j | 0 <= j < |t|
      ensures t[j] == parts[1..][j]
    {
      assert s[newID + (1 + j) - 1] == parts[1 + j];
    }
  }

  /** All items from center on, in any order. */
  method EmitParts(prims: array<PrimRef>, items: array<Item>, center: nat, split: Split, offsets: array<nat>, dst: nat,
                   ghost its: seq<Item>, ghost lens: seq<nat>)
    requires items.Length == |its| <= prims.Length && center + |lens| == |its| && Distinct(its, |its|) && Bounded(split)
    requires forall j: nat :: center <= j < |its| ==> 1 <= its[j].data <= MAX_SPLITS
    requires lens == Extras(prims[..], split, its, center) && |its| + Total(lens) <= prims.Length
    requires Packed(items[..], its, lens, center)
    requires forall k: nat :: k < |lens| ==> SumAt(offsets[..], lens, dst, k)
    modifies prims
    ensures Emitting(prims[..], old(prims[..]), split, its, center, lens, {})
  {
    hide Total, Parts, Emitted, WrittenFor;
    ghost var s := prims[..];
    var pending := Tasks(items.Length - center);
    while pending != {}
      invariant forall k: nat :: k in pending ==> k < |lens|
      invariant Emitting(prims[..], s, split, its, center, lens, pending)
    {
      var k: nat :| k in pending;
      assert SumAt(offsets[..], lens, dst, k);
      SlotsFit(lens, k);
      Decode(lens[k], its[center + k].data);
      var it := items[center + k];
      assert At(prims[..], its[center + k]) == At(s, its[center + k]);
      var parts := split(prims[it.index], it.data % 0x1_0000);
      PartsAre(s, split, its, center, lens, k, parts);
      ghost var before := prims[..];
      EmitOne(prims, parts, it.index, items.Length + offsets[dst + k]);
      EmittedIf(prims[..], s, split, its, center, lens, k, parts);
      EmitStep(before, prims[..], s, split, its, center, lens, pending, k);
      pending := pending - {k};
    }
  }

  lemma PartsAre(s: seq<PrimRef>, split: Split, its: seq<Item>, center: nat, lens: seq<nat>, k: nat, parts: seq<PrimRef>)
    requires center + |lens| == |its| && k < |lens| && Bounded(split)
    requires forall j: nat :: center <= j < |its| ==> 1 <= its[j].data <= MAX_SPLITS
    requires lens == Extras(s, split, its, center)
    requires parts == split(At(s, its[center + k]), its[center + k].data)
    ensures parts == Parts(s, split, its[center + k]) && |parts| == lens[k] + 1
  {
    MoreIs(s, split, its[center + k]);
  }

  lemma EmittedIf(p: seq<PrimRef>, s: seq<PrimRef>, split: Split, its: seq<Item>, center: nat, lens: seq<nat>, k: nat, parts: seq<PrimRef>)
    requires k < |lens| && center + |lens| <= |its| && parts == Parts(s, split, its[center + k]) && |parts| == lens[k] + 1
    requires its[center + k].index < |p| && |its| + Total(lens[..k]) + lens[k] <= |p|
    requires p[its[center + k].index] == parts[0]
    requires p[|its| + Total(lens[..k])..|its| + Total(lens[..k]) + lens[k]] == parts[1..]
    ensures Emitted(p, s, split, its, center, lens, k)
  {
    hide Total, Parts;
  }

  // ----- the resulting references

  ghost predicate HaveParts(s: seq<PrimRef>, split: Split, its: seq<Item>) {
    forall it :: it in its ==> Parts(s, split, it) != []
  }

  lemma {:induction false} TailsWritten(p: seq<PrimRef>, s: seq<PrimRef>, split: Split, its: seq<Item>, center: nat, lens: seq<nat>, k: nat)
    requires Emitting(p, s, split, its, center, lens, {}) && k <= |lens| && HaveParts(s, split, its[center..])
    ensures HaveParts(s, split, its[center..][..k])
    ensures |its| <= |p| ==> |its| + Total(lens[..k]) <= |p|
    ensures |its| <= |p| ==> p[|its|..|its| + Total(lens[..k])] == Tails(s, split, its[center..][..k])
  {
    hide Total, Parts, Emitting;
    EmittingSizes(p, s, split, its, center, lens);
    var rest := its[center..];
    if 0 < k {
      TailsWritten(p, s, split, its, center, lens, k - 1);
      TotalNext(lens, k - 1);
      EmittingAt(p, s, split, its, center, lens, k - 1);
      assert rest[..k][..k - 1] == rest[..k - 1] && rest[..k][k - 1] == its[center + (k - 1)];
      if |its| <= |p| {
        JoinAt(p, |its|, |its| + Total(lens[..k - 1]), |its| + Total(lens[..k]));
      }
    } else {
      NoTotal(lens);
    }
  }

  lemma JoinAt<T>(p: seq<T>, a: nat, b: nat, c: nat)
    requires a <= b <= c <= |p|
    ensures p[a..c] == p[a..b] + p[b..c]
  {
  }

  lemma EmittingAt(p: seq<PrimRef>, s: seq<PrimRef>, split: Split, its: seq<Item>, center: nat, lens: seq<nat>, k: nat)
    requires Emitting(p, s, split, its, center, lens, {}) && k < |lens|
    ensures Emitted(p, s, split, its, center, lens, k)
  {
    hide Total, Parts;
  }

  lemma {:induction false} HeadsWritten(p: seq<PrimRef>, s: seq<PrimRef>, split: Split, its: seq<Item>, center: nat, lens: seq<nat>, k: nat)
    requires Emitting(p, s, split, its, center, lens, {}) && k <= |lens| && HaveParts(s, split, its[center..])
    ensures HaveParts(s, split, its[center..][..k]) && Heads(s, split, its[center..][..k]) == Pick(p, its[center..][..k])
  {
    hide Total, Parts, Emitting, Pick;
    EmittingSizes(p, s, split, its, center, lens);
    var rest := its[center..];
    if 0 < k {
      HeadsWritten(p, s, split, its, center, lens, k - 1);
      HeadAt(p, s, split, its, center, lens, k - 1);
      assert rest[..k][..k - 1] == rest[..k - 1] && rest[..k][k - 1] == its[center + (k - 1)];
      PickLast(p, rest[..k]);
    } else {
      assert rest[..0] == [];
      PickNone(p);
    }
  }

  lemma PickNone(p: seq<PrimRef>)
    ensures Pick(p, []) == []
  {
  }

  lemma HeadAt(p: seq<PrimRef>, s: seq<PrimRef>, split: Split, its: seq<Item>, center: nat, lens: seq<nat>, k: nat)
    requires Emitting(p, s, split, its, center, lens, {}) && k < |lens|
    ensures center + k < |its|
    ensures var it := its[center + k]; Parts(s, split, it) != [] && At(p, it) == Parts(s, split, it)[0]
  {
    hide Total, Parts, Whole;
    assert Emitted(p, s, split, its, center, lens, k);
  }

  lemma PickLast(p: seq<PrimRef>, its: seq<Item>)
    requires its != []
    ensures Pick(p, its) == Pick(p, its[..|its| - 1]) + [At(p, its[|its| - 1])]
  {
    hide At;
  }

  /** The references after the split: those kept whole and all parts of the
      others. */
  lemma PartsConserved(p: seq<PrimRef>, s: seq<PrimRef>, split: Split, requested: seq<nat>, its: seq<Item>, center: nat, lens: seq<nat>)
    requires multiset(its) == multiset(InitialItems(requested)) && |its| <= |p| && |requested| <= |p|
    requires Emitting(p, s, split, its, center, lens, {}) && HaveParts(s, split, its[center..])
    ensures |its| + Total(lens) <= |p|
    ensures multiset(p[..|its| + Total(lens)]) == multiset(Pick(s, its[..center])) + multiset(Expand(s, split, its[center..]))
  {
    hide Parts, Total, Heads, Tails, Expand, Pick, Emitting;
    EmittingSizes(p, s, split, its, center, lens);
    var n, rest := |its|, its[center..];
    assert lens[..|lens|] == lens && rest[..|lens|] == rest;
    TailsWritten(p, s, split, its, center, lens, |lens|);
    HeadsWritten(p, s, split, its, center, lens, |lens|);
    HeadsAndTails(s, split, rest);
    PickAll(p, requested, its);
    RearrangedDistinct(requested, its);
    PickSplit(p, its, center);
    PickWhole(p, s, split, its, center, lens);
    assert p[..n + Total(lens)] == p[..n] + p[n..n + Total(lens)];
  }

  lemma EmittingSizes(p: seq<PrimRef>, s: seq<PrimRef>, split: Split, its: seq<Item>, center: nat, lens: seq<nat>)
    requires Emitting(p, s, split, its, center, lens, {})
    ensures center + |lens| == |its| && |p| == |s|
  {
  }

  lemma PickSplit(p: seq<PrimRef>, its: seq<Item>, center: nat)
    requires center <= |its|
    ensures Pick(p, its) == Pick(p, its[..center]) + Pick(p, its[center..])
  {
    assert its == its[..center] + its[center..];
    MapConcat(it => At(p, it), its[..center], its[center..]);
  }

  lemma PickWhole(p: seq<PrimRef>, s: seq<PrimRef>, split: Split, its: seq<Item>, center: nat, lens: seq<nat>)
    requires Emitting(p, s, split, its, center, lens, {})
    ensures Pick(p, its[..center]) == Pick(s, its[..center])
  {
    hide At;
  }

  /** What is split in the end: the items from center on, which are those with
      the largest counts that stay within the budget. */
  ghost predicate Chosen(s: seq<PrimRef>, split: Split, its: seq<Item>, requested: seq<nat>, first: nat, center: nat, budget: nat) {
    Arranged(its, requested, first) && Stops(s, split, its, first, center, budget)
  }

  /** All parts if they are within the budget, otherwise the longest suffix of
      the items whose parts stay below it. */
  ghost predicate Stops(s: seq<PrimRef>, split: Split, its: seq<Item>, first: nat, center: nat, budget: nat) {
    && first <= center <= |its|
    && (if Total(Extras(s, split, its, first)) <= budget then center == first
        else first < center && budget <= Total(Extras(s, split, its, center - 1))
             && (center == |its| || Total(Extras(s, split, its, center)) < budget))
  }

  lemma StopsWithin(s: seq<PrimRef>, split: Split, its: seq<Item>, first: nat, budget: nat)
    requires first <= |its|
    ensures Total(Extras(s, split, its, first)) <= budget ==> Stops(s, split, its, first, first, budget)
  {
  }

  lemma StopsAt(s: seq<PrimRef>, split: Split, its: seq<Item>, first: nat, center: nat, budget: nat)
    requires first < center <= |its|
    requires var lens := Extras(s, split, its, first);
      && budget < Total(lens) && budget <= Total(lens[center - 1 - first..])
      && (center == |its| || Total(lens[center - first..]) < budget)
    ensures Stops(s, split, its, first, center, budget)
  {
    hide Total, Extras;
    ExtrasSuffix(s, split, its, first, center - 1);
    ExtrasSuffix(s, split, its, first, center);
  }

  /** createPrimRefArray_presplit for given requested counts: the number of
      references stays within the array, and the references are those that were
      not chosen and all parts of the chosen ones. */
  method CreatePresplit(prims: array<PrimRef>, n: nat, requested: seq<nat>, split: Split, threads: nat)
    returns (count: nat, ghost its: seq<Item>, ghost first: nat, ghost center: nat)
    requires n <= prims.Length && |requested| == n && Bounded(split) && 1 <= threads
    requires forall i :: 0 <= i < n ==> requested[i] <= MAX_SPLITS
    modifies prims
    ensures Chosen(old(prims[..]), split, its, requested, first, center, prims.Length - n)
    ensures count == n + Total(Extras(old(prims[..]), split, its, center)) <= prims.Length
    ensures multiset(prims[..count])
      == multiset(Pick(old(prims[..]), its[..center])) + multiset(Expand(old(prims[..]), split, its[center..]))
  {
    hide Total, Parts, Expand, Pick, Emitting, Arranged, Encoded, Source, Untouched, SumAt, Extras, Packed, Bounded;
    ghost var s := prims[..];
    var items, c := ArrangeItems(requested, threads);
    its, first, center := items[..], c, c;
    ArrangedFacts(requested, its, c);
    ExtrasLength(s, split, its, c);
    if c >= n {
      NothingChosen(s, split, its, requested, c);
      return n, its, first, center;
    }
    var offsets, c1 := ChooseCenter(prims, items, c, split, prims.Length - n, its);
    center := c1;
    ghost var rest := Extras(s, split, its, c1);
    ExtrasLength(s, split, its, c1);
    var offset := ParallelPrefixSum(offsets, rest, c1 - c, n - c, n - c1, threads);
    NoneLeft(rest);
    EmitParts(prims, items, c1, split, offsets, n - c, its, rest);
    AllHaveParts(s, split, its, c, c1);
    PartsConserved(prims[..], s, split, requested, its, c1, rest);
    count := n + offset;
  }

  /** Counts the parts and keeps as many items as the budget allows. */
  method ChooseCenter(prims: array<PrimRef>, items: array<Item>, c: nat, split: Split, budget: nat, ghost its: seq<Item>)
    returns (offsets: array<nat>, c1: nat)
    requires items[..] == its && c < |its| && Bounded(split)
    requires forall j: nat :: c <= j < |its| ==> 1 <= its[j].data <= MAX_SPLITS
    requires forall j: nat :: j < |its| ==> its[j].index < prims.Length
    modifies items
    ensures fresh(offsets) && c <= c1 <= |its| && Source(offsets[..], Extras(prims[..], split, its, c1), c1 - c, |its| - c)
    ensures Stops(prims[..], split, its, c, c1, budget)
    ensures Packed(items[..], its, Extras(prims[..], split, its, c1), c1)
  {
    hide Total, Parts, Encoded, Source, Extras, Packed, Bounded, Stops;
    ghost var s := prims[..];
    ghost var lens := Extras(s, split, its, c);
    ExtrasLength(s, split, its, c);
    StopsWithin(s, split, its, c, budget);
    offsets := new nat[2 * (items.Length - c)](_ => 0);
    var total := CountParts(prims, items, c, split, offsets, its, lens);
    c1 := c;
    if total > budget {
      c1 := Shrink(items, c, budget, its, lens);
      StopsAt(s, split, its, c, c1, budget);
    }
    ExtrasSuffix(s, split, its, c, c1);
    ghost var rest := Extras(s, split, its, c1);
    OffsetsReady(offsets[..], lens, rest, |its| - c, c1 - c);
    EncodedAt(items[..], its, lens, c, c1, rest);
  }

  lemma ArrangedFacts(requested: seq<nat>, its: seq<Item>, c: nat)
    requires Arranged(its, requested, c) && forall i :: 0 <= i < |requested| ==> requested[i] <= MAX_SPLITS
    ensures |its| == |requested| && c <= |its| && Distinct(its, |its|) && multiset(its) == multiset(InitialItems(requested))
    ensures forall j: nat :: c <= j < |its| ==> 1 <= its[j].data <= MAX_SPLITS
    ensures forall j: nat :: j < |its| ==> its[j].index < |requested|
  {
    RearrangedDistinct(requested, its);
  }

  lemma NothingChosen(s: seq<PrimRef>, split: Split, its: seq<Item>, requested: seq<nat>, c: nat)
    requires Arranged(its, requested, c) && c == |its| <= |s|
    ensures Total(Extras(s, split, its, c)) == 0
    ensures multiset(s[..|its|]) == multiset(Pick(s, its[..c])) + multiset(Expand(s, split, its[c..]))
  {
    hide Pick;
    PickAll(s, requested, its);
    assert its[..c] == its && its[c..] == [];
  }

  lemma ExtrasLength(s: seq<PrimRef>, split: Split, its: seq<Item>, c: nat)
    requires c <= |its|
    ensures |Extras(s, split, its, c)| == |its| - c
  {
  }

  lemma ExtrasSuffix(s: seq<PrimRef>, split: Split, its: seq<Item>, c: nat, c1: nat)
    requires c <= c1 <= |its|
    ensures Extras(s, split, its, c1) == Extras(s, split, its, c)[c1 - c..]
  {
    hide More;
  }

  lemma OffsetsReady(a: seq<nat>, lens: seq<nat>, rest: seq<nat>, m: nat, k: nat)
    requires |a| == 2 * m && m == |lens| && a[..m] == lens && k <= m && rest == lens[k..]
    ensures Source(a, rest, k, m)
  {
    assert a[k..k + |rest|] == a[..m][k..];
  }

  lemma EncodedAt(items: seq<Item>, its: seq<Item>, lens: seq<nat>, c: nat, c1: nat, rest: seq<nat>)
    requires Encoded(items, its, lens, c, |its|) && c <= c1 <= |its| && rest == lens[c1 - c..]
    ensures Packed(items, its, rest, c1)
  {
  }

  lemma NoneLeft(lens: seq<nat>)
    ensures lens == [] ==> Total(lens) == 0
  {
  }

  lemma AllHaveParts(s: seq<PrimRef>, split: Split, its: seq<Item>, c: nat, c1: nat)
    requires Bounded(split) && c <= c1 <= |its| && forall j: nat :: c <= j < |its| ==> 1 <= its[j].data <= MAX_SPLITS
    ensures HaveParts(s, split, its[c1..])
  {
    forall it | it in its[c1..]
      ensures Parts(s, split, it) != []
    {
      MoreIs(s, split, it);
    }
  }
}
