/** How many parts pre-splitting asks for: shares of the free slots by priority,
    rounded up to powers of two
    (rtbuild/builders/primrefgen_presplit.h:113-132, 244-285). */
module Requests {
  import opened Common
  import opened Geometry
  import opened Bvh
  import Morton
  import Presplit
  import SplitPlanes

  /** Projected areas of primitives, and the fourth root. */
  datatype Weights = Weights(area: PrimRef -> real, root4: real -> real)

  /** Positions of code bits weigh more the higher they are. */
  function PositionWeight(diff: nat): real {
    if diff == 0 then 1.0 else 1.5 * PositionWeight(diff - 1)
  }

  /** Surface of the box that the primitive leaves free, weighted. */
  function Gain(b: Box, area_prim: real, diff: nat): real {
    MaxR(0.0, 2.0 * HalfArea(b) - area_prim) * PositionWeight(diff)
  }

  /** The number of bits up to the highest one in which the codes differ. */
  ghost function CodeBits(g: Morton.Grid, p: Box): nat
    requires Morton.OnGrid(g, p) && Morton.LowerCode(g, p) != Morton.UpperCode(g, p)
  {
    Morton.CodesEqual(g, p);
    var q := Morton.HighPlace(Morton.Xor(Morton.LowerCode(g, p), Morton.UpperCode(g, p)), Morton.TOP);
    3 * q.level + q.dim + 1
  }

  /** Nothing for references that no plane splits, or without area. */
  ghost function Priority(w: Weights, g: Morton.Grid, p: PrimRef): real
    requires Morton.OnGrid(g, p.bounds)
  {
    if Morton.LowerCode(g, p.bounds) == Morton.UpperCode(g, p.bounds) || w.area(p) == 0.0 then 0.0
    else w.root4(Gain(p.bounds, w.area(p), CodeBits(g, p.bounds)))
  }

  ghost predicate AllOnGrid(g: Morton.Grid, s: seq<PrimRef>) {
    forall i: nat :: i < |s| ==> Morton.OnGrid(g, s[i].bounds)
  }

  ghost predicate Roots(w: Weights) {
    forall x: real :: 0.0 <= w.root4(x)
  }

  ghost function PrioritySum(w: Weights, g: Morton.Grid, s: seq<PrimRef>): (r: real)
    requires AllOnGrid(g, s)
    ensures Roots(w) ==> 0.0 <= r
  {
    if s == [] then 0.0 else PrioritySum(w, g, s[..|s| - 1]) + Priority(w, g, s[|s| - 1])
  }

  /** The least power of two from p on that is at least rel, but at most 32. */
  function PowerAbove(rel: real, p: nat): (r: nat)
    requires p in {2, 4, 8, 16, 32}
    ensures r in {2, 4, 8, 16, 32} && p <= r && (rel <= r as real || r == 32) && (r == p || (r / 2) as real < rel)
    decreases 32 - p
  {
    if rel <= p as real || p == 32 then p else PowerAbove(rel, 2 * p)
  }

  /** 2^max(min(ceil(log2(rel)), 5), 1), and 1 below one. */
  function PartsFor(rel: real): (r: nat)
    ensures 1 <= r <= Presplit.MAX_SPLITS
    ensures r == 1 <==> rel < 1.0
    ensures 1 < r ==> r as real <= 2.0 * rel && (rel <= r as real || r == Presplit.MAX_SPLITS)
    ensures 1 < r ==> r in {2, 4, 8, 16, 32} && (2 < r ==> (r / 2) as real < rel)
  {
    if rel < 1.0 then 1 else PowerAbove(rel, 2)
  }

  /** The share of the budget that a priority gets. */
  function Share(budget: nat, priority: real, psum: real): real {
    if psum == 0.0 then 0.0 else budget as real * priority * (1.0 / psum)
  }

  ghost predicate RequestedAt(w: Weights, g: Morton.Grid, s: seq<PrimRef>, budget: nat, requested: seq<nat>, i: nat)
    requires AllOnGrid(g, s) && i < |s| && |requested| == |s|
  {
    var p := Priority(w, g, s[i]);
    requested[i] == if p <= 0.0 then 1 else PartsFor(Share(budget, p, PrioritySum(w, g, s)))
  }

  ghost predicate AllRequested(w: Weights, g: Morton.Grid, s: seq<PrimRef>, budget: nat, requested: seq<nat>) {
    && AllOnGrid(g, s) && |requested| == |s|
    && forall i: nat :: i < |s| ==> RequestedAt(w, g, s, budget, requested, i)
  }

  /** The number of parts asked for each reference. */
  method RequestedParts(prims: array<PrimRef>, n: nat, scene: Box, w: Weights, budget: nat) returns (requested: seq<nat>)
    requires n <= prims.Length && Proper(scene) && Roots(w)
    requires forall i: nat :: i < n ==> Proper(prims[i].bounds) && Subset(prims[i].bounds, scene)
    ensures scene.Box? && AllRequested(w, Morton.NewGrid(scene), prims[..n], budget, requested)
  {
    hide Morton.OnGrid, Morton.NewGrid, Morton.LowerCode, Morton.UpperCode, Morton.SameCoordinates, Morton.HighPlace, PositionWeight, Proper,
      Subset, PartsFor, Roots, Morton.NoneHigher;
    BoxOfProper(scene);
    var g := Morton.NewGrid(scene);
    ghost var s := prims[..n];
    forall i: nat | i < n
      ensures Morton.OnGrid(g, s[i].bounds)
    {
      Morton.InsideGrid(scene, s[i].bounds);
    }
    var priorities: seq<real>, psum := [], 0.0;
    for i := 0 to n
      invariant |priorities| == i && AllOnGrid(g, s[..i]) && psum == PrioritySum(w, g, s[..i])
      invariant forall j: nat :: j < i ==> priorities[j] == Priority(w, g, s[j])
    {
      assert s[..i + 1][..i] == s[..i];
      var priority := ComputePriority(w, g, prims[i]);
      priorities, psum := priorities + [priority], psum + priority;
    }
    assert s[..n] == s;
    requested := [];
    for i := 0 to n
      invariant |requested| == i
      invariant forall j: nat :: j < i ==>
        requested[j] == if priorities[j] <= 0.0 then 1 else PartsFor(Share(budget, priorities[j], psum))
    {
      requested := requested + [if priorities[i] <= 0.0 then 1 else PartsFor(Share(budget, priorities[i], psum))];
    }
  }

  method ComputePriority(w: Weights, g: Morton.Grid, p: PrimRef) returns (priority: real)
    requires Morton.OnGrid(g, p.bounds)
    ensures priority == Priority(w, g, p)
  {
    hide Morton.OnGrid, Morton.LowerCode, Morton.UpperCode, Morton.SameCoordinates, Morton.HighPlace, Morton.Highest, Gain;
    Morton.CodesEqual(g, p.bounds);
    var lower_code, upper_code := Morton.ComputeMC(g, p.bounds);
    var area_prim := w.area(p);
    if lower_code == upper_code || area_prim == 0.0 {
      return 0.0;
    }
    var q := Morton.TopBit(Morton.Xor(lower_code, upper_code));
    priority := w.root4(Gain(p.bounds, area_prim, 3 * q.level + q.dim + 1));
  }

  /** What the primitive leaves free of the six faces; every bit makes it half as
      much again. */
  lemma GainIs(b: Box, area_prim: real, diff: nat)
    requires b.Box?
    ensures var faces := 2.0 * FaceArea(b, 0) + 2.0 * FaceArea(b, 1) + 2.0 * FaceArea(b, 2);
      Gain(b, area_prim, 0) == if faces <= area_prim then 0.0 else faces - area_prim
    ensures 2.0 * Gain(b, area_prim, diff + 1) == 3.0 * Gain(b, area_prim, diff)
  {
    hide HalfArea, FaceArea;
    HalfOfFaces(b);
    var g, w := MaxR(0.0, 2.0 * HalfArea(b) - area_prim), PositionWeight(diff);
    assert 2.0 * (g * (1.5 * w)) == 3.0 * (g * w);
  }

  // ----- which plane the weight belongs to

  /** The position of the highest differing bit is that of the plane that would
      be chosen: three for each factor of two, and its dimension. */
  lemma BitsOfPlane(scene: Box, side: real, p: Box, d: nat, i: nat)
    requires Proper(scene) && Proper(p) && Subset(p, scene) && SplitPlanes.LongestSide(scene, side)
    requires SplitPlanes.BestPlane(scene, side, p, d, i)
    ensures Morton.OnGrid(Morton.NewGrid(scene), p)
    ensures Morton.LowerCode(Morton.NewGrid(scene), p) != Morton.UpperCode(Morton.NewGrid(scene), p)
    ensures CodeBits(Morton.NewGrid(scene), p) == 3 * SplitPlanes.Twos(i) + d + 1
  {
    hide Morton.OnGrid, Morton.NewGrid, Morton.LowerCode, Morton.UpperCode, Morton.SameCoordinates, Morton.HighPlace, Morton.Highest, Morton.Xor,
      SplitPlanes.LongestSide, SplitPlanes.Twos, Proper, Subset, SplitPlanes.WellInside, Morton.RoundDown, SplitPlanes.Chosen, Morton.IUpper;
    BoxOfProper(scene);
    BoxOfProper(p);
    var g := Morton.NewGrid(scene);
    Morton.InsideGrid(scene, p);
    Morton.CodesEqual(g, p);
    if Morton.LowerCode(g, p) == Morton.UpperCode(g, p) {
      SplitPlanes.NoCuts(scene, side, p);
      DimOfPlane(scene, side, p, d, i);
    } else {
      var q := Morton.HighPlace(Morton.Xor(Morton.LowerCode(g, p), Morton.UpperCode(g, p)), Morton.TOP);
      Morton.HighPlaceIs(Morton.Xor(Morton.LowerCode(g, p), Morton.UpperCode(g, p)), Morton.TOP);
      SplitPlanes.PlaceChosen(g, p, q);
      SplitPlanes.ChosenIsBest(scene, side, p, q.dim, Morton.RoundDown(Morton.IUpper(g, p, q.dim), q.level));
    }
  }

  lemma DimOfPlane(scene: Box, side: real, p: Box, d: nat, i: nat)
    requires scene.Box? && p.Box? && SplitPlanes.WellInside(scene, side, p, d, i)
    ensures d < 3
  {
  }

  /** The priority of a reference with area: what its surface leaves free, 1.5
      times as much for each bit of that position. */
  lemma PriorityIs(w: Weights, scene: Box, side: real, p: PrimRef, d: nat, i: nat)
    requires Proper(scene) && Proper(p.bounds) && Subset(p.bounds, scene) && SplitPlanes.LongestSide(scene, side)
    requires SplitPlanes.BestPlane(scene, side, p.bounds, d, i)
    ensures Morton.OnGrid(Morton.NewGrid(scene), p.bounds)
    ensures Priority(w, Morton.NewGrid(scene), p)
      == if w.area(p) == 0.0 then 0.0 else w.root4(Gain(p.bounds, w.area(p), 3 * SplitPlanes.Twos(i) + d + 1))
  {
    hide Morton.OnGrid, Morton.NewGrid, Morton.LowerCode, Morton.UpperCode, SplitPlanes.LongestSide, SplitPlanes.BestPlane, SplitPlanes.Twos,
      CodeBits, Gain, Proper, Subset;
    BitsOfPlane(scene, side, p.bounds, d, i);
  }

  /** Without a plane well inside there is no priority. */
  lemma NoPlaneNoPriority(w: Weights, scene: Box, side: real, p: PrimRef)
    requires Proper(scene) && Proper(p.bounds) && Subset(p.bounds, scene) && SplitPlanes.LongestSide(scene, side)
    requires forall e: nat, j: nat :: !SplitPlanes.WellInside(scene, side, p.bounds, e, j)
    ensures Morton.OnGrid(Morton.NewGrid(scene), p.bounds) && Priority(w, Morton.NewGrid(scene), p) == 0.0
  {
    hide Morton.OnGrid, Morton.NewGrid, Morton.LowerCode, Morton.UpperCode, SplitPlanes.LongestSide, SplitPlanes.Twos, SplitPlanes.WellInside,
      CodeBits, Gain, Proper, Subset, Morton.Highest, Morton.Xor, Morton.HighPlace, Morton.RoundDown, SplitPlanes.Chosen, Morton.IUpper;
    BoxOfProper(scene);
    BoxOfProper(p.bounds);
    var g := Morton.NewGrid(scene);
    Morton.InsideGrid(scene, p.bounds);
    Morton.CodesEqual(g, p.bounds);
    if Morton.LowerCode(g, p.bounds) != Morton.UpperCode(g, p.bounds) {
      var q := Morton.HighPlace(Morton.Xor(Morton.LowerCode(g, p.bounds), Morton.UpperCode(g, p.bounds)), Morton.TOP);
      Morton.HighPlaceIs(Morton.Xor(Morton.LowerCode(g, p.bounds), Morton.UpperCode(g, p.bounds)), Morton.TOP);
      SplitPlanes.PlaceChosen(g, p.bounds, q);
      SplitPlanes.ChosenIsBest(scene, side, p.bounds, q.dim, Morton.RoundDown(Morton.IUpper(g, p.bounds, q.dim), q.level));
    }
  }

  // ----- the total

  /** Shares are to each other as the priorities. */
  lemma ShareRatio(budget: nat, p: real, q: real, psum: real)
    ensures Share(budget, p, psum) * q == Share(budget, q, psum) * p
  {
    if psum != 0.0 {
      var f := 1.0 / psum;
      assert budget as real * p * f * q == budget as real * q * f * p;
    }
  }

  /** All shares. */
  ghost function ShareSum(w: Weights, g: Morton.Grid, s: seq<PrimRef>, budget: nat, psum: real): real
    requires AllOnGrid(g, s)
  {
    if s == [] then 0.0 else ShareSum(w, g, s[..|s| - 1], budget, psum) + Share(budget, Priority(w, g, s[|s| - 1]), psum)
  }

  /** They add up to the budget. */
  lemma SharesUseBudget(w: Weights, g: Morton.Grid, s: seq<PrimRef>, budget: nat)
    requires AllOnGrid(g, s) && PrioritySum(w, g, s) != 0.0
    ensures ShareSum(w, g, s, budget, PrioritySum(w, g, s)) == budget as real
  {
    hide Share, ShareSum, PrioritySum, Morton.OnGrid;
    var psum := PrioritySum(w, g, s);
    ShareSumIs(w, g, s, budget, psum);
    WholeShare(budget, psum);
  }

  lemma {:induction false} ShareSumIs(w: Weights, g: Morton.Grid, s: seq<PrimRef>, budget: nat, psum: real)
    requires AllOnGrid(g, s)
    ensures ShareSum(w, g, s, budget, psum) == Share(budget, PrioritySum(w, g, s), psum)
  {
    hide Share, Priority, Morton.OnGrid;
    if s == [] {
      NoShare(budget, psum);
    } else {
      ShareSumIs(w, g, s[..|s| - 1], budget, psum);
      AddShares(budget, PrioritySum(w, g, s[..|s| - 1]), Priority(w, g, s[|s| - 1]), psum);
    }
  }

  /** All parts asked for of references that are to be split. */
  function Asked(requested: seq<nat>): nat {
    if requested == [] then 0 else
      var last := requested[|requested| - 1];
      Asked(requested[..|requested| - 1]) + if last <= 1 then 0 else last
  }

  /** At most twice as many parts are asked for as there are free slots. */
  lemma AskedWithin(w: Weights, g: Morton.Grid, s: seq<PrimRef>, budget: nat, requested: seq<nat>)
    requires Roots(w) && AllRequested(w, g, s, budget, requested)
    ensures Asked(requested) <= 2 * budget
  {
    hide Priority, PrioritySum, Share, Morton.OnGrid;
    var psum := PrioritySum(w, g, s);
    AskedUpTo(w, g, s, budget, requested, psum, |s|);
    assert s[..|s|] == s && requested[..|s|] == requested;
    WholeShare(budget, psum);
  }

  lemma WholeShare(budget: nat, psum: real)
    ensures Share(budget, psum, psum) == if psum == 0.0 then 0.0 else budget as real
  {
  }

  lemma {:induction false} AskedUpTo(w: Weights, g: Morton.Grid, s: seq<PrimRef>, budget: nat, requested: seq<nat>, psum: real, k: nat)
    requires Roots(w) && AllOnGrid(g, s) && |requested| == |s| && k <= |s| && psum == PrioritySum(w, g, s)
    requires forall i: nat :: i < |s| ==> RequestedAt(w, g, s, budget, requested, i)
    ensures AllOnGrid(g, s[..k])
    ensures Asked(requested[..k]) as real <= 2.0 * Share(budget, PrioritySum(w, g, s[..k]), psum)
  {
    hide Priority, Share, Morton.OnGrid, RequestedAt;
    if k == 0 {
      NoShare(budget, psum);
    } else {
      AskedUpTo(w, g, s, budget, requested, psum, k - 1);
      assert s[..k][..k - 1] == s[..k - 1] && requested[..k][..k - 1] == requested[..k - 1];
      AskedOne(w, g, s, budget, requested, k - 1);
      AddShares(budget, PrioritySum(w, g, s[..k - 1]), Priority(w, g, s[k - 1]), psum);
    }
  }

  /** One reference asks for at most twice its share. */
  lemma AskedOne(w: Weights, g: Morton.Grid, s: seq<PrimRef>, budget: nat, requested: seq<nat>, i: nat)
    requires Roots(w) && AllOnGrid(g, s) && i < |requested| == |s| && RequestedAt(w, g, s, budget, requested, i)
    ensures var share := Share(budget, Priority(w, g, s[i]), PrioritySum(w, g, s));
      0.0 <= share && (1 < requested[i] ==> requested[i] as real <= 2.0 * share)
  {
    hide Priority, Share, Morton.OnGrid, PrioritySum, PartsFor;
    PriorityPositive(w, g, s[i]);
    AddShares(budget, 0.0, Priority(w, g, s[i]), PrioritySum(w, g, s));
  }

  lemma PriorityPositive(w: Weights, g: Morton.Grid, p: PrimRef)
    requires Roots(w) && Morton.OnGrid(g, p.bounds)
    ensures 0.0 <= Priority(w, g, p)
  {
    hide Gain, CodeBits, Morton.OnGrid;
  }

  lemma NoShare(budget: nat, psum: real)
    ensures Share(budget, 0.0, psum) == 0.0
  {
  }

  lemma AddShares(budget: nat, a: real, b: real, psum: real)
    ensures Share(budget, a + b, psum) == Share(budget, a, psum) + Share(budget, b, psum)
    ensures 0.0 <= psum && 0.0 <= b ==> 0.0 <= Share(budget, b, psum)
  {
  }
}
