/** How deep a tree of halved ranges gets: the split loop of createLargeLeaf
    seen as a function on sizes (rtbuild/qbvh6_builder_sah.h:552-570, 720-765). */
module Depth {
  import opened Common
  import opened Records

  function FirstLargest(z: seq<nat>): (i: nat)
    requires z != []
    ensures i < |z|
    ensures forall j: nat :: j < |z| ==> z[j] <= z[i]
    ensures forall j: nat :: j < i ==> z[j] < z[i]
  {
    if |z| == 1 then 0 else
      var n := |z| - 1;
      var k := FirstLargest(z[..n]);
      assert forall j: nat :: j < n ==> z[j] == z[..n][j];
      if z[n] > z[k] then n else k
  }

  function Halve(z: seq<nat>, i: nat): seq<nat>
    requires i < |z|
  {
    z[i := z[i] / 2] + [z[i] - z[i] / 2]
  }

  /** Sizes of the children when the largest one above `leaf` is halved until
      there are six. */
  function Spread(z: seq<nat>, leaf: nat): seq<nat>
    requires z != []
    decreases BVH_WIDTH - |z|
  {
    var i := FirstLargest(z);
    if BVH_WIDTH <= |z| || z[i] <= leaf then z else Spread(Halve(z, i), leaf)
  }

  function Over(a: nat, m: int): nat {
    if a > m then 1 else 0
  }

  /** The number of sizes above m. */
  function Above(z: seq<nat>, m: int): nat {
    if z == [] then 0 else Above(z[..|z| - 1], m) + Over(z[|z| - 1], m)
  }

  lemma {:induction false} AboveUpdate(z: seq<nat>, m: int, i: nat, x: nat)
    requires i < |z|
    ensures Above(z[i := x], m) == Above(z, m) - Over(z[i], m) + Over(x, m)
  {
    var n := |z| - 1;
    if i == n {
      assert z[i := x][..n] == z[..n];
    } else {
      AboveUpdate(z[..n], m, i, x);
      assert z[i := x][..n] == z[..n][i := x];
    }
  }

  lemma {:induction false} AboveSome(z: seq<nat>, m: int)
    ensures 0 < Above(z, m) <==> exists i: nat :: i < |z| && z[i] > m
  {
    if z != [] {
      var n := |z| - 1;
      AboveSome(z[..n], m);
      if i: nat :| i < |z| && z[i] > m {
        assert i < n ==> z[..n][i] > m;
      }
    }
  }

  /** The size of the largest of six children. */
  function Top(n: nat): nat {
    (n + 1) / 4
  }

  /** No more than one over a quarter. */
  predicate Quarter(a: nat, n: nat) {
    a <= n / 4 + 1
  }

  /** The sizes while n is being spread. */
  ghost predicate Stage(z: seq<nat>, n: nat) {
    if |z| == 1 then z[0] == n
    else if |z| == 2 then z[0] + z[1] == n && Near(z[0], z[1])
    else if |z| == 3 then ThreeParts(z[0], z[1], z[2], n) || ThreeParts(z[1], z[0], z[2], n) || ThreeParts(z[2], z[0], z[1], n)
    else
      && 4 <= |z| <= 6 && Above(z, Top(n)) <= 6 - |z| && 7 - |z| <= Above(z, Top(n) - 1)
      && forall i: nat :: i < |z| ==> Quarter(z[i], n)
  }

  /** w is the smaller half of n, a and b are the halves of the other one. */
  ghost predicate ThreeParts(w: nat, a: nat, b: nat, n: nat) {
    w == n / 2 && a + b == n - n / 2 && Near(a, b)
  }

  predicate Near(a: nat, b: nat) {
    a <= b + 1 && b <= a + 1
  }

  lemma StageStep(z: seq<nat>, n: nat)
    requires 7 <= n && 1 <= |z| < 6 && Stage(z, n)
    ensures Stage(Halve(z, FirstLargest(z)), n)
  {
    hide Stage, Halve, FirstLargest;
    if |z| < 3 {
      StageEarly(z, n);
    } else if |z| == 3 {
      StageThree(z, n);
    } else {
      StageLate(z, n);
    }
  }

  lemma StageEarly(z: seq<nat>, n: nat)
    requires 7 <= n && 1 <= |z| < 3 && Stage(z, n)
    ensures Stage(Halve(z, FirstLargest(z)), n)
  {
    hide Above, Quarter, Top;
    var i := FirstLargest(z);
    HalfNear(z[i]);
    if |z| == 2 {
      SmallerHalf(z[1 - i], z[i], n);
      var y := Halve(z, i);
      assert i == 0 ==> ThreeParts(y[1], y[0], y[2], n);
      assert i == 1 ==> ThreeParts(y[0], y[1], y[2], n);
    }
  }

  lemma HalfNear(x: nat)
    ensures x / 2 <= x && Near(x / 2, x - x / 2)
  {
  }

  lemma SmallerHalf(a: nat, b: nat, n: nat)
    requires a + b == n && a <= b <= a + 1
    ensures a == n / 2
  {
  }

  lemma StageThree(z: seq<nat>, n: nat)
    requires 7 <= n && |z| == 3 && Stage(z, n)
    ensures Stage(Halve(z, FirstLargest(z)), n)
  {
    hide Above, Top, Quarter, Over, FirstLargest, Stage;
    var i := FirstLargest(z);
    LargestPart(z, n);
    HalfNear(z[i]);
    QuarterParts(z[i] / 2, z[i] - z[i] / 2, if i == 0 then z[1] else z[0], if i == 2 then z[1] else z[2], n);
    StageFour(z, n, i, z[i] / 2, z[i] - z[i] / 2);
  }

  lemma StageFour(z: seq<nat>, n: nat, i: nat, x: nat, y: nat)
    requires |z| == 3 && i < 3
    requires forall j: nat :: j < 3 && j != i ==> Quarter(z[j], n)
    requires Quarter(x, n) && Quarter(y, n)
    requires var a, b := if i == 0 then z[1] else z[0], if i == 2 then z[1] else z[2];
      && Over(x, Top(n)) + Over(y, Top(n)) + Over(a, Top(n)) + Over(b, Top(n)) <= 2
      && 3 <= Over(x, Top(n) - 1) + Over(y, Top(n) - 1) + Over(a, Top(n) - 1) + Over(b, Top(n) - 1)
    ensures Stage(z[i := x] + [y], n)
  {
    hide Above, Top, Quarter, Over;
    FourAbove(z[i := x] + [y], Top(n));
    FourAbove(z[i := x] + [y], Top(n) - 1);
  }

  lemma LargestPart(z: seq<nat>, n: nat)
    requires 7 <= n && |z| == 3 && Stage(z, n)
    ensures var i := FirstLargest(z);
      ThreeParts(z[i], if i == 0 then z[1] else z[0], if i == 2 then z[1] else z[2], n)
  {
    hide FirstLargest;
  }

  lemma QuarterParts(x: nat, y: nat, a: nat, b: nat, n: nat)
    requires x + y == n / 2 && Near(x, y) && a + b == n - n / 2 && Near(a, b)
    ensures Quarter(x, n) && Quarter(y, n) && Quarter(a, n) && Quarter(b, n)
    ensures var q := Top(n);
      && Over(x, q) + Over(y, q) + Over(a, q) + Over(b, q) <= 2
      && 3 <= Over(x, q - 1) + Over(y, q - 1) + Over(a, q - 1) + Over(b, q - 1)
  {
    Quarters(n);
  }

  lemma FourAbove(y: seq<nat>, m: int)
    requires |y| == 4
    ensures Above(y, m) == Over(y[0], m) + Over(y[1], m) + Over(y[2], m) + Over(y[3], m)
  {
    assert y[..3][..2] == y[..2] && y[..2][..1] == y[..1];
    assert Above(y[..1], m) == Over(y[0], m);
    assert Above(y[..2], m) == Above(y[..1], m) + Over(y[1], m);
    assert Above(y[..3], m) == Above(y[..2], m) + Over(y[2], m);
  }

  lemma Quarters(n: nat)
    ensures var q, r := n / 4, n % 4;
      n == 4 * q + r && n / 2 == 2 * q + r / 2 && (n + 1) / 4 == q + (if r == 3 then 1 else 0)
  {
  }

  lemma StageLate(z: seq<nat>, n: nat)
    requires 7 <= n && 4 <= |z| < 6 && Stage(z, n)
    ensures Stage(Halve(z, FirstLargest(z)), n)
  {
    hide Stage;
    var i := FirstLargest(z);
    StageQuarter(z, n, i);
    HalfQuarter(z[i], n);
    StageSplit(z, n, i, z[i] / 2, z[i] - z[i] / 2);
  }

  lemma StageQuarter(z: seq<nat>, n: nat, i: nat)
    requires 4 <= |z| && Stage(z, n) && i < |z|
    ensures Quarter(z[i], n)
  {
  }

  lemma StageSplit(z: seq<nat>, n: nat, i: nat, x: nat, y: nat)
    requires 4 <= |z| < 6 && Stage(z, n) && i < |z| && (forall j: nat :: j < |z| ==> z[j] <= z[i])
    requires x <= Top(n) && y <= Top(n) && Quarter(x, n) && Quarter(y, n)
    ensures Stage(z[i := x] + [y], n)
  {
    hide Above, Quarter, Top;
    var w := z[i := x];
    AboveUpdate(z, Top(n), i, x);
    AboveUpdate(z, Top(n) - 1, i, x);
    AboveAppend(w, Top(n), y);
    AboveAppend(w, Top(n) - 1, y);
    AboveSome(z, Top(n));
  }

  lemma AboveAppend(z: seq<nat>, m: int, x: nat)
    ensures Above(z + [x], m) == Above(z, m) + Over(x, m)
  {
    assert (z + [x])[..|z|] == z;
  }

  lemma HalfQuarter(x: nat, n: nat)
    requires 7 <= n && Quarter(x, n)
    ensures x / 2 <= x - x / 2 <= Top(n) && Quarter(x - x / 2, n) && Quarter(x / 2, n)
  {
    Quarters(n);
  }

  lemma {:induction false} SpreadStage(z: seq<nat>, n: nat, leaf: nat)
    requires 7 <= n && 1 <= |z| <= 6 && Stage(z, n)
    ensures var y := Spread(z, leaf);
      1 <= |y| <= 6 && Stage(y, n) && (|y| < 6 ==> forall i: nat :: i < |y| ==> y[i] <= leaf)
    decreases 6 - |z|
  {
    hide Stage;
    var i := FirstLargest(z);
    if |z| < 6 && z[i] > leaf {
      StageStep(z, n);
      SpreadStage(Halve(z, i), n, leaf);
    }
  }

  /** Six children have at most (n + 1) / 4 references, and one has that many;
      with fewer children all are leaves. */
  lemma SpreadLimits(n: nat, leaf: nat)
    requires 7 <= n
    ensures var z := Spread([n], leaf);
      && 1 <= |z| <= 6
      && (|z| == 6 ==> (forall i: nat :: i < 6 ==> z[i] <= (n + 1) / 4) && exists i: nat :: i < 6 && z[i] == (n + 1) / 4)
      && (|z| < 6 ==> (forall i: nat :: i < |z| ==> z[i] <= leaf) && n <= 4 * leaf + 2)
  {
    hide Above;
    var q := Top(n);
    assert Stage([n], n);
    SpreadStage([n], n, leaf);
    var z := Spread([n], leaf);
    AboveSome(z, q);
    AboveSome(z, q - 1);
  }

  /** The most references that halving from depth d places within the limit. */
  function Capacity(leaf: nat, d: nat): nat
    decreases MAX_DEPTH - d
  {
    if MAX_DEPTH < d then 0 else if d == MAX_DEPTH then leaf else 4 * Capacity(leaf, d + 1) + 2
  }

  /** At depth d a range of n references is a leaf or splits into ranges with
      these sizes: it keeps within the depth limit iff all parts do. */
  lemma CapacitySpread(n: nat, leaf: nat, d: nat)
    requires 6 <= leaf < n && d <= MAX_DEPTH
    ensures var z := Spread([n], leaf);
      n <= Capacity(leaf, d) <==> forall i: nat :: i < |z| ==> z[i] <= Capacity(leaf, d + 1)
  {
    SpreadLimits(n, leaf);
    CapacityLeaf(leaf, d);
    var z := Spread([n], leaf);
    if d == MAX_DEPTH {
      SpreadPositive([n], leaf);
      assert z[0] > Capacity(leaf, d + 1);
    } else {
      CapacityLeaf(leaf, d + 1);
    }
  }

  lemma {:induction false} SpreadPositive(z: seq<nat>, leaf: nat)
    requires z != [] && 1 <= leaf && forall i: nat :: i < |z| ==> 0 < z[i]
    ensures Spread(z, leaf) != []
    ensures forall i: nat :: i < |Spread(z, leaf)| ==> 0 < Spread(z, leaf)[i]
    decreases BVH_WIDTH - |z|
  {
    var i := FirstLargest(z);
    if |z| < BVH_WIDTH && leaf < z[i] {
      SpreadPositive(Halve(z, i), leaf);
    }
  }

  lemma {:induction false} CapacityLeaf(leaf: nat, d: nat)
    requires d <= MAX_DEPTH
    ensures leaf <= Capacity(leaf, d)
    decreases MAX_DEPTH - d
  {
    if d < MAX_DEPTH {
      CapacityLeaf(leaf, d + 1);
    }
  }

  lemma {:induction false} CapacityMono(leaf: nat, leaf1: nat, d: nat, d1: nat)
    requires leaf <= leaf1 && d1 <= d
    ensures Capacity(leaf, d) <= Capacity(leaf1, d1)
    decreases MAX_DEPTH - d1
  {
    hide Capacity;
    CapacityIs(leaf, d);
    CapacityIs(leaf1, d1);
    if d1 < MAX_DEPTH && d1 < d {
      CapacityMono(leaf, leaf1, d, d1 + 1);
    } else if d1 == d && d < MAX_DEPTH {
      CapacityMono(leaf, leaf1, d + 1, d1 + 1);
    }
  }

  lemma CapacityIs(leaf: nat, d: nat)
    ensures Capacity(leaf, d) == if MAX_DEPTH < d then 0 else if d == MAX_DEPTH then leaf else 4 * Capacity(leaf, d + 1) + 2
  {
  }

  function Pow4(k: nat): nat {
    if k == 0 then 1 else 4 * Pow4(k - 1)
  }

  /** The capacity in closed form; in particular it is at least leaf * 4^(27-d). */
  lemma {:induction false} CapacityClosed(leaf: nat, d: nat)
    requires d <= MAX_DEPTH
    ensures 3 * Capacity(leaf, d) + 2 == (3 * leaf + 2) * Pow4(MAX_DEPTH - d)
    ensures leaf * Pow4(MAX_DEPTH - d) <= Capacity(leaf, d)
    decreases MAX_DEPTH - d
  {
    hide Pow4;
    if d < MAX_DEPTH {
      CapacityClosed(leaf, d + 1);
      Pow4Next(MAX_DEPTH - d - 1);
      ClosedNext(leaf, Pow4(MAX_DEPTH - d - 1), Capacity(leaf, d + 1));
    } else {
      Pow4Zero();
    }
  }

  lemma Pow4Zero()
    ensures Pow4(0) == 1
  {
  }

  lemma Pow4Next(k: nat)
    ensures Pow4(k + 1) == 4 * Pow4(k)
  {
  }

  lemma ClosedNext(leaf: nat, p: nat, c: nat)
    requires 3 * c + 2 == (3 * leaf + 2) * p && leaf * p <= c
    ensures 3 * (4 * c + 2) + 2 == (3 * leaf + 2) * (4 * p) && leaf * (4 * p) <= 4 * c + 2
  {
    Scale(leaf, p);
  }

  lemma Scale(leaf: nat, p: nat)
    ensures leaf * (4 * p) == 4 * (leaf * p) && (3 * leaf + 2) * (4 * p) == 4 * ((3 * leaf + 2) * p)
  {
  }
}
