/** Pairing of neighbouring triangles to quads with a sliding window over a
    ring buffer (rtbuild/quadifier.h). */
module Quadifier {
  import opened Common

  const PAIRED: nat := 0xFFFF
  const TRIANGLE: nat := 0
  const MAX_DISTANCE: nat := 31
  const WINDOW: nat := 32

  /** The vertex indices of a triangle. */
  datatype Tri = Tri(x: nat, y: nat, z: nat)

  // ----- the test for two triangles

  /** Place of vertex v in triangle a, 3 when it is none of its vertices: the
      lowest set bit of the comparison mask, whose bit 3 is always set. */
  function LocalIndex(a: Tri, v: nat): (i: nat)
    ensures i <= 3
    ensures i == 3 <==> v != a.x && v != a.y && v != a.z
  {
    if v == a.x then 0 else if v == a.y then 1 else if v == a.z then 2 else 3
  }

  function PairTriangles(a: Tri, b: Tri): (r: (bool, nat, nat, nat))
    ensures r.0 <==> exists v :: Shares(a, b, v)
  {
    var lb0, lb1, lb2 := LocalIndex(a, b.x), LocalIndex(a, b.y), LocalIndex(a, b.z);
    var outside := (if lb0 == 3 then 1 else 0) + (if lb1 == 3 then 1 else 0) + (if lb2 == 3 then 1 else 0);
    assert Shares(a, b, b.x) || Shares(a, b, b.y) || Shares(a, b, b.z) <== outside <= 1;
    (outside <= 1, lb0, lb1, lb2)
  }

  /** Every vertex of b other than a single corner v is a vertex of a. */
  ghost predicate Shares(a: Tri, b: Tri, v: nat) {
    || (b.x == v && Has(a, b.y) && Has(a, b.z))
    || (b.y == v && Has(a, b.x) && Has(a, b.z))
    || (b.z == v && Has(a, b.x) && Has(a, b.y))
  }

  predicate Has(a: Tri, v: nat) {
    v == a.x || v == a.y || v == a.z
  }

  predicate CanPair(a: Tri, b: Tri) {
    PairTriangles(a, b).0
  }

  // ----- the ring buffer

  class StaticDeque {
    const slots: array<nat>
    var begin: nat
    var end: nat

    constructor ()
      ensures Valid() && Contents() == [] && fresh(slots)
    {
      slots := new nat[WINDOW];
      begin, end := 0, 0;
    }

    ghost predicate Valid()
      reads this
    {
      slots.Length == WINDOW && begin <= end <= begin + WINDOW
    }

    /** The elements from front to back. */
    ghost function Contents(): (s: seq<nat>)
      requires Valid()
      reads this, slots
      ensures |s| == end - begin
      ensures forall i {:trigger s[i]} :: 0 <= i < |s| ==> s[i] == slots[(begin + i) % WINDOW]
    {
      seq(end - begin, i requires 0 <= i < end - begin reads this, slots => slots[(begin + i) % WINDOW])
    }

    function Size(): (n: nat)
      requires Valid()
      reads this, slots
      ensures n == |Contents()|
    {
      end - begin
    }

    method PopFront() returns (v: nat)
      requires Valid() && Contents() != []
      modifies this`begin
      ensures Valid() && v == old(Contents())[0] && Contents() == old(Contents())[1..]
    {
      ghost var s := Contents();
      v := slots[begin % WINDOW];
      assert v == s[0];
      begin := begin + 1;
      assert forall i :: 0 <= i < |s| - 1 ==> Contents()[i] == s[i + 1];
    }

    method PushBack(v: nat)
      requires Valid() && |Contents()| < WINDOW
      modifies this`end, slots
      ensures Valid() && Contents() == old(Contents()) + [v]
    {
      ghost var s := Contents();
      slots[end % WINDOW] := v;
      end := end + 1;
      forall i | 0 <= i < |s|
        ensures Contents()[i] == s[i]
      {
        SlotsDiffer(begin + i, end - 1);
      }
    }

    /** Access by position; positions wrap around in the buffer. */
    method Read(i: nat) returns (v: nat)
      requires Valid() && begin <= i < end
      ensures v == Contents()[i - begin]
    {
      v := slots[i % WINDOW];
      assert v == Contents()[i - begin];
    }

    method Write(i: nat, v: nat)
      requires Valid() && begin <= i < end
      modifies slots
      ensures Valid() && Contents() == old(Contents())[i - begin := v]
    {
      ghost var s := Contents();
      slots[i % WINDOW] := v;
      forall x | 0 <= x < |s| && x != i - begin
        ensures Contents()[x] == s[x]
      {
        SlotsDiffer(begin + x, i);
      }
    }

    /** Moves the elements in front of position j back by one. */
    method CloseFromFront(j: nat)
      requires Valid() && begin <= j < end
      modifies slots
      ensures Valid() && Contents() == ShiftedBack(old(Contents()), j - begin, 0)
    {
      hide ShiftedBack;
      ghost var s, k := Contents(), j - begin;
      ShiftedEnds(s, k);
      var i := j;
      while i >= begin + 1
        invariant begin <= i <= j && Valid()
        invariant Contents() == ShiftedBack(s, k, i - begin)
      {
        var v := Read(i - 1);
        ShiftBackStep(s, k, i - begin);
        Write(i, v);
        i := i - 1;
      }
    }

    /** Moves the elements behind position j forward by one. */
    method CloseFromEnd(j: nat)
      requires Valid() && begin <= j < end
      modifies slots
      ensures Valid() && Contents() == ShiftedFront(old(Contents()), j - begin, end - begin)
    {
      hide ShiftedFront;
      ghost var s, k := Contents(), j - begin;
      ShiftedEnds(s, k);
      var i := j + 1;
      while i < end
        invariant j + 1 <= i <= end && Valid()
        invariant Contents() == ShiftedFront(s, k, i - begin)
      {
        var v := Read(i);
        ShiftFrontStep(s, k, i - begin);
        Write(i - 1, v);
        i := i + 1;
      }
    }

    /** Removes the element at position j by moving the shorter side. */
    method Erase(j: nat)
      requires Valid() && begin <= j < end
      modifies this, slots
      ensures Valid()
      ensures Contents() == old(Contents())[..j - old(begin)] + old(Contents())[j - old(begin) + 1..]
    {
      hide ShiftedBack, ShiftedFront;
      ghost var s := Contents();
      ShiftedDrop(s, j - begin);
      if j == begin {
        DropFront();
      } else if j - begin < end - j - 1 {
        CloseFromFront(j);
        DropFront();
      } else {
        CloseFromEnd(j);
        DropBack();
      }
    }

    method DropFront()
      requires Valid() && Contents() != []
      modifies this`begin
      ensures Valid() && Contents() == old(Contents())[1..]
    {
      ghost var s := Contents();
      begin := begin + 1;
      assert forall i :: 0 <= i < |s| - 1 ==> Contents()[i] == s[i + 1];
    }

    method DropBack()
      requires Valid() && Contents() != []
      modifies this`end
      ensures Valid() && Contents() == old(Contents())[..|old(Contents())| - 1]
    {
      ghost var s := Contents();
      end := end - 1;
      assert forall i :: 0 <= i < |s| - 1 ==> Contents()[i] == s[i];
    }
  }

  /** s after the elements y to k - 1 moved one place back. */
  ghost function ShiftedBack(s: seq<nat>, k: nat, y: nat): seq<nat>
    requires y <= k < |s|
  {
    s[..y + 1] + s[y..k] + s[k + 1..]
  }

  /** s after the elements k + 1 to y - 1 moved one place forward. */
  ghost function ShiftedFront(s: seq<nat>, k: nat, y: nat): seq<nat>
    requires k < y <= |s|
  {
    s[..k] + s[k + 1..y] + s[y - 1..]
  }

  lemma ShiftedEnds(s: seq<nat>, k: nat)
    requires k < |s|
    ensures ShiftedBack(s, k, k) == s && ShiftedFront(s, k, k + 1) == s
  {
  }

  /** Dropping the end that was moved removes element k. */
  lemma ShiftedDrop(s: seq<nat>, k: nat)
    requires k < |s|
    ensures |ShiftedBack(s, k, 0)| == |s| == |ShiftedFront(s, k, |s|)|
    ensures ShiftedBack(s, k, 0)[1..] == s[..k] + s[k + 1..] == ShiftedFront(s, k, |s|)[..|s| - 1]
    ensures k == 0 ==> s[1..] == s[..k] + s[k + 1..]
  {
  }

  lemma ShiftBackStep(s: seq<nat>, k: nat, y: nat)
    requires 0 < y <= k < |s|
    ensures |ShiftedBack(s, k, y)| == |s| && ShiftedBack(s, k, y)[y - 1] == s[y - 1]
    ensures ShiftedBack(s, k, y)[y := s[y - 1]] == ShiftedBack(s, k, y - 1)
  {
  }

  lemma ShiftFrontStep(s: seq<nat>, k: nat, y: nat)
    requires k < y < |s|
    ensures |ShiftedFront(s, k, y)| == |s| && ShiftedFront(s, k, y)[y] == s[y]
    ensures ShiftedFront(s, k, y)[y - 1 := s[y]] == ShiftedFront(s, k, y + 1)
  {
  }

  /** Different positions in the window have different slots. */
  lemma SlotsDiffer(i: nat, j: nat)
    requires i != j && i < j + WINDOW && j < i + WINDOW
    ensures i % WINDOW != j % WINDOW
  {
  }

  // ----- what a pairing is

  /** Triangle p is stored together with the later triangle r. */
  ghost predicate Leads(q: seq<nat>, p: nat, r: nat) {
    p < |q| && 1 <= q[p] <= MAX_DISTANCE && r == p + q[p]
  }

  /** Triangle r was already paired with a triangle before p. */
  ghost predicate Taken(q: seq<nat>, p0: nat, p: nat, r: nat) {
    exists l: nat :: p0 <= l < p && Leads(q, l, r)
  }

  /** Triangles after p that are closer than `reach` were taken or do not fit. */
  ghost predicate Greedy(q: seq<nat>, tri: nat -> Tri, p0: nat, p1: nat, p: nat, reach: nat) {
    forall r: nat :: p < r < p + reach && r < p1 ==> Taken(q, p0, p, r) || !CanPair(tri(p), tri(r))
  }

  /** The entry of triangle p is final: it follows an earlier leader, leads the
      first later triangle in reach that is free and fits, or stays alone
      because there is none. */
  ghost predicate Assigned(q: seq<nat>, tri: nat -> Tri, p0: nat, p1: nat, p: nat) {
    && p0 <= p < p1 <= |q|
    && (q[p] == PAIRED || q[p] <= MAX_DISTANCE)
    && (q[p] == PAIRED ==> Taken(q, p0, p, p))
    && (q[p] == TRIANGLE ==> Greedy(q, tri, p0, p1, p, WINDOW))
    && (1 <= q[p] <= MAX_DISTANCE ==>
          && p + q[p] < p1 && q[p + q[p]] == PAIRED && CanPair(tri(p), tri(p + q[p]))
          && Greedy(q, tri, p0, p1, p, q[p]))
  }

  /** No triangle follows two leaders among the triangles in a set. */
  ghost predicate OneLeader(q: seq<nat>, p: nat, p': nat) {
    p < |q| && p' < |q| && p != p' && 1 <= q[p] <= MAX_DISTANCE && 1 <= q[p'] <= MAX_DISTANCE ==>
      p + q[p] != p' + q[p']
  }

  /** The pairing of the triangles from p0 to p1 is complete. */
  ghost predicate Matching(q: seq<nat>, tri: nat -> Tri, p0: nat, p1: nat) {
    && p0 <= p1 <= |q|
    && (forall p: nat :: p0 <= p < p1 ==> Assigned(q, tri, p0, p1, p))
    && (forall p: nat, p': nat :: p0 <= p < p1 && p0 <= p' < p1 ==> OneLeader(q, p, p'))
  }

  /** The entries from p0 to n outside the window that are not followers. */
  ghost function Stored(q: seq<nat>, w: seq<nat>, p0: nat, n: nat): nat
    requires n <= |q|
  {
    if n <= p0 then 0
    else Stored(q, w, p0, n - 1) + if n - 1 !in w && q[n - 1] != PAIRED then 1 else 0
  }

  /** The triangles from p0 to next are assigned, apart from those in the
      window w. */
  ghost predicate Pairing(q: seq<nat>, tri: nat -> Tri, p0: nat, p1: nat, next: nat, w: seq<nat>) {
    && p0 <= next <= p1 <= |q|
    && (forall i, j :: 0 <= i < j < |w| ==> w[i] < w[j])
    && (forall i :: 0 <= i < |w| ==> p0 <= w[i] < next)
    && (forall p: nat :: p0 <= p < next && p !in w ==> Assigned(q, tri, p0, p1, p))
    && (forall p: nat :: p0 <= p < next && p !in w ==> Settled(q, p0, next, w, p))
    && (forall p: nat, p': nat :: p0 <= p < next && p0 <= p' < next && p !in w && p' !in w ==> OneLeader(q, p, p'))
  }

  /** Leaders and single triangles stand before the window, followers outside
      of it, and a follower's leader stands before the window, too. */
  ghost predicate Settled(q: seq<nat>, p0: nat, next: nat, w: seq<nat>, p: nat)
  {
    && p < |q|
    && (q[p] <= MAX_DISTANCE ==> p + q[p] < next && p + q[p] !in w)
    && (|w| > 0 ==> (q[p] <= MAX_DISTANCE ==> p < w[0]) && (q[p] == PAIRED ==> Taken(q, p0, w[0], p)))
  }

  /** Entries that two arrays share keep their meaning. */
  lemma AssignedFrame(q: seq<nat>, q': seq<nat>, tri: nat -> Tri, p0: nat, p1: nat, p: nat, x: nat)
    requires Assigned(q, tri, p0, p1, p) && |q'| == |q|
    requires q'[p] == q[p]
    requires 1 <= q[p] <= MAX_DISTANCE ==> q'[p + q[p]] == q[p + q[p]]
    requires x <= |q| && forall l: nat :: p0 <= l < x ==> q'[l] == q[l]
    requires (q[p] == PAIRED ==> Taken(q, p0, x, p)) && (q[p] <= MAX_DISTANCE ==> p <= x)
    ensures Assigned(q', tri, p0, p1, p)
  {
    if q[p] == PAIRED {
      var l: nat :| p0 <= l < x && Leads(q, l, p);
      assert Leads(q', l, p);
    } else {
      var reach := if q[p] == TRIANGLE then WINDOW else q[p];
      forall r: nat | p < r < p + reach && r < p1
        ensures Taken(q', p0, p, r) || !CanPair(tri(p), tri(r))
      {
        if Taken(q, p0, p, r) {
          var l: nat :| p0 <= l < p && Leads(q, l, r);
          assert Leads(q', l, r);
        }
      }
    }
  }

  lemma FrontIsFirst(w: seq<nat>, l: nat)
    requires forall i, j :: 0 <= i < j < |w| ==> w[i] < w[j]
    requires |w| > 0 && l < w[0]
    ensures l !in w
  {
  }

  /** Writing entries of window triangles keeps the assigned ones. */
  lemma PairingFrame(q: seq<nat>, q': seq<nat>, tri: nat -> Tri, p0: nat, p1: nat, next: nat, w: seq<nat>, p: nat)
    requires Pairing(q, tri, p0, p1, next, w) && |w| > 0 && |q'| == |q|
    requires forall l: nat :: l < |q| && l !in w ==> q'[l] == q[l]
    requires p0 <= p < next && p !in w
    ensures Assigned(q', tri, p0, p1, p)
    ensures q'[p] == q[p] && (q[p] == PAIRED ==> Taken(q', p0, w[0], p))
  {
    forall l: nat | p0 <= l < w[0]
      ensures q'[l] == q[l]
    {
      FrontIsFirst(w, l);
    }
    assert Assigned(q, tri, p0, p1, p) && Settled(q, p0, next, w, p);
    AssignedFrame(q, q', tri, p0, p1, p, w[0]);
    if q[p] == PAIRED {
      var l: nat :| p0 <= l < w[0] && Leads(q, l, p);
      assert Leads(q', l, p);
    }
  }

  /** Triangles that left the window before the front p were taken before p. */
  lemma TakenBefore(q: seq<nat>, tri: nat -> Tri, p0: nat, p1: nat, next: nat, w: seq<nat>, r: nat)
    requires Pairing(q, tri, p0, p1, next, w) && |w| > 0
    requires w[0] < r < next && r !in w
    ensures Taken(q, p0, w[0], r)
  {
    assert Assigned(q, tri, p0, p1, r) && Settled(q, p0, next, w, r);
  }

  /** A full window reaches far enough. */
  lemma {:induction false} WindowSpan(w: seq<nat>, i: nat)
    requires i < |w| && forall i, j :: 0 <= i < j < |w| ==> w[i] < w[j]
    ensures w[0] + i <= w[i]
  {
    if i > 0 {
      WindowSpan(w, i - 1);
    }
  }

  lemma WindowReach(w: seq<nat>, next: nat, p1: nat)
    requires forall i, j :: 0 <= i < j < |w| ==> w[i] < w[j]
    requires forall i :: 0 <= i < |w| ==> w[i] < next
    requires |w| > 0 && (next == p1 || |w| == WINDOW)
    ensures next == p1 || w[0] + MAX_DISTANCE < next
  {
    if |w| == WINDOW {
      WindowSpan(w, WINDOW - 1);
    }
  }

  /** Does triangle w[i] of the window fit the front? */
  predicate Fits(tri: nat -> Tri, w: seq<nat>, i: nat)
    requires 0 < i < |w|
  {
    CanPair(tri(w[0]), tri(w[i])) && w[i] - w[0] <= MAX_DISTANCE
  }

  /** The front is greedy when nothing in the window before slot k fits. */
  lemma FrontGreedy(q: seq<nat>, q': seq<nat>, tri: nat -> Tri, p0: nat, p1: nat, next: nat, w: seq<nat>, k: nat, reach: nat)
    requires Pairing(q, tri, p0, p1, next, w) && 0 < k <= |w| && |q'| == |q|
    requires forall l: nat :: l < |q| && l !in w ==> q'[l] == q[l]
    requires forall i: nat :: 0 < i < k ==> !Fits(tri, w, i)
    requires next == p1 || |w| == WINDOW
    requires reach <= WINDOW && (k < |w| ==> w[0] < w[k] && reach == w[k] - w[0])
    ensures Greedy(q', tri, p0, p1, w[0], reach)
  {
    hide Assigned, CanPair;
    WindowReach(w, next, p1);
    forall r: nat | w[0] < r < w[0] + reach && r < p1
      ensures Taken(q', p0, w[0], r) || !CanPair(tri(w[0]), tri(r))
    {
      if r in w {
        var i: nat :| i < |w| && w[i] == r;
        assert i < k;
        assert !Fits(tri, w, i);
      } else {
        TakenBefore(q, tri, p0, p1, next, w, r);
        var l: nat :| p0 <= l < w[0] && Leads(q, l, r);
        FrontIsFirst(w, l);
        assert Leads(q', l, r);
      }
    }
  }

  lemma InRest(w: seq<nat>, k: nat, x: nat)
    requires 0 < k < |w| && forall i, j :: 0 <= i < j < |w| ==> w[i] < w[j]
    ensures x in w[1..k] + w[k + 1..] <==> x in w && x != w[0] && x != w[k]
  {
    if x in w && x != w[0] && x != w[k] {
      var i :| 0 <= i < |w| && w[i] == x;
      assert if i < k then w[1..k][i - 1] == x else w[k + 1..][i - k - 1] == x;
    }
  }

  lemma InTail(w: seq<nat>, x: nat)
    requires |w| > 0 && forall i, j :: 0 <= i < j < |w| ==> w[i] < w[j]
    ensures x in w[1..] <==> x in w && x != w[0]
  {
    if x in w && x != w[0] {
      var i :| 0 <= i < |w| && w[i] == x;
      assert w[1..][i - 1] == x;
    }
  }

  /** The front and possibly its follower leave the window: w1 is the window
      after the step and q1 the array. */
  ghost predicate Leaves(q: seq<nat>, q1: seq<nat>, p0: nat, next: nat, w: seq<nat>, w1: seq<nat>) {
    && |w| > 0 && |q1| == |q|
    && (forall l: nat :: l < |q| && l !in w ==> q1[l] == q[l])
    && (forall i, j :: 0 <= i < j < |w1| ==> w1[i] < w1[j])
    && (forall x :: x in w1 ==> x in w && w[0] < x)
    && (forall x: nat :: x in w && x !in w1 ==> HasLeft(q1, p0, next, w, w1, x))
  }

  ghost predicate HasLeft(q1: seq<nat>, p0: nat, next: nat, w: seq<nat>, w1: seq<nat>, x: nat)
    requires |w| > 0
  {
    && x < |q1|
    && (q1[x] == PAIRED ==> Taken(q1, p0, w[0] + 1, x))
    && (q1[x] <= MAX_DISTANCE ==> x == w[0] && x + q1[x] < next && x + q1[x] in w && x + q1[x] !in w1)
  }

  lemma LeavesAssigned(q: seq<nat>, q1: seq<nat>, tri: nat -> Tri, p0: nat, p1: nat, next: nat, w: seq<nat>, w1: seq<nat>)
    requires Pairing(q, tri, p0, p1, next, w) && Leaves(q, q1, p0, next, w, w1)
    requires forall x: nat :: x in w && x !in w1 ==> Assigned(q1, tri, p0, p1, x)
    ensures forall p: nat :: p0 <= p < next && p !in w1 ==> Assigned(q1, tri, p0, p1, p)
  {
    hide Assigned, Settled, OneLeader;
    forall p: nat | p0 <= p < next && p !in w1
      ensures Assigned(q1, tri, p0, p1, p)
    {
      if p !in w {
        PairingFrame(q, q1, tri, p0, p1, next, w, p);
      }
    }
  }

  lemma LeavesSettled(q: seq<nat>, q1: seq<nat>, tri: nat -> Tri, p0: nat, p1: nat, next: nat, w: seq<nat>, w1: seq<nat>)
    requires Pairing(q, tri, p0, p1, next, w) && Leaves(q, q1, p0, next, w, w1)
    ensures forall p: nat :: p0 <= p < next && p !in w1 ==> Settled(q1, p0, next, w1, p)
  {
    hide Assigned, OneLeader, Taken;
    forall p: nat | p0 <= p < next && p !in w1
      ensures Settled(q1, p0, next, w1, p)
    {
      if p !in w {
        PairingFrame(q, q1, tri, p0, p1, next, w, p);
        assert Settled(q, p0, next, w, p);
      } else {
        assert HasLeft(q1, p0, next, w, w1, p);
      }
      if |w1| > 0 {
        assert w1[0] in w1;
        TakenLater(q1, p0, w[0], w1[0], p);
        TakenLater(q1, p0, w[0] + 1, w1[0], p);
      }
    }
  }

  lemma LeavesUnique(q: seq<nat>, q1: seq<nat>, tri: nat -> Tri, p0: nat, p1: nat, next: nat, w: seq<nat>, w1: seq<nat>)
    requires Pairing(q, tri, p0, p1, next, w) && Leaves(q, q1, p0, next, w, w1)
    ensures forall p: nat, p': nat :: p0 <= p < next && p0 <= p' < next && p !in w1 && p' !in w1 ==> OneLeader(q1, p, p')
  {
    hide Assigned, Taken;
    forall p: nat, p': nat | p0 <= p < next && p0 <= p' < next && p !in w1 && p' !in w1
      ensures OneLeader(q1, p, p')
    {
      FollowerSide(q, q1, tri, p0, p1, next, w, w1, p);
      FollowerSide(q, q1, tri, p0, p1, next, w, w1, p');
      if p !in w && p' !in w {
        assert OneLeader(q, p, p');
      }
    }
  }

  /** Old leaders have followers outside of the window, a new one in it. */
  lemma FollowerSide(q: seq<nat>, q1: seq<nat>, tri: nat -> Tri, p0: nat, p1: nat, next: nat, w: seq<nat>, w1: seq<nat>, p: nat)
    requires Pairing(q, tri, p0, p1, next, w) && Leaves(q, q1, p0, next, w, w1)
    requires p0 <= p < next && p !in w1
    ensures p < |q1| == |q|
    ensures p !in w ==> q1[p] == q[p]
    ensures p in w && q1[p] <= MAX_DISTANCE ==> p == w[0]
    ensures q1[p] <= MAX_DISTANCE ==> (p in w <==> p + q1[p] in w)
  {
    hide Assigned, Taken, OneLeader;
    if p !in w {
      assert Settled(q, p0, next, w, p);
    } else {
      assert HasLeft(q1, p0, next, w, w1, p);
    }
  }

  lemma LeavesPairing(q: seq<nat>, q1: seq<nat>, tri: nat -> Tri, p0: nat, p1: nat, next: nat, w: seq<nat>, w1: seq<nat>)
    requires Pairing(q, tri, p0, p1, next, w) && Leaves(q, q1, p0, next, w, w1)
    requires forall x: nat :: x in w && x !in w1 ==> Assigned(q1, tri, p0, p1, x)
    ensures Pairing(q1, tri, p0, p1, next, w1)
  {
    hide Assigned, Settled, OneLeader;
    LeavesAssigned(q, q1, tri, p0, p1, next, w, w1);
    LeavesSettled(q, q1, tri, p0, p1, next, w, w1);
    LeavesUnique(q, q1, tri, p0, p1, next, w, w1);
    forall i | 0 <= i < |w1|
      ensures p0 <= w1[i] < next
    {
      assert w1[i] in w;
    }
  }

  lemma TakenLater(q: seq<nat>, p0: nat, p: nat, p': nat, r: nat)
    requires p <= p'
    ensures Taken(q, p0, p, r) ==> Taken(q, p0, p', r)
  {
    if Taken(q, p0, p, r) {
      var l: nat :| p0 <= l < p && Leads(q, l, r);
    }
  }

  /** The front leads window triangle k: both leave the window. */
  lemma PairFront(q: seq<nat>, q1: seq<nat>, tri: nat -> Tri, p0: nat, p1: nat, next: nat, w: seq<nat>, k: nat)
    requires Pairing(q, tri, p0, p1, next, w) && 0 < k < |w| && Fits(tri, w, k)
    requires forall i: nat :: 0 < i < k ==> !Fits(tri, w, i)
    requires next == p1 || |w| == WINDOW
    requires w[0] < w[k] < |q| == |q1| && q1[w[0]] == w[k] - w[0] && q1[w[k]] == PAIRED
    requires forall l: nat :: l < |q| && l != w[0] && l != w[k] ==> q1[l] == q[l]
    ensures Pairing(q1, tri, p0, p1, next, w[1..k] + w[k + 1..])
  {
    hide Assigned, CanPair, Greedy, Taken, Settled, OneLeader;
    forall x: nat
      ensures x in w[1..k] + w[k + 1..] <==> x in w && x != w[0] && x != w[k]
    {
      InRest(w, k, x);
    }
    FrontGreedy(q, q1, tri, p0, p1, next, w, k, w[k] - w[0]);
    FrontAssigned(q1, tri, p0, p1, w[0], w[k]);
    assert HasLeft(q1, p0, next, w, w[1..k] + w[k + 1..], w[0]);
    assert HasLeft(q1, p0, next, w, w[1..k] + w[k + 1..], w[k]);
    LeavesPairing(q, q1, tri, p0, p1, next, w, w[1..k] + w[k + 1..]);
  }

  lemma FrontAssigned(q: seq<nat>, tri: nat -> Tri, p0: nat, p1: nat, p: nat, r: nat)
    requires p0 <= p < r < p1 <= |q| && r - p <= MAX_DISTANCE && q[p] == r - p && q[r] == PAIRED
    requires CanPair(tri(p), tri(r)) && Greedy(q, tri, p0, p1, p, r - p)
    ensures Assigned(q, tri, p0, p1, p) && Assigned(q, tri, p0, p1, r) && Taken(q, p0, p + 1, r)
  {
    hide CanPair, Greedy;
    assert Leads(q, p, r);
  }

  /** Nothing in the window fits the front: it stays alone. */
  lemma SingleFront(q: seq<nat>, q1: seq<nat>, tri: nat -> Tri, p0: nat, p1: nat, next: nat, w: seq<nat>)
    requires Pairing(q, tri, p0, p1, next, w) && |w| > 0
    requires forall i: nat :: 0 < i < |w| ==> !Fits(tri, w, i)
    requires next == p1 || |w| == WINDOW
    requires w[0] < |q| && q1 == q[w[0] := TRIANGLE]
    ensures Pairing(q1, tri, p0, p1, next, w[1..])
  {
    hide Assigned, CanPair, Greedy, Taken, Settled, OneLeader;
    forall x: nat
      ensures x in w[1..] <==> x in w && x != w[0]
    {
      InTail(w, x);
    }
    FrontGreedy(q, q1, tri, p0, p1, next, w, |w|, WINDOW);
    SingleAssigned(q1, tri, p0, p1, w[0]);
    LeavesPairing(q, q1, tri, p0, p1, next, w, w[1..]);
  }

  lemma SingleAssigned(q: seq<nat>, tri: nat -> Tri, p0: nat, p1: nat, p: nat)
    requires p0 <= p < p1 <= |q| && q[p] == TRIANGLE && Greedy(q, tri, p0, p1, p, WINDOW)
    ensures Assigned(q, tri, p0, p1, p)
  {
  }

  /** The next triangle enters the window. */
  lemma PushNext(q: seq<nat>, tri: nat -> Tri, p0: nat, p1: nat, next: nat, w: seq<nat>)
    requires Pairing(q, tri, p0, p1, next, w) && next < p1
    ensures Pairing(q, tri, p0, p1, next + 1, w + [next])
  {
    hide CanPair, Greedy, OneLeader, Taken, Settled, Assigned;
    forall p: nat | p0 <= p < next && p !in w
      ensures Settled(q, p0, next + 1, w + [next], p)
    {
      SettledNext(q, tri, p0, p1, next, w, p);
    }
  }

  lemma SettledNext(q: seq<nat>, tri: nat -> Tri, p0: nat, p1: nat, next: nat, w: seq<nat>, p: nat)
    requires Settled(q, p0, next, w, p) && Assigned(q, tri, p0, p1, p) && p0 <= p < next
    ensures Settled(q, p0, next + 1, w + [next], p)
  {
    hide CanPair, Greedy, Taken;
    TakenLater(q, p0, p, next, p);
  }

  // ----- counting what is stored

  lemma {:induction false} StoredSame(q: seq<nat>, q': seq<nat>, w: seq<nat>, w': seq<nat>, p0: nat, n: nat)
    requires n <= |q| == |q'|
    requires forall p: nat :: p0 <= p < n ==> (p !in w && q[p] != PAIRED <==> p !in w' && q'[p] != PAIRED)
    ensures Stored(q', w', p0, n) == Stored(q, w, p0, n)
  {
    if p0 < n {
      StoredSame(q, q', w, w', p0, n - 1);
    }
  }

  /** Exactly one more entry is stored. */
  lemma {:induction false} StoredOneMore(q: seq<nat>, q': seq<nat>, w: seq<nat>, w': seq<nat>, p0: nat, n: nat, x: nat)
    requires n <= |q| == |q'| && p0 <= x < n
    requires x in w && x !in w' && q'[x] != PAIRED
    requires forall p: nat :: p0 <= p < n && p != x ==> (p !in w && q[p] != PAIRED <==> p !in w' && q'[p] != PAIRED)
    ensures Stored(q', w', p0, n) == Stored(q, w, p0, n) + 1
  {
    if x == n - 1 {
      StoredSame(q, q', w, w', p0, n - 1);
    } else {
      StoredOneMore(q, q', w, w', p0, n - 1, x);
    }
  }

  // ----- the algorithm

  /** Looks for the first triangle in the window that fits the one just popped. */
  method FindPartner(window: StaticDeque, tri: nat -> Tri, primID0: nat, ghost w: seq<nat>) returns (found: bool, slot: nat)
    requires window.Valid() && |w| > 0 && w[0] == primID0 && window.Contents() == w[1..]
    requires forall i, j :: 0 <= i < j < |w| ==> w[i] < w[j]
    ensures found ==> window.begin <= slot < window.end && Fits(tri, w, slot - window.begin + 1)
    ensures forall i: nat :: 0 < i < |w| && (found ==> i < slot - window.begin + 1) ==> !Fits(tri, w, i)
  {
    hide CanPair;
    found, slot := false, window.begin;
    var tri0 := tri(primID0);
    while slot != window.end
      invariant window.begin <= slot <= window.end
      invariant forall i: nat :: 0 < i <= slot - window.begin ==> !Fits(tri, w, i)
      decreases window.end - slot
    {
      var primID1 := window.Read(slot);
      var tri1 := tri(primID1);
      ghost var k := slot - window.begin + 1;
      assert primID1 == w[k];
      if CanPair(tri0, tri1) && primID1 - primID0 <= MAX_DISTANCE {
        found := true;
        return;
      }
      slot := slot + 1;
    }
  }

  /** Pairs the popped triangle with the one at the slot, which leaves the
      window, too. */
  method TakePair(window: StaticDeque, quads: array<nat>, primID0: nat, slot: nat, ghost w: seq<nat>)
    requires window.Valid() && quads != window.slots && |w| > 0 && window.Contents() == w[1..]
    requires window.begin <= slot < window.end && w[0] == primID0 < w[slot - window.begin + 1] < quads.Length
    modifies window, window.slots, quads
    ensures window.Valid()
    ensures var k := slot - old(window.begin) + 1;
      && window.Contents() == w[1..k] + w[k + 1..]
      && quads[..] == old(quads[..])[w[0] := w[k] - w[0]][w[k] := PAIRED]
  {
    ghost var k := slot - window.begin + 1;
    var primID1 := window.Read(slot);
    assert primID1 == w[k];
    quads[primID0] := primID1 - primID0;
    quads[primID1] := PAIRED;
    window.Erase(slot);
    SkipTwo(w, k);
  }

  method MergeTriangleWindow(window: StaticDeque, quads: array<nat>, tri: nat -> Tri, ghost p0: nat, ghost p1: nat,
                             ghost next: nat)
    requires window.Valid() && quads != window.slots
    requires Pairing(quads[..], tri, p0, p1, next, window.Contents())
    requires window.Contents() != [] && (next == p1 || |window.Contents()| == WINDOW)
    modifies window, window.slots, quads
    ensures window.Valid() && |window.Contents()| < old(|window.Contents()|)
    ensures Pairing(quads[..], tri, p0, p1, next, window.Contents())
    ensures next <= quads.Length
    ensures forall l: nat :: l < quads.Length && !(p0 <= l < p1) ==> quads[l] == old(quads[l])
    ensures Stored(quads[..], window.Contents(), p0, next) == old(Stored(quads[..], window.Contents(), p0, next)) + 1
  {
    hide Pairing, CanPair, Stored, Fits;
    ghost var q, w := quads[..], window.Contents();
    PairingBounds(q, tri, p0, p1, next, w);
    var primID0 := window.PopFront();
    var found, slot := FindPartner(window, tri, primID0, w);
    if found {
      ghost var k := slot - window.begin + 1;
      TakePair(window, quads, primID0, slot, w);
      PairFrontStored(q, quads[..], tri, p0, p1, next, w, k);
    } else {
      quads[primID0] := TRIANGLE;
      assert quads[..] == q[w[0] := TRIANGLE];
      SingleFrontStored(q, quads[..], tri, p0, p1, next, w);
    }
  }

  lemma SkipTwo(w: seq<nat>, k: nat)
    requires 0 < k < |w|
    ensures w[1..][..k - 1] + w[1..][k..] == w[1..k] + w[k + 1..]
  {
  }

  lemma PairFrontStored(q: seq<nat>, q1: seq<nat>, tri: nat -> Tri, p0: nat, p1: nat, next: nat, w: seq<nat>, k: nat)
    requires Pairing(q, tri, p0, p1, next, w) && 0 < k < |w| && Fits(tri, w, k)
    requires forall i: nat :: 0 < i < k ==> !Fits(tri, w, i)
    requires next == p1 || |w| == WINDOW
    requires w[0] < w[k] < |q| == |q1| && q1[w[0]] == w[k] - w[0] && q1[w[k]] == PAIRED
    requires forall l: nat :: l < |q| && l != w[0] && l != w[k] ==> q1[l] == q[l]
    ensures Pairing(q1, tri, p0, p1, next, w[1..k] + w[k + 1..]) && next <= |q|
    ensures Stored(q1, w[1..k] + w[k + 1..], p0, next) == Stored(q, w, p0, next) + 1
  {
    hide Assigned, CanPair, Settled, OneLeader, Stored;
    PairFront(q, q1, tri, p0, p1, next, w, k);
    forall x: nat
      ensures x in w[1..k] + w[k + 1..] <==> x in w && x != w[0] && x != w[k]
    {
      InRest(w, k, x);
    }
    StoredOneMore(q, q1, w, w[1..k] + w[k + 1..], p0, next, w[0]);
  }

  lemma SingleFrontStored(q: seq<nat>, q1: seq<nat>, tri: nat -> Tri, p0: nat, p1: nat, next: nat, w: seq<nat>)
    requires Pairing(q, tri, p0, p1, next, w) && |w| > 0
    requires forall i: nat :: 0 < i < |w| ==> !Fits(tri, w, i)
    requires next == p1 || |w| == WINDOW
    requires w[0] < |q| && q1 == q[w[0] := TRIANGLE]
    ensures Pairing(q1, tri, p0, p1, next, w[1..]) && next <= |q|
    ensures Stored(q1, w[1..], p0, next) == Stored(q, w, p0, next) + 1
  {
    hide Assigned, CanPair, Settled, OneLeader, Stored;
    SingleFront(q, q1, tri, p0, p1, next, w);
    forall x: nat
      ensures x in w[1..] <==> x in w && x != w[0]
    {
      InTail(w, x);
    }
    StoredOneMore(q, q1, w, w[1..], p0, next, w[0]);
  }

  lemma PairingBounds(q: seq<nat>, tri: nat -> Tri, p0: nat, p1: nat, next: nat, w: seq<nat>)
    requires Pairing(q, tri, p0, p1, next, w)
    ensures p0 <= next <= p1 <= |q|
    ensures forall i, j :: 0 <= i < j < |w| ==> w[i] < w[j]
    ensures forall i :: 0 <= i < |w| ==> p0 <= w[i] < next
  {
  }

  /** Pairs the triangles from primID0 to primID1 and returns how many quads
      and single triangles that makes. */
  method PairTriangleRange(quads: array<nat>, tri: nat -> Tri, primID0: nat, primID1: nat) returns (numTrianglePairs: nat)
    requires primID0 <= primID1 <= quads.Length
    modifies quads
    ensures Matching(quads[..], tri, primID0, primID1)
    ensures numTrianglePairs == Stored(quads[..], [], primID0, primID1)
    ensures forall l: nat :: l < quads.Length && !(primID0 <= l < primID1) ==> quads[l] == old(quads[l])
  {
    hide Stored, Pairing, Matching;
    var window := new StaticDeque();
    numTrianglePairs := 0;
    var primID := primID0;
    StoredNone(quads[..], tri, primID0, primID1);
    while primID < primID1
      invariant window.Valid() && fresh(window) && fresh(window.slots)
      invariant primID0 <= primID <= primID1
      invariant |window.Contents()| < WINDOW
      invariant Pairing(quads[..], tri, primID0, primID1, primID, window.Contents())
      invariant numTrianglePairs == Stored(quads[..], window.Contents(), primID0, primID)
      invariant forall l: nat :: l < quads.Length && !(primID0 <= l < primID1) ==> quads[l] == old(quads[l])
    {
      ghost var w := window.Contents();
      PushNext(quads[..], tri, primID0, primID1, primID, w);
      window.PushBack(primID);
      StoredPush(quads[..], w, primID0, primID);
      if window.Size() == WINDOW {
        MergeTriangleWindow(window, quads, tri, primID0, primID1, primID + 1);
        numTrianglePairs := numTrianglePairs + 1;
      }
      primID := primID + 1;
    }
    while window.Size() != 0
      invariant window.Valid() && fresh(window) && fresh(window.slots)
      invariant Pairing(quads[..], tri, primID0, primID1, primID1, window.Contents())
      invariant numTrianglePairs == Stored(quads[..], window.Contents(), primID0, primID1)
      invariant forall l: nat :: l < quads.Length && !(primID0 <= l < primID1) ==> quads[l] == old(quads[l])
      decreases |window.Contents()|
    {
      MergeTriangleWindow(window, quads, tri, primID0, primID1, primID1);
      numTrianglePairs := numTrianglePairs + 1;
    }
    assert window.Contents() == [];
    PairingDone(quads[..], tri, primID0, primID1);
  }

  lemma StoredNone(q: seq<nat>, tri: nat -> Tri, p0: nat, p1: nat)
    requires p0 <= p1 <= |q|
    ensures Stored(q, [], p0, p0) == 0 && Pairing(q, tri, p0, p1, p0, [])
  {
  }

  lemma PairingDone(q: seq<nat>, tri: nat -> Tri, p0: nat, p1: nat)
    requires Pairing(q, tri, p0, p1, p1, [])
    ensures Matching(q, tri, p0, p1)
  {
    hide Assigned, OneLeader;
  }

  lemma StoredPush(q: seq<nat>, w: seq<nat>, p0: nat, n: nat)
    requires p0 <= n < |q|
    ensures Stored(q, w + [n], p0, n + 1) == Stored(q, w, p0, n)
  {
    StoredSame(q, q, w, w + [n], p0, n);
  }

  // ----- what a complete pairing guarantees

  /** Every follower has exactly one leader, at a distance of 1 to 31, and fits it. */
  lemma FollowerHasOneLeader(q: seq<nat>, tri: nat -> Tri, p0: nat, p1: nat, r: nat) returns (l: nat)
    requires Matching(q, tri, p0, p1) && p0 <= r < p1 && q[r] == PAIRED
    ensures p0 <= l < r && r - l <= MAX_DISTANCE && q[l] == r - l && CanPair(tri(l), tri(r))
    ensures forall l': nat :: p0 <= l' < p1 && 1 <= q[l'] <= MAX_DISTANCE && l' + q[l'] == r ==> l' == l
  {
    hide Greedy, CanPair;
    assert Assigned(q, tri, p0, p1, r);
    l :| p0 <= l < r && Leads(q, l, r);
    assert Assigned(q, tri, p0, p1, l);
    forall l': nat | p0 <= l' < p1 && 1 <= q[l'] <= MAX_DISTANCE && l' + q[l'] == r
      ensures l' == l
    {
      assert OneLeader(q, l, l');
    }
  }

  /** No two single triangles in reach of each other would fit. */
  lemma PairingIsMaximal(q: seq<nat>, tri: nat -> Tri, p0: nat, p1: nat, p: nat, r: nat)
    requires Matching(q, tri, p0, p1) && p0 <= p < r < p1 && r - p <= MAX_DISTANCE
    requires q[p] == TRIANGLE && q[r] == TRIANGLE
    ensures !CanPair(tri(p), tri(r))
  {
    hide CanPair;
    assert Assigned(q, tri, p0, p1, p);
    TakenIsPaired(q, tri, p0, p1, r);
    TakenLater(q, p0, p, r, r);
  }

  lemma TakenIsPaired(q: seq<nat>, tri: nat -> Tri, p0: nat, p1: nat, p: nat)
    requires Matching(q, tri, p0, p1) && p0 <= p < p1
    ensures q[p] == PAIRED <==> Taken(q, p0, p, p)
  {
    hide Greedy, CanPair;
    assert Assigned(q, tri, p0, p1, p);
    if Taken(q, p0, p, p) {
      var l: nat :| p0 <= l < p && Leads(q, l, p);
      assert Assigned(q, tri, p0, p1, l);
    }
  }

  lemma TakenAgrees(q: seq<nat>, q1: seq<nat>, p0: nat, p: nat, r: nat)
    requires p <= |q| && p <= |q1| && forall l: nat :: p0 <= l < p ==> q[l] == q1[l]
    requires Taken(q, p0, p, r)
    ensures Taken(q1, p0, p, r)
  {
    var l: nat :| p0 <= l < p && Leads(q, l, r);
    assert Leads(q1, l, r);
  }

  function Reach(d: nat): nat {
    if d == TRIANGLE then WINDOW else d
  }

  /** Two complete pairings that agree before p cannot stop at different
      triangles for p. */
  lemma ReachAgrees(q: seq<nat>, q1: seq<nat>, tri: nat -> Tri, p0: nat, p1: nat, p: nat)
    requires Matching(q, tri, p0, p1) && Matching(q1, tri, p0, p1) && p0 <= p < p1
    requires forall l: nat :: p0 <= l < p ==> q[l] == q1[l]
    requires q[p] <= MAX_DISTANCE && q1[p] <= MAX_DISTANCE
    ensures Reach(q[p]) <= Reach(q1[p])
  {
    hide CanPair;
    assert Assigned(q, tri, p0, p1, p) && Assigned(q1, tri, p0, p1, p);
    if q1[p] != TRIANGLE {
      var r := p + q1[p];
      OwnFollower(q1, tri, p0, p1, p);
      if Taken(q, p0, p, r) {
        TakenAgrees(q, q1, p0, p, r);
      }
    }
  }

  /** The follower of p was free when p took it. */
  lemma OwnFollower(q: seq<nat>, tri: nat -> Tri, p0: nat, p1: nat, p: nat)
    requires Matching(q, tri, p0, p1) && p0 <= p < p1 && 1 <= q[p] <= MAX_DISTANCE
    ensures !Taken(q, p0, p, p + q[p])
  {
    var r := p + q[p];
    forall l: nat | p0 <= l < p
      ensures !Leads(q, l, r)
    {
      assert OneLeader(q, l, p);
    }
  }

  /** Only the entries of the range matter. */
  lemma MatchingFrame(q: seq<nat>, q1: seq<nat>, tri: nat -> Tri, p0: nat, p1: nat)
    requires Matching(q, tri, p0, p1) && |q1| == |q| && forall l: nat :: p0 <= l < p1 ==> q1[l] == q[l]
    ensures Matching(q1, tri, p0, p1)
  {
    hide CanPair, Greedy;
    forall p: nat | p0 <= p < p1
      ensures Assigned(q1, tri, p0, p1, p)
    {
      assert Assigned(q, tri, p0, p1, p);
      EntryFrame(q, q1, tri, p0, p1, p);
    }
    forall p: nat, p': nat | p0 <= p < p1 && p0 <= p' < p1
      ensures OneLeader(q1, p, p')
    {
      assert OneLeader(q, p, p');
    }
  }

  lemma EntryFrame(q: seq<nat>, q1: seq<nat>, tri: nat -> Tri, p0: nat, p1: nat, p: nat)
    requires Assigned(q, tri, p0, p1, p) && |q1| == |q| && forall l: nat :: p0 <= l < p1 ==> q1[l] == q[l]
    ensures Assigned(q1, tri, p0, p1, p)
  {
    hide CanPair;
    forall r: nat | Taken(q, p0, p, r)
      ensures Taken(q1, p0, p, r)
    {
      TakenAgrees(q, q1, p0, p, r);
    }
  }

  /** The window finds the same pairs as the greedy search without a window:
      the complete pairing of a range is unique. */
  lemma {:induction false} PairingIsUnique(q: seq<nat>, q1: seq<nat>, tri: nat -> Tri, p0: nat, p1: nat, n: nat)
    requires Matching(q, tri, p0, p1) && Matching(q1, tri, p0, p1) && p0 <= n <= p1
    ensures forall p: nat :: p0 <= p < n ==> q[p] == q1[p]
  {
    hide CanPair, Greedy;
    if p0 < n {
      var p := n - 1;
      PairingIsUnique(q, q1, tri, p0, p1, p);
      assert Assigned(q, tri, p0, p1, p) && Assigned(q1, tri, p0, p1, p);
      TakenIsPaired(q, tri, p0, p1, p);
      TakenIsPaired(q1, tri, p0, p1, p);
      if Taken(q, p0, p, p) {
        TakenAgrees(q, q1, p0, p, p);
      } else if Taken(q1, p0, p, p) {
        TakenAgrees(q1, q, p0, p, p);
      } else {
        ReachAgrees(q, q1, tri, p0, p1, p);
        ReachAgrees(q1, q, tri, p0, p1, p);
      }
    }
  }
}
