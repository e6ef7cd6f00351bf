/**
 Region membership from circle geometry: a positioned node moves to the region of the
 smallest circle around it. Coordinates are reals; a distance is compared through its
 square, which says the same (see ClassifyIsDistance).
 */
module Containment {
  import opened Values
  import opened SemanticGraph

  datatype Pos = Pos(x: real, y: real)

  datatype Circle = Circle(region: nat, center: Pos, radius: real)

  datatype Placed = Placed(id: nat, pos: Pos)

  datatype Layout = Layout(circles: seq<Circle>, positions: seq<Placed>, epsilon: real)

  datatype Side = Inside | Outside | Ambiguous

  /** No circle of this radius or more is ever chosen. */
  const FAR: real := 1_000_000_000_000_000_000.0

  const NODES_MAX: nat := 256

  // ----- Geometry -----

  function DistanceSquared(p: Pos, q: Pos): real { (p.x - q.x) * (p.x - q.x) + (p.y - q.y) * (p.y - q.y) }

  /** Whether a distance with the given square is below a bound. */
  predicate Below(square: real, bound: real) { bound > 0.0 && square < bound * bound }

  predicate Above(square: real, bound: real) { bound < 0.0 || square > bound * bound }

  function Classify(c: Circle, p: Pos, epsilon: real): Side {
    var s := DistanceSquared(p, c.center);
    if Below(s, c.radius + epsilon) && Above(s, c.radius - epsilon) then Ambiguous
    else if Below(s, c.radius) then Inside
    else Outside
  }

  lemma PositiveProduct(x: real, y: real)
    requires x > 0.0 && y > 0.0
    ensures x * y > 0.0
  {
  }

  lemma SquareLess(a: real, b: real)
    requires 0.0 <= a < b
    ensures a * a < b * b
  {
    assert b * b - a * a == (b - a) * (b + a);
    PositiveProduct(b - a, b + a);
  }

  lemma SquareOrder(d: real, b: real)
    requires d >= 0.0
    ensures Below(d * d, b) <==> d < b
    ensures Above(d * d, b) <==> d > b
  {
    if d < b {
      SquareLess(d, b);
    } else if b >= 0.0 && b < d {
      SquareLess(b, d);
    }
  }

  /** The classification by the distance itself. */
  lemma ClassifyIsDistance(c: Circle, p: Pos, epsilon: real, d: real)
    requires d >= 0.0 && d * d == DistanceSquared(p, c.center)
    ensures Classify(c, p, epsilon) ==
            if c.radius - epsilon < d < c.radius + epsilon then Ambiguous else if d < c.radius then Inside else Outside
  {
    SquareOrder(d, c.radius + epsilon);
    SquareOrder(d, c.radius - epsilon);
    SquareOrder(d, c.radius);
  }

  /** The region of the smallest circle around a position, given the best so far; None if any circle is ambiguous. */
  function Innermost(circles: seq<Circle>, p: Pos, epsilon: real, best: nat, radius: real): Option<nat> {
    if circles == [] then Some(best)
    else
      var c := circles[0];
      var side := Classify(c, p, epsilon);
      if side.Ambiguous? then None
      else if side.Inside? && c.radius < radius then Innermost(circles[1..], p, epsilon, c.region, c.radius)
      else Innermost(circles[1..], p, epsilon, best, radius)
  }

  function RegionAt(layout: Layout, p: Pos): Option<nat> { Innermost(layout.circles, p, layout.epsilon, INVALID, FAR) }

  predicate Around(c: Circle, p: Pos, epsilon: real, radius: real) { Classify(c, p, epsilon).Inside? && c.radius < radius }

  /** Circle `i` is around the position and no circle around it is smaller. */
  predicate Smallest(circles: seq<Circle>, p: Pos, epsilon: real, radius: real, i: nat) {
    i < |circles| && Around(circles[i], p, epsilon, radius) &&
    forall j :: 0 <= j < |circles| && Around(circles[j], p, epsilon, radius) ==> circles[i].radius <= circles[j].radius
  }

  lemma {:induction false} InnermostMeaning(circles: seq<Circle>, p: Pos, epsilon: real, best: nat, radius: real)
    ensures var r := Innermost(circles, p, epsilon, best, radius);
            && (r.None? <==> exists i :: 0 <= i < |circles| && Classify(circles[i], p, epsilon).Ambiguous?)
            && (r.Some? ==> (exists i: nat :: Smallest(circles, p, epsilon, radius, i) && circles[i].region == r.value) ||
                            (r.value == best && forall j :: 0 <= j < |circles| ==> !Around(circles[j], p, epsilon, radius)))
  {
    hide Classify;
    if circles != [] {
      var c, rest := circles[0], circles[1..];
      var side := Classify(c, p, epsilon);
      if !side.Ambiguous? {
        var closer := side.Inside? && c.radius < radius;
        var b, d := if closer then c.region else best, if closer then c.radius else radius;
        InnermostMeaning(rest, p, epsilon, b, d);
        assert forall i :: 0 <= i < |rest| ==> rest[i] == circles[i + 1];
        assert forall i :: 0 < i < |circles| ==> circles[i] == rest[i - 1];
        var r := Innermost(rest, p, epsilon, b, d);
        if r.Some? {
          if i: nat :| Smallest(rest, p, epsilon, d, i) && rest[i].region == r.value {
            SmallestLater(circles, p, epsilon, radius, d, i);
          } else if closer {
            assert Smallest(circles, p, epsilon, radius, 0);
          }
        }
      }
    }
  }

  lemma SmallestLater(circles: seq<Circle>, p: Pos, epsilon: real, radius: real, d: real, i: nat)
    requires circles != [] && Smallest(circles[1..], p, epsilon, d, i)
    requires if Around(circles[0], p, epsilon, radius) then d == circles[0].radius else d == radius
    ensures Smallest(circles, p, epsilon, radius, i + 1)
  {
    hide Classify;
    forall j | 0 <= j < |circles| && Around(circles[j], p, epsilon, radius) ensures circles[i + 1].radius <= circles[j].radius {
      if j > 0 && circles[j].radius < d {
        assert Around(circles[1..][j - 1], p, epsilon, d);
      }
    }
  }

  // ----- Moving nodes -----

  datatype State = State(regionOf: seq<nat>, members: seq<seq<nat>>)

  /** Every node is once in its own region's list, and in no other. */
  ghost predicate Partition(st: State) {
    && (forall n :: 0 <= n < |st.regionOf| ==> st.regionOf[n] < |st.members|)
    && (forall r, n: nat :: 0 <= r < |st.members| ==> Listed(st, r, n))
  }

  ghost predicate Listed(st: State, r: nat, n: nat)
    requires r < |st.members|
  {
    multiset(st.members[r])[n] == if n < |st.regionOf| && st.regionOf[n] == r then 1 else 0
  }

  function IndexOf(ms: seq<nat>, n: nat): (i: nat)
    ensures i <= |ms|
    ensures i < |ms| ==> ms[i] == n
    ensures forall k :: 0 <= k < i ==> ms[k] != n
  {
    if ms == [] then 0 else if ms[0] == n then 0 else 1 + IndexOf(ms[1..], n)
  }

  /** The last member takes the place of the first that equals `n`. */
  function Without(ms: seq<nat>, n: nat): seq<nat> {
    var i := IndexOf(ms, n);
    if i == |ms| then ms else ms[i := ms[|ms| - 1]][..|ms| - 1]
  }

  lemma LastMoved(ms: seq<nat>, i: nat)
    requires i < |ms| - 1
    ensures var last := |ms| - 1;
            ms == ms[..i] + [ms[i]] + ms[i + 1..last] + [ms[last]] &&
            ms[i := ms[last]][..last] == ms[..i] + [ms[last]] + ms[i + 1..last]
  {
  }

  lemma WithoutCounts(ms: seq<nat>, n: nat)
    requires n in ms
    ensures multiset(Without(ms, n)) == multiset(ms) - multiset{n}
  {
    hide IndexOf;
    var i, last := IndexOf(ms, n), |ms| - 1;
    if i == last {
      LastDropped(ms, n);
    } else {
      LastMoved(ms, i);
      SwapCounts(ms[..i], n, ms[i + 1..last], ms[last]);
    }
  }

  lemma LastDropped(ms: seq<nat>, n: nat)
    requires ms != [] && ms[|ms| - 1] == n
    ensures multiset(ms[|ms| - 1 := n][..|ms| - 1]) == multiset(ms) - multiset{n}
  {
    assert ms == ms[..|ms| - 1] + [n];
    assert ms[|ms| - 1 := n][..|ms| - 1] == ms[..|ms| - 1];
  }

  lemma SwapCounts(a: seq<nat>, n: nat, b: seq<nat>, m: nat)
    ensures multiset(a + [m] + b) == multiset(a + [n] + b + [m]) - multiset{n}
  {
  }

  function Move(st: State, n: nat, r: nat): State
    requires n < |st.regionOf| && r < |st.members|
  {
    var from := st.regionOf[n];
    var out := if from < |st.members| then st.members[from := Without(st.members[from], n)] else st.members;
    State(st.regionOf[n := r], out[r := out[r] + [n]])
  }

  lemma MovePartition(st: State, n: nat, r: nat)
    requires Partition(st) && n < |st.regionOf| && r < |st.members|
    ensures Partition(Move(st, n, r))
  {
    hide Listed; hide Without;
    var from, next := st.regionOf[n], Move(st, n, r);
    forall q, k: nat | 0 <= q < |next.members| ensures Listed(next, q, k) {
      assert Listed(st, from, n) && Listed(st, q, k);
      MoveListed(st, n, r, q, k);
    }
  }

  lemma MoveListed(st: State, n: nat, r: nat, q: nat, k: nat)
    requires n < |st.regionOf| && st.regionOf[n] < |st.members| && r < |st.members| && q < |st.members|
    requires Listed(st, st.regionOf[n], n) && Listed(st, q, k)
    ensures Listed(Move(st, n, r), q, k)
  {
    hide Without;
    var from := st.regionOf[n];
    WithoutCounts(st.members[from], n);
    var kept := if q == from then Without(st.members[q], n) else st.members[q];
    assert multiset(kept + [n]) == multiset(kept) + multiset{n};
    assert Move(st, n, r).members[q] == if q == r then kept + [n] else kept;
  }

  /** A graph builder adds a node to its region's list. */
  function AddNode(st: State, r: nat): State
    requires r < |st.members|
  {
    State(st.regionOf + [r], st.members[r := st.members[r] + [|st.regionOf|]])
  }

  lemma AddNodePartition(st: State, r: nat)
    requires Partition(st) && r < |st.members|
    ensures Partition(AddNode(st, r))
  {
    var next := AddNode(st, r);
    forall q, k: nat | 0 <= q < |next.members| ensures Listed(next, q, k) {
      assert Listed(st, q, k);
    }
  }

  datatype Member = Member(node: nat, region: nat)

  datatype Derived = Derived(st: State, members: seq<Member>, valid: bool)

  predicate RegionsKnown(layout: Layout, n: nat) {
    n <= INVALID && forall i :: 0 <= i < |layout.circles| ==> layout.circles[i].region < n
  }

  lemma {:induction false} InnermostKnown(circles: seq<Circle>, p: Pos, epsilon: real, best: nat, radius: real, n: nat)
    requires (best == INVALID || best < n) && forall i :: 0 <= i < |circles| ==> circles[i].region < n
    ensures var r := Innermost(circles, p, epsilon, best, radius); r.Some? ==> r.value == INVALID || r.value < n
  {
    hide Classify;
    if circles != [] {
      InnermostKnown(circles[1..], p, epsilon, best, radius, n);
      InnermostKnown(circles[1..], p, epsilon, circles[0].region, circles[0].radius, n);
    }
  }

  /** Positions in order; the first ambiguous one ends the derivation where it is. */
  function DeriveAll(layout: Layout, st: State, ps: seq<Placed>, ms: seq<Member>): (d: Derived)
    requires RegionsKnown(layout, |st.members|)
    ensures |d.st.regionOf| == |st.regionOf| && |d.st.members| == |st.members|
    decreases |ps|
  {
    if ps == [] then Derived(st, ms, true)
    else if ps[0].id >= |st.regionOf| then DeriveAll(layout, st, ps[1..], ms)
    else
      InnermostKnown(layout.circles, ps[0].pos, layout.epsilon, INVALID, FAR, |st.members|);
      var r := RegionAt(layout, ps[0].pos);
      if r.None? then Derived(st, ms, false)
      else if r.value == INVALID then DeriveAll(layout, st, ps[1..], ms)
      else
        DeriveAll(layout, Move(st, ps[0].id, r.value), ps[1..],
                  if |ms| < NODES_MAX then ms + [Member(ps[0].id, r.value)] else ms)
  }

  function Derive(layout: Layout, st: State): Derived
    requires RegionsKnown(layout, |st.members|)
  {
    if layout.circles == [] then Derived(st, [], true) else DeriveAll(layout, st, layout.positions, [])
  }

  /** Every node stays in exactly one list, also when an ambiguity stops the derivation half way. */
  lemma {:induction false} DerivePartition(layout: Layout, st: State, ps: seq<Placed>, ms: seq<Member>)
    requires RegionsKnown(layout, |st.members|) && Partition(st)
    ensures Partition(DeriveAll(layout, st, ps, ms).st)
    decreases |ps|
  {
    hide Partition; hide RegionAt; hide Move; hide RegionsKnown;
    if ps != [] {
      if ps[0].id >= |st.regionOf| {
        DerivePartition(layout, st, ps[1..], ms);
      } else {
        KnownAt(layout, ps[0].pos, |st.members|);
        var r := RegionAt(layout, ps[0].pos);
        if r.Some? && r.value == INVALID {
          DerivePartition(layout, st, ps[1..], ms);
        } else if r.Some? {
          MoveSizes(st, ps[0].id, r.value);
          MovePartition(st, ps[0].id, r.value);
          DerivePartition(layout, Move(st, ps[0].id, r.value), ps[1..],
                          if |ms| < NODES_MAX then ms + [Member(ps[0].id, r.value)] else ms);
        }
      }
    }
  }

  lemma KnownAt(layout: Layout, p: Pos, n: nat)
    requires RegionsKnown(layout, n)
    ensures RegionAt(layout, p).Some? ==> RegionAt(layout, p).value == INVALID || RegionAt(layout, p).value < n
  {
    InnermostKnown(layout.circles, p, layout.epsilon, INVALID, FAR, n);
  }

  lemma MoveSizes(st: State, n: nat, r: nat)
    requires n < |st.regionOf| && r < |st.members|
    ensures |Move(st, n, r).members| == |st.members| && Move(st, n, r).regionOf == st.regionOf[n := r]
  {
  }

  /** The region the positions give a node: the last that names one, the old region if none does. */
  function Assigned(layout: Layout, ps: seq<Placed>, n: nat, was: nat): nat
    decreases |ps|
  {
    if ps == [] then was
    else
      var r := RegionAt(layout, ps[0].pos);
      Assigned(layout, ps[1..], n, if ps[0].id == n && r.Some? && r.value != INVALID then r.value else was)
  }

  predicate Clear(layout: Layout, ps: seq<Placed>, n: nat) {
    forall k :: 0 <= k < |ps| && ps[k].id < n ==> RegionAt(layout, ps[k].pos).Some?
  }

  /** The derivation succeeds exactly when no position of a node is ambiguous, and then every node has its assigned region. */
  lemma {:induction false} DeriveAssigns(layout: Layout, st: State, ps: seq<Placed>, ms: seq<Member>)
    requires RegionsKnown(layout, |st.members|)
    ensures var d := DeriveAll(layout, st, ps, ms);
            (d.valid <==> Clear(layout, ps, |st.regionOf|)) &&
            (d.valid ==> forall n :: 0 <= n < |st.regionOf| ==> d.st.regionOf[n] == Assigned(layout, ps, n, st.regionOf[n]))
    decreases |ps|
  {
    hide RegionAt; hide Move; hide RegionsKnown;
    if ps != [] {
      KnownAt(layout, ps[0].pos, |st.members|);
      var r, rest := RegionAt(layout, ps[0].pos), ps[1..];
      assert forall k :: 0 <= k < |rest| ==> rest[k] == ps[k + 1];
      assert forall k :: 0 < k < |ps| ==> ps[k] == rest[k - 1];
      if ps[0].id >= |st.regionOf| {
        DeriveAssigns(layout, st, rest, ms);
      } else if r.Some? && r.value == INVALID {
        DeriveAssigns(layout, st, rest, ms);
      } else if r.Some? {
        MoveSizes(st, ps[0].id, r.value);
        DeriveAssigns(layout, Move(st, ps[0].id, r.value), rest,
                      if |ms| < NODES_MAX then ms + [Member(ps[0].id, r.value)] else ms);
      }
    }
  }

  /** A node positioned once gets the region of the smallest circle around it, and keeps its own if there is none. */
  lemma {:induction false} AssignedOnce(layout: Layout, ps: seq<Placed>, k: nat, was: nat)
    requires k < |ps| && forall j :: 0 <= j < |ps| && j != k ==> ps[j].id != ps[k].id
    ensures var r := RegionAt(layout, ps[k].pos);
            Assigned(layout, ps, ps[k].id, was) == if r.Some? && r.value != INVALID then r.value else was
    decreases |ps|
  {
    hide RegionAt;
    var rest := ps[1..];
    assert forall j :: 0 <= j < |rest| ==> rest[j] == ps[j + 1];
    var r := RegionAt(layout, ps[0].pos);
    if k == 0 {
      AssignedNever(layout, rest, ps[0].id, if r.Some? && r.value != INVALID then r.value else was);
    } else {
      AssignedOnce(layout, rest, k - 1, was);
    }
  }

  lemma {:induction false} AssignedNever(layout: Layout, ps: seq<Placed>, n: nat, was: nat)
    requires forall j :: 0 <= j < |ps| ==> ps[j].id != n
    ensures Assigned(layout, ps, n, was) == was
    decreases |ps|
  {
    hide RegionAt;
    if ps != [] {
      assert forall j :: 0 <= j < |ps[1..]| ==> ps[1..][j] == ps[j + 1];
      AssignedNever(layout, ps[1..], n, was);
    }
  }

  lemma SmallestIsCircle(layout: Layout, p: Pos)
    ensures forall i: nat :: Smallest(layout.circles, p, layout.epsilon, FAR, i) ==> i < |layout.circles|
  {
  }

  /** What a successful derivation means for a node positioned once. */
  lemma {:induction false} DerivedRegion(layout: Layout, st: State, k: nat)
    requires RegionsKnown(layout, |st.members|) && layout.circles != []
    requires k < |layout.positions| && layout.positions[k].id < |st.regionOf|
    requires forall j :: 0 <= j < |layout.positions| && j != k ==> layout.positions[j].id != layout.positions[k].id
    requires Derive(layout, st).valid
    ensures var at, region := layout.positions[k], Derive(layout, st).st.regionOf[layout.positions[k].id];
            (exists i: nat :: Smallest(layout.circles, at.pos, layout.epsilon, FAR, i) && layout.circles[i].region == region) ||
            (region == st.regionOf[at.id] &&
             forall j :: 0 <= j < |layout.circles| ==> !Around(layout.circles[j], at.pos, layout.epsilon, FAR))
  {
    hide Around; hide DeriveAll; hide Innermost; hide Smallest;
    SmallestIsCircle(layout, layout.positions[k].pos);
    DeriveAssigns(layout, st, layout.positions, []);
    AssignedOnce(layout, layout.positions, k, st.regionOf[layout.positions[k].id]);
    InnermostMeaning(layout.circles, layout.positions[k].pos, layout.epsilon, INVALID, FAR);
  }

  // ----- Agreement with the graph -----

  /** The list of derived members, each as its position gave it. */
  lemma {:induction false} DeriveMembers(layout: Layout, st: State, ps: seq<Placed>, ms: seq<Member>)
    requires RegionsKnown(layout, |st.members|) && |ms| + |ps| <= NODES_MAX
    requires forall k :: 0 <= k < |ms| ==> ms[k].node < |st.regionOf|
    ensures var d := DeriveAll(layout, st, ps, ms);
            ms <= d.members && forall k :: 0 <= k < |d.members| ==> d.members[k].node < |st.regionOf|
    ensures var d := DeriveAll(layout, st, ps, ms);
            LastsAre(ms, st.regionOf) ==> LastsAre(d.members, d.st.regionOf)
    decreases |ps|
  {
    hide RegionAt; hide Move; hide RegionsKnown; hide LastsAre;
    if ps != [] {
      KnownAt(layout, ps[0].pos, |st.members|);
      var r := RegionAt(layout, ps[0].pos);
      if ps[0].id >= |st.regionOf| || r == Some(INVALID) {
        DeriveMembers(layout, st, ps[1..], ms);
      } else if r.Some? {
        MoveSizes(st, ps[0].id, r.value);
        LastAdded(ms, st.regionOf, ps[0].id, r.value);
        DeriveMembers(layout, Move(st, ps[0].id, r.value), ps[1..], ms + [Member(ps[0].id, r.value)]);
      }
    }
  }

  /** What is derived depends on the layout and on how many nodes there are, not on where they were. */
  lemma {:induction false} DeriveStateless(layout: Layout, a: State, b: State, ps: seq<Placed>, ms: seq<Member>)
    requires RegionsKnown(layout, |a.members|) && |a.members| == |b.members| && |a.regionOf| == |b.regionOf|
    ensures var x, y := DeriveAll(layout, a, ps, ms), DeriveAll(layout, b, ps, ms);
            x.members == y.members && x.valid == y.valid
    decreases |ps|
  {
    hide RegionAt; hide Move; hide RegionsKnown;
    if ps != [] {
      KnownAt(layout, ps[0].pos, |a.members|);
      var r := RegionAt(layout, ps[0].pos);
      if ps[0].id >= |a.regionOf| || r == Some(INVALID) {
        DeriveStateless(layout, a, b, ps[1..], ms);
      } else if r.Some? {
        MoveSizes(a, ps[0].id, r.value);
        MoveSizes(b, ps[0].id, r.value);
        DeriveStateless(layout, Move(a, ps[0].id, r.value), Move(b, ps[0].id, r.value), ps[1..],
                        if |ms| < NODES_MAX then ms + [Member(ps[0].id, r.value)] else ms);
      }
    }
  }

  predicate SameRegions(a: seq<Member>, b: seq<Member>) {
    |a| == |b| && forall i :: 0 <= i < |a| ==> a[i].region == b[i].region
  }

  predicate IsLast(ms: seq<Member>, k: nat) {
    k < |ms| && forall j :: k < j < |ms| ==> ms[j].node != ms[k].node
  }

  /** A node's region is the one it was last derived into. */
  predicate LastsAre(ms: seq<Member>, regionOf: seq<nat>) {
    forall k :: 0 <= k < |ms| && IsLast(ms, k) && ms[k].node < |regionOf| ==> regionOf[ms[k].node] == ms[k].region
  }

  lemma LastAdded(ms: seq<Member>, regionOf: seq<nat>, n: nat, r: nat)
    requires n < |regionOf|
    ensures LastsAre(ms, regionOf) ==> LastsAre(ms + [Member(n, r)], regionOf[n := r])
  {
    var more, next := ms + [Member(n, r)], regionOf[n := r];
    if LastsAre(ms, regionOf) {
      forall k | 0 <= k < |more| && IsLast(more, k) && more[k].node < |next| ensures next[more[k].node] == more[k].region {
        if k < |ms| {
          assert more[|ms|].node != more[k].node;
          assert forall j :: k < j < |ms| ==> more[j] == ms[j];
          assert IsLast(ms, k);
        }
      }
    }
  }

  predicate Agrees(ms: seq<Member>, regionOf: seq<nat>) {
    forall k :: 0 <= k < |ms| ==> ms[k].node < |regionOf| && regionOf[ms[k].node] == ms[k].region
  }

  /** No node was derived into two regions. */
  predicate OneRegionEach(ms: seq<Member>) {
    forall i, j :: 0 <= i < |ms| && 0 <= j < |ms| && ms[i].node == ms[j].node ==> ms[i].region == ms[j].region
  }

  lemma {:induction false} LastOf(ms: seq<Member>, k: nat) returns (i: nat)
    requires k < |ms|
    ensures IsLast(ms, i) && ms[i].node == ms[k].node
    decreases |ms| - k
  {
    i := k;
    if j :| k < j < |ms| && ms[j].node == ms[k].node {
      i := LastOf(ms, j);
    }
  }

  /** The consistency check passes after a derivation exactly when no node was derived into two regions. */
  lemma {:induction false} ConsistencyExact(layout: Layout, st: State)
    requires RegionsKnown(layout, |st.members|) && |layout.positions| <= NODES_MAX
    ensures var d := Derive(layout, st); Agrees(d.members, d.st.regionOf) <==> OneRegionEach(d.members)
  {
    hide DeriveAll; hide RegionsKnown;
    DeriveMembers(layout, st, layout.positions, []);
    var d := Derive(layout, st);
    if OneRegionEach(d.members) {
      forall k | 0 <= k < |d.members| ensures d.st.regionOf[d.members[k].node] == d.members[k].region {
        var i := LastOf(d.members, k);
      }
    }
  }

  // ----- The graph as it changes -----

  class PlacedGraph {
    const regionOf: array<nat>
    const members: array<seq<nat>>

    constructor (regionOf: seq<nat>, members: seq<seq<nat>>)
      ensures Now() == State(regionOf, members) && fresh(this.regionOf) && fresh(this.members)
    {
      this.regionOf := new nat[|regionOf|](i requires 0 <= i < |regionOf| => regionOf[i]);
      this.members := new seq<nat>[|members|](i requires 0 <= i < |members| => members[i]);
      new;
      assert this.regionOf[..] == regionOf && this.members[..] == members;
    }

    function Now(): State
      reads regionOf, members
    {
      State(regionOf[..], members[..])
    }

    /** Overwrites the first entry equal to the node with the last one, and shortens the list. */
    method RemoveFromRegion(region: nat, node: nat)
      modifies members
      ensures members[..] == if region < members.Length then old(members[..])[region := Without(old(members[region]), node)] else old(members[..])
    {
      if region >= members.Length { return; }
      var ms := members[region];
      var i := 0;
      assert ms[0..] == ms;
      while i < |ms|
        invariant 0 <= i <= |ms| && members[..] == old(members[..]) && ms == old(members[region])
        invariant IndexOf(ms, node) == i + IndexOf(ms[i..], node)
      {
        assert ms[i..][1..] == ms[i + 1..];
        if ms[i] == node {
          var last := ms[|ms| - 1];
          members[region] := ms[i := last][..|ms| - 1];
          return;
        }
        i := i + 1;
      }
      assert members[..] == old(members[..])[region := ms];
    }

    method MoveNode(node: nat, region: nat)
      requires node < regionOf.Length && region < members.Length
      modifies regionOf, members
      ensures Now() == Move(old(Now()), node, region)
    {
      RemoveFromRegion(regionOf[node], node);
      regionOf[node] := region;
      members[region] := members[region] + [node];
    }

    /** Moves every positioned node; stops at the first ambiguous one. */
    method DeriveRegions(layout: Layout) returns (ms: seq<Member>, valid: bool)
      requires RegionsKnown(layout, members.Length)
      modifies regionOf, members
      ensures Derived(Now(), ms, valid) == Derive(layout, old(Now()))
    {
      hide RegionAt; hide Move; hide RegionsKnown;
      ms, valid := [], true;
      if |layout.circles| == 0 { return; }
      var i := 0;
      assert layout.positions[0..] == layout.positions;
      while i < |layout.positions|
        invariant 0 <= i <= |layout.positions| && valid
        invariant DeriveAll(layout, Now(), layout.positions[i..], ms) == Derive(layout, old(Now()))
      {
        var at := layout.positions[i];
        assert layout.positions[i..][1..] == layout.positions[i + 1..];
        if at.id < regionOf.Length {
          KnownAt(layout, at.pos, members.Length);
          var r := FindInnermost(layout, at.pos);
          if r.None? { return ms, false; }
          if r.value != INVALID {
            MoveNode(at.id, r.value);
            if |ms| < NODES_MAX {
              ms := ms + [Member(at.id, r.value)];
            }
          }
        }
        i := i + 1;
      }
    }

    /** Derives with both layouts in turn and compares; the first derivation does not influence the second. */
    method DeformationStable(before: Layout, after: Layout) returns (ok: bool)
      requires RegionsKnown(before, members.Length) && RegionsKnown(after, members.Length)
      modifies regionOf, members
      ensures ok <==> (var a, b := Derive(before, old(Now())), Derive(after, old(Now()));
                       a.valid && b.valid && SameRegions(a.members, b.members))
    {
      hide DeriveAll; hide RegionsKnown;
      ghost var was := Now();
      var saved, valid := DeriveRegions(before);
      if !valid { return false; }
      DeriveStateless(after, was, Now(), after.positions, []);
      var derived;
      derived, valid := DeriveRegions(after);
      if !valid || |derived| != |saved| { return false; }
      var i := 0;
      while i < |saved|
        invariant 0 <= i <= |saved| && forall k :: 0 <= k < i ==> derived[k].region == saved[k].region
      {
        if derived[i].region != saved[i].region { return false; }
        i := i + 1;
      }
      ok := true;
    }

    method VerifyConsistency(ms: seq<Member>) returns (ok: bool)
      ensures ok <==> Agrees(ms, regionOf[..])
    {
      var i := 0;
      while i < |ms|
        invariant 0 <= i <= |ms|
        invariant forall k :: 0 <= k < i ==> ms[k].node < regionOf.Length && regionOf[ms[k].node] == ms[k].region
      {
        if ms[i].node >= regionOf.Length || regionOf[ms[i].node] != ms[i].region { return false; }
        i := i + 1;
      }
      ok := true;
    }
  }

  /** One pass over the circles, keeping the smallest around the position. */
  method FindInnermost(layout: Layout, p: Pos) returns (r: Option<nat>)
    ensures r == RegionAt(layout, p)
  {
    hide Classify;
    var best, radius, i := INVALID, FAR, 0;
    assert layout.circles[0..] == layout.circles;
    while i < |layout.circles|
      invariant 0 <= i <= |layout.circles|
      invariant Innermost(layout.circles[i..], p, layout.epsilon, best, radius) == RegionAt(layout, p)
    {
      var c := layout.circles[i];
      assert layout.circles[i..][1..] == layout.circles[i + 1..];
      var side := Classify(c, p, layout.epsilon);
      if side.Ambiguous? { return None; }
      if side.Inside? && c.radius < radius {
        best, radius := c.region, c.radius;
      }
      i := i + 1;
    }
    r := Some(best);
  }
}
