/**
 Graph validation. The ancestry check walks each parent chain for at most as many
 steps as there are regions; that this is enough to find every cycle, and that a
 graph without one has only chains that end, are pigeonhole arguments.
 */
module Validation {
  import opened SemanticGraph

  // ----- Parent chains -----

  function Parent(g: Graph, r: nat): nat {
    if r < |g.regions| then g.regions[r].parent else INVALID
  }

  /** The k-th ancestor of a region. */
  function Up(g: Graph, r: nat, k: nat): nat {
    if k == 0 then r else Parent(g, Up(g, r, k - 1))
  }

  lemma {:induction false} UpAdds(g: Graph, r: nat, a: nat, b: nat)
    ensures Up(g, Up(g, r, a), b) == Up(g, r, a + b)
  {
    if b > 0 {
      UpAdds(g, r, a, b - 1);
    }
  }

  /** A region that is its own ancestor. */
  ghost predicate OnCycle(g: Graph, r: nat) { exists k: nat :: k > 0 && Up(g, r, k) == r }

  predicate CycleWithin(g: Graph, r: nat, n: nat) { exists k :: 0 < k <= n && Up(g, r, k) == r }

  /** The chain of parents from a region ends within `n` steps. */
  predicate EndsWithin(g: Graph, r: nat, n: nat) { exists k :: 0 <= k <= n && Up(g, r, k) == INVALID }

  predicate DistinctValues(s: seq<nat>) { forall i, j :: 0 <= i < j < |s| ==> s[i] != s[j] }

  /** Distinct numbers below `n` are at most `n` many. */
  lemma {:induction false} Pigeonhole(s: seq<nat>, n: nat)
    requires DistinctValues(s) && forall i :: 0 <= i < |s| ==> s[i] < n
    ensures |s| <= n
  {
    var first := if s == [] then 0 else s[0];
    if n > 0 {
      if i :| 0 <= i < |s| && s[i] == n - 1 {
        Pigeonhole(s[..i] + s[i + 1..], n - 1);
      } else {
        Pigeonhole(s, n - 1);
      }
    }
  }

  /** The first `n` ancestors of a region, itself included. */
  function Chain(g: Graph, r: nat, n: nat): (s: seq<nat>)
    ensures |s| == n && forall k :: 0 <= k < n ==> s[k] == Up(g, r, k)
  {
    seq(n, k requires 0 <= k < n => Up(g, r, k))
  }

  /** A chain that returns to its start does so within as many steps as there are regions. */
  lemma {:induction false} ShortCycle(g: Graph, r: nat, k: nat)
    requires r < |g.regions| <= INVALID && 0 < k && Up(g, r, k) == r
    ensures CycleWithin(g, r, |g.regions|)
    decreases k
  {
    if k > |g.regions| {
      var s := Chain(g, r, k);
      forall i | 0 <= i < k ensures s[i] < |g.regions| {
        if s[i] >= |g.regions| {
          StaysOut(g, r, i, k - i);
        }
      }
      if DistinctValues(s) {
        Pigeonhole(s, |g.regions|);
      } else {
        var i, j :| 0 <= i < j < k && s[i] == s[j];
        UpAdds(g, r, j, k - j);
        UpAdds(g, r, i, k - j);
        ShortCycle(g, r, k - (j - i));
      }
    }
  }

  /** Past the last region there is no way back. */
  lemma {:induction false} StaysOut(g: Graph, r: nat, a: nat, b: nat)
    requires |g.regions| <= INVALID && Up(g, r, a) >= |g.regions|
    ensures b > 0 ==> Up(g, r, a + b) == INVALID
  {
    if b > 1 {
      StaysOut(g, r, a, b - 1);
    }
  }

  // ----- Valid graphs -----

  predicate ParentValid(g: Graph, i: nat)
    requires i < |g.regions|
  {
    g.regions[i].id == i && (g.regions[i].parent == INVALID || g.regions[i].parent < |g.regions|)
  }

  predicate NodeValid(g: Graph, i: nat)
    requires i < |g.nodes|
  {
    var n := g.nodes[i];
    && n.id == i && n.region < |g.regions|
    && (n.cyclic != [] ==> |n.cyclic| == |n.ports| && forall k :: 0 <= k < |n.cyclic| ==> n.cyclic[k] in n.ports)
  }

  predicate EdgeValid(g: Graph, i: nat)
    requires i < |g.edges|
  {
    var e := g.edges[i];
    && e.id == i && e.from < |g.ports| && e.to < |g.ports|
    && g.ports[e.from].dir == Output && g.ports[e.to].dir == Input
  }

  /** Identifiers are positions, references are in range, edges run from outputs to inputs, no region is its own ancestor. */
  ghost predicate ValidGraph(g: Graph) {
    && g.root != INVALID
    && (forall i :: 0 <= i < |g.regions| ==> ParentValid(g, i) && !OnCycle(g, i))
    && (forall i :: 0 <= i < |g.nodes| ==> NodeValid(g, i))
    && (forall i :: 0 <= i < |g.edges| ==> EdgeValid(g, i))
    && (forall i :: 0 <= i < |g.ports| ==> PortIndexed(g, i))
  }

  /** The bounded walk up the parents of a region. */
  method HasCyclicAncestry(g: Graph, i: nat) returns (cyclic: bool)
    requires i < |g.regions| <= INVALID
    ensures cyclic <==> OnCycle(g, i)
  {
    var cur := g.regions[i].parent;
    var depth := 0;
    while cur != INVALID && depth < |g.regions|
      invariant 0 <= depth <= |g.regions| && cur == Up(g, i, depth + 1)
      invariant !CycleWithin(g, i, depth)
      decreases |g.regions| - depth
    {
      if cur == i {
        return true;
      }
      if cur >= |g.regions| {
        NoWayBack(g, i, depth + 1);
        return false;
      }
      cur := g.regions[cur].parent;
      depth := depth + 1;
    }
    if cur == INVALID {
      NoWayBack(g, i, depth + 1);
    } else if OnCycle(g, i) {
      var k: nat :| k > 0 && Up(g, i, k) == i;
      ShortCycle(g, i, k);
    }
    cyclic := false;
  }

  /** A chain that left the table at step `a` without meeting its start never meets it. */
  lemma NoWayBack(g: Graph, i: nat, a: nat)
    requires i < |g.regions| <= INVALID && 0 < a && Up(g, i, a) >= |g.regions| && !CycleWithin(g, i, a - 1)
    ensures !OnCycle(g, i)
  {
    if OnCycle(g, i) {
      var k: nat :| k > 0 && Up(g, i, k) == i;
      if k > a {
        StaysOut(g, i, a, k - a);
      }
    }
  }

  method Validate(g: Graph) returns (valid: bool)
    requires |g.regions| <= INVALID
    ensures valid <==> ValidGraph(g)
  {
    valid := g.root != INVALID;
    var regions := ValidateRegions(g);
    var nodes := ValidateNodes(g);
    var edges := ValidateEdgesAndPorts(g);
    valid := valid && regions && nodes && edges;
  }

  method ValidateRegions(g: Graph) returns (valid: bool)
    requires |g.regions| <= INVALID
    ensures valid <==> forall i :: 0 <= i < |g.regions| ==> ParentValid(g, i) && !OnCycle(g, i)
  {
    valid := true;
    var i := 0;
    while i < |g.regions|
      invariant 0 <= i <= |g.regions|
      invariant valid <==> forall k :: 0 <= k < i ==> ParentValid(g, k) && !OnCycle(g, k)
    {
      if g.regions[i].id != i { valid := false; }
      if g.regions[i].parent != INVALID && g.regions[i].parent >= |g.regions| { valid := false; }
      var cyclic := HasCyclicAncestry(g, i);
      if cyclic { valid := false; }
      i := i + 1;
    }
  }

  method ValidateNodes(g: Graph) returns (valid: bool)
    ensures valid <==> forall i :: 0 <= i < |g.nodes| ==> NodeValid(g, i)
  {
    valid := true;
    var i := 0;
    while i < |g.nodes|
      invariant 0 <= i <= |g.nodes|
      invariant valid <==> forall k :: 0 <= k < i ==> NodeValid(g, k)
    {
      ghost var was := valid;
      var n := g.nodes[i];
      if n.id != i || n.region >= |g.regions| { valid := false; }
      if |n.cyclic| > 0 {
        if |n.cyclic| != |n.ports| { valid := false; }
        var known := AllKnown(n.cyclic, n.ports);
        if !known { valid := false; }
      }
      assert valid <==> was && NodeValid(g, i);
      i := i + 1;
    }
  }

  /** Every entry of a cyclic order is one of the node's ports. */
  method AllKnown(cyclic: seq<nat>, ports: seq<nat>) returns (known: bool)
    ensures known <==> forall k :: 0 <= k < |cyclic| ==> cyclic[k] in ports
  {
    known := true;
    var i := 0;
    while i < |cyclic|
      invariant 0 <= i <= |cyclic|
      invariant known <==> forall k :: 0 <= k < i ==> cyclic[k] in ports
    {
      var found, j := false, 0;
      while j < |ports| && !found
        invariant 0 <= j <= |ports|
        invariant found <==> cyclic[i] in ports[..j]
      {
        if cyclic[i] == ports[j] { found := true; }
        j := j + 1;
      }
      assert ports[..|ports|] == ports;
      if !found { known := false; }
      i := i + 1;
    }
  }

  method ValidateEdgesAndPorts(g: Graph) returns (valid: bool)
    ensures valid <==> (forall i :: 0 <= i < |g.edges| ==> EdgeValid(g, i)) &&
                       (forall i :: 0 <= i < |g.ports| ==> PortIndexed(g, i))
  {
    valid := true;
    var i := 0;
    while i < |g.edges|
      invariant 0 <= i <= |g.edges|
      invariant valid <==> forall k :: 0 <= k < i ==> EdgeValid(g, k)
    {
      ghost var was := valid;
      var e := g.edges[i];
      if e.id != i || e.from >= |g.ports| || e.to >= |g.ports| { valid := false; }
      if e.from < |g.ports| && g.ports[e.from].dir != Output { valid := false; }
      if e.to < |g.ports| && g.ports[e.to].dir != Input { valid := false; }
      assert valid <==> was && EdgeValid(g, i);
      i := i + 1;
    }
    i := 0;
    while i < |g.ports|
      invariant 0 <= i <= |g.ports|
      invariant valid <==> (forall k :: 0 <= k < |g.edges| ==> EdgeValid(g, k)) &&
                           (forall k :: 0 <= k < i ==> PortIndexed(g, k))
    {
      ghost var was := valid;
      if g.ports[i].id != i || g.ports[i].owner >= |g.nodes| { valid := false; }
      assert valid <==> was && PortIndexed(g, i);
      i := i + 1;
    }
  }

  // ----- What validity means -----

  /** Without cycles every parent chain ends, within as many steps as there are regions; and only then. */
  lemma {:induction false} AcyclicMeansChainsEnd(g: Graph)
    requires |g.regions| <= INVALID && forall i :: 0 <= i < |g.regions| ==> ParentValid(g, i)
    ensures (forall i :: 0 <= i < |g.regions| ==> !OnCycle(g, i)) <==>
            (forall i :: 0 <= i < |g.regions| ==> EndsWithin(g, i, |g.regions|))
  {
    if forall i :: 0 <= i < |g.regions| ==> !OnCycle(g, i) {
      forall i | 0 <= i < |g.regions| ensures EndsWithin(g, i, |g.regions|) {
        ChainEnds(g, i);
      }
    }
    if forall i :: 0 <= i < |g.regions| ==> EndsWithin(g, i, |g.regions|) {
      forall i | 0 <= i < |g.regions| ensures !OnCycle(g, i) {
        EndingIsNoCycle(g, i);
      }
    }
  }

  lemma {:induction false} ChainEnds(g: Graph, r: nat)
    requires r < |g.regions| <= INVALID
    requires forall i :: 0 <= i < |g.regions| ==> ParentValid(g, i) && !OnCycle(g, i)
    ensures EndsWithin(g, r, |g.regions|)
  {
    var n := |g.regions|;
    if !EndsWithin(g, r, n) {
      var s := Chain(g, r, n + 1);
      forall k | 0 <= k <= n ensures s[k] < n {
        AncestorKnown(g, r, k);
      }
      if DistinctValues(s) {
        Pigeonhole(s, n);
      } else {
        var i, j :| 0 <= i < j <= n && s[i] == s[j];
        UpAdds(g, r, i, j - i);
        assert Up(g, s[i], j - i) == s[i];
        assert OnCycle(g, s[i]);
      }
    }
  }

  /** With valid parents an ancestor is a region or none. */
  lemma {:induction false} AncestorKnown(g: Graph, r: nat, k: nat)
    requires r < |g.regions| <= INVALID && forall i :: 0 <= i < |g.regions| ==> ParentValid(g, i)
    ensures Up(g, r, k) < |g.regions| || Up(g, r, k) == INVALID
  {
    if k > 0 {
      AncestorKnown(g, r, k - 1);
      var c := Up(g, r, k - 1);
      assert c < |g.regions| ==> ParentValid(g, c);
    }
  }

  lemma {:induction false} EndingIsNoCycle(g: Graph, r: nat)
    requires r < |g.regions| <= INVALID && EndsWithin(g, r, |g.regions|)
    ensures !OnCycle(g, r)
  {
    var e :| 0 <= e <= |g.regions| && Up(g, r, e) == INVALID;
    if OnCycle(g, r) {
      var k: nat :| k > 0 && Up(g, r, k) == r;
      var far := Around(g, r, k, e + 1);
      StaysOut(g, r, e, far - e);
    }
  }

  /** A cycle leads back to its start arbitrarily far up. */
  lemma {:induction false} Around(g: Graph, r: nat, k: nat, m: nat) returns (far: nat)
    requires k > 0 && Up(g, r, k) == r
    ensures far >= m && Up(g, r, far) == r
  {
    if m == 0 {
      far := 0;
    } else {
      var nearer := Around(g, r, k, m - 1);
      UpAdds(g, r, nearer, k);
      far := nearer + k;
    }
  }
}
