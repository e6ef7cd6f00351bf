/**
 The architecture verifier: the effects in the regions its walk follows from a sealed
 region must be among the region's capabilities, and an edge between differently sealed
 regions needs a declared channel. The walk follows nesting, branches, loop bodies and
 called or spawned functions, not value edges; EffectSoundness says what that means
 for runs.
 */
module Architecture {
  import opened Values
  import opened SemanticGraph
  import opened Reachability
  import opened Validation

  datatype Effect = Clock | Logger | Network | Filesystem | Hardware | UserInput

  datatype Sealing = Sealing(region: nat, isSealed: bool, capabilities: set<Effect>)

  datatype Bridge = Bridge(from: nat, to: nat)

  datatype Spec = Spec(sealings: seq<Sealing>, bridges: seq<Bridge>)

  // ----- What the walk follows -----

  const INTRINSIC_PRINT: nat := 0
  const INTRINSIC_CLOCK: nat := 1
  const INTRINSIC_INPUT: nat := 5

  /** The effects of a node by itself; concurrency nodes have none. */
  function NodeEffects(k: Kind): set<Effect> {
    match k
    case Print => {Logger}
    case IntrinsicCall(id) =>
      if id == INTRINSIC_PRINT then {Logger} else if id == INTRINSIC_CLOCK then {Clock}
      else if id == INTRINSIC_INPUT then {UserInput} else {}
    case _ => {}
  }

  /** The regions the walk follows from a node: branches, loop bodies, and the body of a function it calls or spawns. */
  function NodeRegions(g: Graph, k: Kind): set<nat>
    requires |g.nodes| <= INVALID
  {
    match k
    case If(t, e) => KnownRegions(g, {t, e})
    case While(b) => KnownRegions(g, {b})
    case Cycle(b) => KnownRegions(g, {b})
    case Try(t, c) => KnownRegions(g, {t, c})
    case FuncCall(name) => KnownRegions(g, BodyOf(g, name))
    case ThreadSpawn(name) => KnownRegions(g, BodyOf(g, name))
    case _ => {}
  }

  function KnownRegions(g: Graph, rs: set<nat>): set<nat> { set r | r in rs && r < |g.regions| }

  function BodyOf(g: Graph, name: string): set<nat>
    requires |g.nodes| <= INVALID
  {
    var f := FindFunc(g, name);
    if f == INVALID then {} else {g.nodes[f].kind.body}
  }

  /** Effects and regions of the first `m` members of a region; members out of range are skipped. */
  function MemberEffects(g: Graph, r: nat, m: nat): set<Effect>
    requires m <= |Members(g, r)|
  {
    if m == 0 then {}
    else
      var n := Members(g, r)[m - 1];
      MemberEffects(g, r, m - 1) + if n < |g.nodes| then NodeEffects(g.nodes[n].kind) else {}
  }

  function MemberRegions(g: Graph, r: nat, m: nat): set<nat>
    requires |g.nodes| <= INVALID && m <= |Members(g, r)|
  {
    if m == 0 then {}
    else
      var n := Members(g, r)[m - 1];
      MemberRegions(g, r, m - 1) + if n < |g.nodes| then NodeRegions(g, g.nodes[n].kind) else {}
  }

  function RegionEffects(g: Graph, r: nat): set<Effect> { MemberEffects(g, r, |Members(g, r)|) }

  /** The first `m` regions whose parent is `r`. */
  function Nested(g: Graph, r: nat, m: nat): set<nat>
    requires m <= |g.regions|
  {
    set i | 0 <= i < m && g.regions[i].parent == r
  }

  /** The regions one step from a region: nested ones and those followed from its members. */
  function Runs(g: Graph, r: nat): set<nat>
    requires |g.nodes| <= INVALID
  {
    MemberRegions(g, r, |Members(g, r)|) + Nested(g, r, |g.regions|)
  }

  ghost function RegionGraph(g: Graph): (e: Edges<nat>)
    requires |g.nodes| <= INVALID
    ensures forall r: nat :: r in e <==> r < |g.regions|
  {
    map r: nat | r < |g.regions| :: Runs(g, r)
  }

  /** Everything the walk follows from a region, itself included. */
  ghost function Covered(g: Graph, r: nat): set<nat>
    requires |g.nodes| <= INVALID
  {
    set x: nat | x < |g.regions| && Reachable<nat>(RegionGraph(g), {r}, x)
  }

  function AllEffects(g: Graph, rs: set<nat>): set<Effect> {
    set r, e | r in rs && e in RegionEffects(g, r) :: e
  }

  lemma AllEffectsAdd(g: Graph, a: set<nat>, b: set<nat>)
    ensures AllEffects(g, a + b) == AllEffects(g, a) + AllEffects(g, b)
  {
  }

  // ----- The walk -----

  ghost function Visited(a: array<bool>): (s: set<nat>)
    reads a
  {
    set k | 0 <= k < a.Length && a[k]
  }

  ghost function Left(a: array<bool>): set<nat>
    reads a
  {
    set k | 0 <= k < a.Length && !a[k]
  }

  /** A visited function's body has been entered. */
  ghost predicate BodiesEntered(g: Graph, funcs: set<nat>, regions: set<nat>) {
    forall f :: f in funcs ==>
      f < |g.nodes| && g.nodes[f].kind.FuncDef? && KnownRegions(g, {g.nodes[f].kind.body}) <= regions
  }

  ghost predicate Tables(g: Graph, regions: array<bool>, funcs: array<bool>) {
    regions != funcs && regions.Length == |g.regions| && funcs.Length == |g.nodes| <= INVALID
  }

  /** What a walk over some regions adds: marks with all their successors, and exactly the effects of the new marks. */
  ghost predicate Walked(g: Graph, before: set<nat>, after: set<nat>, rs: set<nat>, effects: set<Effect>)
    requires |g.nodes| <= INVALID
  {
    Progress(RegionGraph(g), before, after, rs) && effects == AllEffects(g, after - before)
  }

  lemma {:induction false} WalkedThen(g: Graph, a: set<nat>, b: set<nat>, c: set<nat>, r: set<nat>, q: set<nat>,
                                      e: set<Effect>, f: set<Effect>)
    requires |g.nodes| <= INVALID && Walked(g, a, b, r, e) && Walked(g, b, c, q, f)
    ensures Walked(g, a, c, r + q, e + f)
  {
    ProgressThen(RegionGraph(g), a, b, c, r, q);
    assert c - a == (b - a) + (c - b);
    AllEffectsAdd(g, b - a, c - b);
  }

  lemma {:induction false} WalkedNone(g: Graph, a: set<nat>, rs: set<nat>)
    requires |g.nodes| <= INVALID && rs <= a
    ensures Walked(g, a, a, rs, {})
  {
    assert a - a == {};
  }

  /** Marking a region, collecting its own effects and walking what it runs is walking the region. */
  lemma {:induction false} WalkedRegion(g: Graph, before: set<nat>, after: set<nat>, r: nat, effects: set<Effect>)
    requires |g.nodes| <= INVALID && r < |g.regions| && r !in before
    requires Walked(g, before + {r}, after, Runs(g, r), effects)
    ensures Walked(g, before, after, {r}, RegionEffects(g, r) + effects)
  {
    hide Progress; hide Runs; hide AllEffects;
    var e := RegionGraph(g);
    assert e[r] == Runs(g, r);
    ProgressNode<nat>(e, before, after, r);
    StillMarked(e, before + {r}, after, e[r]);
    assert after - before == {r} + (after - (before + {r}));
    AllEffectsAdd(g, {r}, after - (before + {r}));
    EffectsOfOne(g, r);
  }

  lemma StillMarked(e: Edges<nat>, before: set<nat>, after: set<nat>, rs: set<nat>)
    requires Progress(e, before, after, rs)
    ensures before <= after
  {
  }

  lemma EffectsOfOne(g: Graph, r: nat)
    ensures AllEffects(g, {r}) == RegionEffects(g, r)
  {
  }

  method CollectRegion(g: Graph, r: nat, regions: array<bool>, funcs: array<bool>) returns (effects: set<Effect>)
    requires Tables(g, regions, funcs)
    requires BodiesEntered(g, Visited(funcs), Visited(regions) + KnownRegions(g, {r}))
    modifies regions, funcs
    ensures Walked(g, old(Visited(regions)), Visited(regions), KnownRegions(g, {r}), effects)
    ensures BodiesEntered(g, Visited(funcs), Visited(regions)) && |Left(regions)| <= |old(Left(regions))|
    decreases |Left(regions)|, 2
  {
    hide Walked; hide BodiesEntered;
    ghost var before := Visited(regions);
    OneInTable(g, r);
    if r >= |g.regions| || regions[r] {
      WalkedNone(g, before, KnownRegions(g, {r}));
      assert before + KnownRegions(g, {r}) == before;
      return {};
    }
    MarkOne(regions, r);
    var own, below := CollectMembers(g, r, regions, funcs);
    WalkedRegion(g, before, Visited(regions), r, below);
    effects := own + below;
  }

  lemma OneInTable(g: Graph, r: nat)
    ensures KnownRegions(g, {r}) == if r < |g.regions| then {r} else {}
  {
  }

  method MarkOne(a: array<bool>, k: nat)
    requires k < a.Length
    modifies a
    ensures Visited(a) == old(Visited(a)) + {k}
    ensures !old(a[k]) ==> |Left(a)| < |old(Left(a))|
  {
    a[k] := true;
    assert !old(a[k]) ==> old(Left(a)) == Left(a) + {k};
  }

  /** The members of a region and the regions nested in it. */
  method CollectMembers(g: Graph, r: nat, regions: array<bool>, funcs: array<bool>)
      returns (own: set<Effect>, below: set<Effect>)
    requires Tables(g, regions, funcs) && r < |g.regions|
    requires BodiesEntered(g, Visited(funcs), Visited(regions))
    modifies regions, funcs
    ensures own == RegionEffects(g, r) && Walked(g, old(Visited(regions)), Visited(regions), Runs(g, r), below)
    ensures BodiesEntered(g, Visited(funcs), Visited(regions)) && |Left(regions)| <= |old(Left(regions))|
    decreases |Left(regions)|, 6
  {
    hide Walked; hide BodiesEntered; hide NodeEffects; hide NodeRegions;
    ghost var before := Visited(regions);
    var ms := Members(g, r);
    own, below := {}, {};
    WalkedNone(g, before, {});
    var m := 0;
    while m < |ms|
      invariant 0 <= m <= |ms| && Tables(g, regions, funcs)
      invariant own == MemberEffects(g, r, m)
      invariant Walked(g, before, Visited(regions), MemberRegions(g, r, m), below)
      invariant BodiesEntered(g, Visited(funcs), Visited(regions)) && |Left(regions)| <= |old(Left(regions))|
    {
      var n := ms[m];
      if n < |g.nodes| {
        own := own + NodeEffects(g.nodes[n].kind);
        ghost var mid, e := Visited(regions), below;
        var more := CollectNode(g, g.nodes[n].kind, regions, funcs);
        WalkedThen(g, before, mid, Visited(regions), MemberRegions(g, r, m), NodeRegions(g, g.nodes[n].kind), e, more);
        below := below + more;
      } else {
        assert MemberRegions(g, r, m) + {} == MemberRegions(g, r, m);
      }
      m := m + 1;
    }
    var i := 0;
    assert MemberRegions(g, r, |ms|) + Nested(g, r, 0) == MemberRegions(g, r, |ms|);
    while i < |g.regions|
      invariant 0 <= i <= |g.regions| && Tables(g, regions, funcs) && own == RegionEffects(g, r)
      invariant Walked(g, before, Visited(regions), MemberRegions(g, r, |ms|) + Nested(g, r, i), below)
      invariant BodiesEntered(g, Visited(funcs), Visited(regions)) && |Left(regions)| <= |old(Left(regions))|
    {
      NestedNext(g, r, i);
      if g.regions[i].parent == r {
        ghost var mid, e := Visited(regions), below;
        MoreEntered(g, Visited(funcs), mid, mid + KnownRegions(g, {i}));
        var more := CollectRegion(g, i, regions, funcs);
        OneInTable(g, i);
        WalkedThen(g, before, mid, Visited(regions), MemberRegions(g, r, |ms|) + Nested(g, r, i), {i}, e, more);
        assert MemberRegions(g, r, |ms|) + Nested(g, r, i) + {i} == MemberRegions(g, r, |ms|) + Nested(g, r, i + 1);
        below := below + more;
      } else {
        assert Nested(g, r, i) + {} == Nested(g, r, i);
      }
      i := i + 1;
    }
  }

  lemma NestedNext(g: Graph, r: nat, i: nat)
    requires i < |g.regions|
    ensures Nested(g, r, i + 1) == Nested(g, r, i) + if g.regions[i].parent == r then {i} else {}
  {
  }

  lemma MoreEntered(g: Graph, funcs: set<nat>, a: set<nat>, b: set<nat>)
    requires BodiesEntered(g, funcs, a) && a <= b
    ensures BodiesEntered(g, funcs, b)
  {
  }

  /** The regions one member runs. */
  method CollectNode(g: Graph, k: Kind, regions: array<bool>, funcs: array<bool>) returns (effects: set<Effect>)
    requires Tables(g, regions, funcs)
    requires BodiesEntered(g, Visited(funcs), Visited(regions))
    modifies regions, funcs
    ensures Walked(g, old(Visited(regions)), Visited(regions), NodeRegions(g, k), effects)
    ensures BodiesEntered(g, Visited(funcs), Visited(regions)) && |Left(regions)| <= |old(Left(regions))|
    decreases |Left(regions)|, 5
  {
    hide Walked; hide BodiesEntered;
    effects := {};
    if k.FuncCall? || k.ThreadSpawn? {
      effects := CollectCall(g, k.name, regions, funcs);
    } else if k.If? {
      effects := CollectTwo(g, k.thenRegion, k.elseRegion, regions, funcs);
    } else if k.Try? {
      effects := CollectTwo(g, k.tryRegion, k.catchRegion, regions, funcs);
    } else if k.While? || k.Cycle? {
      effects := CollectChild(g, k.body, regions, funcs);
    } else {
      WalkedNone(g, Visited(regions), {});
    }
  }

  /** A branch or loop body, if there is one. */
  method CollectChild(g: Graph, r: nat, regions: array<bool>, funcs: array<bool>) returns (effects: set<Effect>)
    requires Tables(g, regions, funcs)
    requires BodiesEntered(g, Visited(funcs), Visited(regions))
    modifies regions, funcs
    ensures Walked(g, old(Visited(regions)), Visited(regions), KnownRegions(g, {r}), effects)
    ensures BodiesEntered(g, Visited(funcs), Visited(regions)) && |Left(regions)| <= |old(Left(regions))|
    decreases |Left(regions)|, 3
  {
    hide Walked; hide BodiesEntered;
    MoreEntered(g, Visited(funcs), Visited(regions), Visited(regions) + KnownRegions(g, {r}));
    effects := CollectRegion(g, r, regions, funcs);
  }

  method CollectTwo(g: Graph, r: nat, q: nat, regions: array<bool>, funcs: array<bool>) returns (effects: set<Effect>)
    requires Tables(g, regions, funcs)
    requires BodiesEntered(g, Visited(funcs), Visited(regions))
    modifies regions, funcs
    ensures Walked(g, old(Visited(regions)), Visited(regions), KnownRegions(g, {r, q}), effects)
    ensures BodiesEntered(g, Visited(funcs), Visited(regions)) && |Left(regions)| <= |old(Left(regions))|
    decreases |Left(regions)|, 4
  {
    hide Walked; hide BodiesEntered;
    ghost var before := Visited(regions);
    var first := CollectChild(g, r, regions, funcs);
    ghost var mid := Visited(regions);
    var second := CollectChild(g, q, regions, funcs);
    WalkedThen(g, before, mid, Visited(regions), KnownRegions(g, {r}), KnownRegions(g, {q}), first, second);
    assert KnownRegions(g, {r}) + KnownRegions(g, {q}) == KnownRegions(g, {r, q});
    effects := first + second;
  }

  /** The body of a called or spawned function, unless the function was entered before. */
  method CollectCall(g: Graph, name: string, regions: array<bool>, funcs: array<bool>) returns (effects: set<Effect>)
    requires Tables(g, regions, funcs)
    requires BodiesEntered(g, Visited(funcs), Visited(regions))
    modifies regions, funcs
    ensures Walked(g, old(Visited(regions)), Visited(regions), KnownRegions(g, BodyOf(g, name)), effects)
    ensures BodiesEntered(g, Visited(funcs), Visited(regions)) && |Left(regions)| <= |old(Left(regions))|
    decreases |Left(regions)|, 4
  {
    hide Walked;
    var f := FindFunc(g, name);
    effects := {};
    if f == INVALID || funcs[f] {
      assert KnownRegions(g, BodyOf(g, name)) <= Visited(regions);
      WalkedNone(g, Visited(regions), KnownRegions(g, BodyOf(g, name)));
    } else {
      var body := g.nodes[f].kind.body;
      MarkOne(funcs, f);
      effects := CollectRegion(g, body, regions, funcs);
    }
  }

  /** A walk from empty tables marks exactly the covered regions. */
  lemma {:induction false} ClosureCovers(g: Graph, r: nat, after: set<nat>, effects: set<Effect>)
    requires |g.nodes| <= INVALID && r < |g.regions| && Walked(g, {}, after, {r}, effects)
    ensures effects == AllEffects(g, Covered(g, r))
  {
    hide Reachable; hide Progress; hide AllEffects; hide Runs;
    var e := RegionGraph(g);
    MarkedIsReachable<nat>(e, after, {r});
    assert forall x: nat :: x in after <==> x in Covered(g, r);
    assert after == Covered(g, r) && after - {} == after;
  }

  /** The effects of everything the walk follows from a region. */
  method RegionClosure(g: Graph, r: nat) returns (effects: set<Effect>)
    requires |g.nodes| <= INVALID && r < |g.regions| && ValidGraph(g)
    ensures effects == AllEffects(g, Covered(g, r))
  {
    hide ValidGraph;
    var regions := new bool[|g.regions|](_ => false);
    var funcs := new bool[|g.nodes|](_ => false);
    assert Visited(regions) == {} && Visited(funcs) == {};
    OneInTable(g, r);
    hide Walked;
    effects := CollectRegion(g, r, regions, funcs);
    ClosureCovers(g, r, Visited(regions), effects);
  }

  // ----- Sealed ancestors -----

  /** The first entry sealing a region, |sealings| if there is none. */
  function SealOf(spec: Spec, r: nat, i: nat): (k: nat)
    requires i <= |spec.sealings|
    ensures i <= k <= |spec.sealings|
    ensures k < |spec.sealings| ==> spec.sealings[k].region == r && spec.sealings[k].isSealed
    ensures forall j :: i <= j < k ==> !(spec.sealings[j].region == r && spec.sealings[j].isSealed)
    decreases |spec.sealings| - i
  {
    if i == |spec.sealings| then i
    else if spec.sealings[i].region == r && spec.sealings[i].isSealed then i
    else SealOf(spec, r, i + 1)
  }

  predicate IsSealed(spec: Spec, r: nat) { SealOf(spec, r, 0) < |spec.sealings| }

  /** Entry `s` seals the nearest ancestor of `r` that any entry seals. */
  ghost predicate NearestSeal(g: Graph, spec: Spec, r: nat, s: nat) {
    s < |spec.sealings| &&
    exists k: nat :: Up(g, r, k) != INVALID && SealOf(spec, Up(g, r, k), 0) == s && forall j :: 0 <= j < k ==> !IsSealed(spec, Up(g, r, j))
  }

  /** No ancestor of `r` is sealed. */
  ghost predicate Unsealed(g: Graph, spec: Spec, r: nat) {
    forall k: nat :: Up(g, r, k) != INVALID ==> !IsSealed(spec, Up(g, r, k))
  }

  /** The walk up the parents; the chain ends because the graph is valid. */
  method FindSealedAncestor(g: Graph, spec: Spec, r: nat) returns (s: Option<nat>)
    requires |g.regions| <= INVALID && ValidGraph(g) && r < |g.regions|
    ensures s.Some? ==> NearestSeal(g, spec, r, s.value)
    ensures s.None? ==> Unsealed(g, spec, r)
  {
    ChainEnds(g, r);
    ghost var e :| 0 <= e <= |g.regions| && Up(g, r, e) == INVALID;
    ghost var k := 0;
    var cur := r;
    while cur != INVALID
      invariant 0 <= k <= e && cur == Up(g, r, k)
      invariant forall j :: 0 <= j < k ==> !IsSealed(spec, Up(g, r, j))
      invariant cur < |g.regions| || cur == INVALID
      decreases e - k
    {
      var i := 0;
      while i < |spec.sealings|
        invariant 0 <= i <= |spec.sealings| && SealOf(spec, cur, 0) == SealOf(spec, cur, i)
      {
        if spec.sealings[i].region == cur && spec.sealings[i].isSealed {
          return Some(i);
        }
        i := i + 1;
      }
      AncestorKnown(g, r, k + 1);
      cur := g.regions[cur].parent;
      k := k + 1;
    }
    forall j: nat | Up(g, r, j) != INVALID ensures !IsSealed(spec, Up(g, r, j)) {
      if j > k {
        StaysOut(g, r, k, j - k);
      }
    }
    s := None;
  }

  /** There is only one nearest seal. */
  lemma NearestUnique(g: Graph, spec: Spec, r: nat, s: nat, t: nat)
    requires NearestSeal(g, spec, r, s) && NearestSeal(g, spec, r, t)
    ensures s == t && !Unsealed(g, spec, r)
  {
    var k: nat :| SealOf(spec, Up(g, r, k), 0) == s && Up(g, r, k) != INVALID && forall j :: 0 <= j < k ==> !IsSealed(spec, Up(g, r, j));
    var m: nat :| SealOf(spec, Up(g, r, m), 0) == t && forall j :: 0 <= j < m ==> !IsSealed(spec, Up(g, r, j));
    assert IsSealed(spec, Up(g, r, k)) && IsSealed(spec, Up(g, r, m));
  }

  lemma NoneNearest(g: Graph, spec: Spec, r: nat)
    requires Unsealed(g, spec, r)
    ensures forall s: nat :: !NearestSeal(g, spec, r, s)
  {
  }

  // ----- The two phases -----

  /** A sealed region's closure has only effects among its capabilities. */
  ghost predicate WithinCapabilities(g: Graph, s: Sealing)
    requires |g.nodes| <= INVALID
  {
    s.isSealed && s.region < |g.regions| ==> AllEffects(g, Covered(g, s.region)) <= s.capabilities
  }

  predicate Bridged(spec: Spec, a: nat, b: nat) {
    exists i :: 0 <= i < |spec.bridges| && (spec.bridges[i] == Bridge(a, b) || spec.bridges[i] == Bridge(b, a))
  }

  predicate BridgedUnlessSame(spec: Spec, a: nat, b: nat) { a == b || Bridged(spec, a, b) }

  function FromRegion(g: Graph, i: nat): nat
    requires i < |g.edges| && g.edges[i].from < |g.ports| && g.ports[g.edges[i].from].owner < |g.nodes|
  {
    g.nodes[g.ports[g.edges[i].from].owner].region
  }

  function ToRegion(g: Graph, i: nat): nat
    requires i < |g.edges| && g.edges[i].to < |g.ports| && g.ports[g.edges[i].to].owner < |g.nodes|
  {
    g.nodes[g.ports[g.edges[i].to].owner].region
  }

  /** An edge between regions with different nearest seals has a declared channel. */
  ghost predicate EdgeBridged(g: Graph, spec: Spec, i: nat)
    requires i < |g.edges| && ValidGraph(g)
  {
    assert EdgeValid(g, i) && PortIndexed(g, g.edges[i].from) && PortIndexed(g, g.edges[i].to);
    forall s: nat, t: nat :: NearestSeal(g, spec, FromRegion(g, i), s) && NearestSeal(g, spec, ToRegion(g, i), t) ==>
      BridgedUnlessSame(spec, spec.sealings[s].region, spec.sealings[t].region)
  }

  method HasChannel(spec: Spec, a: nat, b: nat) returns (found: bool)
    ensures found <==> Bridged(spec, a, b)
  {
    var i := 0;
    while i < |spec.bridges|
      invariant 0 <= i <= |spec.bridges|
      invariant forall k :: 0 <= k < i ==> spec.bridges[k] != Bridge(a, b) && spec.bridges[k] != Bridge(b, a)
    {
      var c := spec.bridges[i];
      if (c.from == a && c.to == b) || (c.from == b && c.to == a) {
        return true;
      }
      i := i + 1;
    }
    found := false;
  }

  lemma NoneUndeclared(effects: set<Effect>, capabilities: set<Effect>)
    ensures effects - capabilities == {} <==> effects <= capabilities
  {
    if effects - capabilities == {} {
      forall e | e in effects ensures e in capabilities {
        assert e !in effects - capabilities;
      }
    }
  }

  method VerifyEffects(g: Graph, spec: Spec) returns (valid: bool)
    requires |g.nodes| <= INVALID && ValidGraph(g)
    ensures valid <==> forall i :: 0 <= i < |spec.sealings| ==> WithinCapabilities(g, spec.sealings[i])
  {
    valid := true;
    var i := 0;
    while i < |spec.sealings|
      invariant 0 <= i <= |spec.sealings|
      invariant valid <==> forall k :: 0 <= k < i ==> WithinCapabilities(g, spec.sealings[k])
    {
      var s := spec.sealings[i];
      if s.isSealed && s.region < |g.regions| {
        var effects := RegionClosure(g, s.region);
        var undeclared := effects - s.capabilities;
        NoneUndeclared(effects, s.capabilities);
        if undeclared != {} { valid := false; }
      }
      i := i + 1;
    }
  }

  method VerifyEdge(g: Graph, spec: Spec, i: nat) returns (valid: bool)
    requires |g.regions| <= INVALID && ValidGraph(g) && i < |g.edges|
    ensures valid <==> EdgeBridged(g, spec, i)
  {
    assert EdgeValid(g, i) && PortIndexed(g, g.edges[i].from) && PortIndexed(g, g.edges[i].to);
    var a, b := FromRegion(g, i), ToRegion(g, i);
    assert NodeValid(g, g.ports[g.edges[i].from].owner) && NodeValid(g, g.ports[g.edges[i].to].owner);
    valid := true;
    if a == b {
      SameRegion(g, spec, i);
      return;
    }
    var s := FindSealedAncestor(g, spec, a);
    var t := FindSealedAncestor(g, spec, b);
    if s.Some? && t.Some? {
      NearestOnly(g, spec, i, s.value, t.value);
      if spec.sealings[s.value].region != spec.sealings[t.value].region {
        valid := HasChannel(spec, spec.sealings[s.value].region, spec.sealings[t.value].region);
      }
    } else {
      UnsealedEnd(g, spec, i);
    }
  }

  lemma SameRegion(g: Graph, spec: Spec, i: nat)
    requires i < |g.edges| && ValidGraph(g) && EdgeValid(g, i) && PortIndexed(g, g.edges[i].from) && PortIndexed(g, g.edges[i].to)
    requires FromRegion(g, i) == ToRegion(g, i)
    ensures EdgeBridged(g, spec, i)
  {
    forall s: nat, t: nat | NearestSeal(g, spec, FromRegion(g, i), s) && NearestSeal(g, spec, ToRegion(g, i), t) ensures s == t {
      NearestUnique(g, spec, FromRegion(g, i), s, t);
    }
  }

  lemma NearestOnly(g: Graph, spec: Spec, i: nat, s: nat, t: nat)
    requires i < |g.edges| && ValidGraph(g) && EdgeValid(g, i) && PortIndexed(g, g.edges[i].from) && PortIndexed(g, g.edges[i].to)
    requires NearestSeal(g, spec, FromRegion(g, i), s) && NearestSeal(g, spec, ToRegion(g, i), t)
    ensures EdgeBridged(g, spec, i) <==> BridgedUnlessSame(spec, spec.sealings[s].region, spec.sealings[t].region)
  {
    forall x: nat, y: nat | NearestSeal(g, spec, FromRegion(g, i), x) && NearestSeal(g, spec, ToRegion(g, i), y) ensures x == s && y == t {
      NearestUnique(g, spec, FromRegion(g, i), x, s);
      NearestUnique(g, spec, ToRegion(g, i), y, t);
    }
  }

  lemma UnsealedEnd(g: Graph, spec: Spec, i: nat)
    requires i < |g.edges| && ValidGraph(g) && EdgeValid(g, i) && PortIndexed(g, g.edges[i].from) && PortIndexed(g, g.edges[i].to)
    requires Unsealed(g, spec, FromRegion(g, i)) || Unsealed(g, spec, ToRegion(g, i))
    ensures EdgeBridged(g, spec, i)
  {
    var unsealed := if Unsealed(g, spec, FromRegion(g, i)) then FromRegion(g, i) else ToRegion(g, i);
    NoneNearest(g, spec, unsealed);
  }

  /** Valid exactly when every sealed closure stays within its capabilities and every crossing edge has a channel. */
  method Verify(g: Graph, spec: Spec) returns (valid: bool)
    requires |g.nodes| <= INVALID && |g.regions| <= INVALID && ValidGraph(g)
    ensures valid <==> (forall i :: 0 <= i < |spec.sealings| ==> WithinCapabilities(g, spec.sealings[i])) &&
                       (forall i :: 0 <= i < |g.edges| ==> EdgeBridged(g, spec, i))
  {
    var capable := VerifyEffects(g, spec);
    var bridged := VerifyBoundaries(g, spec);
    valid := capable && bridged;
  }

  method VerifyBoundaries(g: Graph, spec: Spec) returns (valid: bool)
    requires |g.regions| <= INVALID && ValidGraph(g)
    ensures valid <==> forall i :: 0 <= i < |g.edges| ==> EdgeBridged(g, spec, i)
  {
    valid := true;
    var i := 0;
    while i < |g.edges|
      invariant 0 <= i <= |g.edges|
      invariant valid <==> forall k :: 0 <= k < i ==> EdgeBridged(g, spec, k)
    {
      var ok := VerifyEdge(g, spec, i);
      if !ok { valid := false; }
      i := i + 1;
    }
  }
}
