/**
 The semantic graph: regions own nodes, nodes own ports, edges carry values from
 output ports to input ports. Operand order is the cyclic port order when a node
 has one, the port roles otherwise.
 */
module SemanticGraph {
  import opened Values

  /** The id that stands for "none". */
  const INVALID: nat := 0xFFFF_FFFF

  datatype Dir = Input | Output | Bidirectional

  datatype Port = Port(id: nat, owner: nat, dir: Dir, role: Option<string>)

  datatype Edge = Edge(id: nat, from: nat, to: nat)

  datatype Region = Region(id: nat, parent: nat, members: seq<nat>)

  /** The kinds neither the interpreter nor the compiler of this model gives a meaning. */
  datatype Construct =
    | FloatLiteral | StringLiteral | CastToInt | CastToFloat | CastToString | StringLength | StringSlice | StringIndex | Length
    | ArrayLiteral | MapLiteral | IndexGet | IndexSet | Throwing | ClosureExpr | OtherExpression | OtherStatement

  datatype Kind =
    | ConstInt(i: Int64) | ConstBool(b: bool) | ConstNull
    | BinaryNode(bop: BinOp) | UnaryNode(uop: UnOp) | And | Or
    | VarRef(name: string) | FuncCall(name: string)
    | Let(name: string) | Assign(name: string) | Print | ReturnNode | RootOutput
    | If(thenRegion: nat, elseRegion: nat) | While(body: nat) | Cycle(body: nat) | BreakIf
    | Param(name: string) | FuncDef(name: string, body: nat, arity: nat) | Sequence
    | IntrinsicCall(intrinsic: nat) | ThreadSpawn(name: string) | Try(tryRegion: nat, catchRegion: nat)
    | Construct(what: Construct)

  datatype Node = Node(id: nat, kind: Kind, region: nat, source: nat, ports: seq<nat>, cyclic: seq<nat>)

  datatype Graph = Graph(nodes: seq<Node>, ports: seq<Port>, edges: seq<Edge>, regions: seq<Region>,
                         root: nat, output: nat)

  /** Every stored index refers to something. */
  ghost predicate Indexed(g: Graph) {
    && |g.nodes| <= INVALID && |g.ports| <= INVALID && |g.regions| <= INVALID
    && g.root < |g.regions|
    && (g.output == INVALID || g.output < |g.nodes|)
    && (forall i :: 0 <= i < |g.ports| ==> PortIndexed(g, i))
    && (forall i :: 0 <= i < |g.edges| ==> EdgeIndexed(g, i))
    && (forall i :: 0 <= i < |g.nodes| ==> NodeIndexed(g, i))
    && (forall i :: 0 <= i < |g.regions| ==> RegionIndexed(g, i))
  }

  predicate PortIndexed(g: Graph, i: nat)
    requires i < |g.ports|
  {
    g.ports[i].id == i && g.ports[i].owner < |g.nodes|
  }

  ghost predicate EdgeIndexed(g: Graph, i: nat)
    requires i < |g.edges|
  {
    g.edges[i].from < |g.ports| && g.edges[i].to < |g.ports|
  }

  ghost predicate NodeIndexed(g: Graph, i: nat)
    requires i < |g.nodes|
  {
    var n := g.nodes[i];
    && PortsIndexed(g, n.ports)
    && PortsIndexed(g, n.cyclic)
    && (forall r :: r in Children(n.kind) ==> r == INVALID || r < |g.regions|)
    && (n.kind.FuncDef? ==> n.kind.body < |g.regions|)
    && (n.kind.Cycle? ==> n.kind.body < |g.regions|)
  }

  ghost predicate PortsIndexed(g: Graph, ports: seq<nat>) {
    forall k :: 0 <= k < |ports| ==> ports[k] < |g.ports|
  }

  ghost predicate RegionIndexed(g: Graph, r: nat)
    requires r < |g.regions|
  {
    forall k :: 0 <= k < |g.regions[r].members| ==> g.regions[r].members[k] < |g.nodes|
  }

  /** The regions a control node runs. */
  function Children(k: Kind): seq<nat> {
    match k
    case If(t, e) => [t, e]
    case While(b) => [b]
    case Cycle(b) => [b]
    case _ => []
  }

  function Members(g: Graph, r: nat): seq<nat> {
    if r < |g.regions| then g.regions[r].members else []
  }

  // ----- Lookups -----

  /** The node feeding an input port through the first edge into it. */
  function FindSource(g: Graph, port: nat): (n: nat)
    requires Indexed(g)
    ensures n == INVALID || n < |g.nodes|
  {
    SourceFrom(g, port, 0)
  }

  function SourceFrom(g: Graph, port: nat, i: nat): (n: nat)
    requires Indexed(g) && i <= |g.edges|
    ensures n == INVALID || n < |g.nodes|
    ensures (forall k :: i <= k < |g.edges| ==> g.edges[k].to != port) ==> n == INVALID
    decreases |g.edges| - i
  {
    if i == |g.edges| then INVALID
    else
      assert EdgeIndexed(g, i) && PortIndexed(g, g.edges[i].from);
      if g.edges[i].to == port then g.ports[g.edges[i].from].owner
    else SourceFrom(g, port, i + 1)
  }

  lemma NoSourceOfInvalid(g: Graph)
    requires Indexed(g)
    ensures FindSource(g, INVALID) == INVALID
  {
    forall k | 0 <= k < |g.edges| ensures g.edges[k].to != INVALID {
      assert EdgeIndexed(g, k);
    }
  }

  predicate HasRole(g: Graph, port: nat, role: string)
    requires port < |g.ports|
  {
    g.ports[port].dir == Input && g.ports[port].role == Some(role)
  }

  /** The first input port of a node with a role. */
  function FindPort(g: Graph, n: nat, role: string): (p: nat)
    requires Indexed(g) && n < |g.nodes|
    ensures p == INVALID || p in g.nodes[n].ports
  {
    assert NodeIndexed(g, n);
    PortFrom(g, g.nodes[n].ports, role, 0)
  }

  function PortFrom(g: Graph, ports: seq<nat>, role: string, i: nat): (p: nat)
    requires Indexed(g) && i <= |ports|
    requires PortsIndexed(g, ports)
    ensures p == INVALID || p in ports
    decreases |ports| - i
  {
    if i == |ports| then INVALID
    else
      assert PortIndexed(g, ports[i]);
      if HasRole(g, ports[i], role) then g.ports[ports[i]].id
    else PortFrom(g, ports, role, i + 1)
  }

  /** The input ports of a port list, in order. */
  function InputPorts(g: Graph, ports: seq<nat>): (r: seq<nat>)
    requires PortsIndexed(g, ports)
    ensures forall k :: 0 <= k < |r| ==> r[k] in ports
    ensures |r| <= |ports|
  {
    if ports == [] then []
    else
      var rest := InputPorts(g, ports[1..]);
      if g.ports[ports[0]].dir == Input then [ports[0]] + rest else rest
  }

  /** The source of the input with a role, or of the "in" input when there is none. */
  function InputSource(g: Graph, n: nat, role: string): (s: nat)
    requires Indexed(g) && n < |g.nodes|
    ensures s == INVALID || s < |g.nodes|
  {
    var p := FindPort(g, n, role);
    FindSource(g, if p == INVALID then FindPort(g, n, "in") else p)
  }

  /** The source of the input with exactly this role. */
  function RoleSource(g: Graph, n: nat, role: string): (s: nat)
    requires Indexed(g) && n < |g.nodes|
    ensures s == INVALID || s < |g.nodes|
  {
    FindSource(g, FindPort(g, n, role))
  }

  /** The k-th input in cyclic order. */
  function CyclicPort(g: Graph, n: nat, k: nat): (p: nat)
    requires Indexed(g) && n < |g.nodes|
    ensures p == INVALID || p in g.nodes[n].cyclic
  {
    assert NodeIndexed(g, n);
    var ins := InputPorts(g, g.nodes[n].cyclic);
    if k < |ins| then ins[k] else INVALID
  }

  /** The argument ports of a call: the cyclic order if there is one, else the port list. */
  function ArgPorts(g: Graph, n: nat): (r: seq<nat>)
    requires Indexed(g) && n < |g.nodes|
    ensures forall k :: 0 <= k < |r| ==> r[k] in g.nodes[n].ports || r[k] in g.nodes[n].cyclic
  {
    assert NodeIndexed(g, n);
    InputPorts(g, if |g.nodes[n].cyclic| > 0 then g.nodes[n].cyclic else g.nodes[n].ports)
  }

  predicate DefinesFunc(g: Graph, n: nat, name: string)
    requires n < |g.nodes|
  {
    g.nodes[n].kind.FuncDef? && g.nodes[n].kind.name == name
  }

  /** The first definition of a function. */
  function FindFunc(g: Graph, name: string): (n: nat)
    requires |g.nodes| <= INVALID
    ensures n == INVALID || (n < |g.nodes| && DefinesFunc(g, n, name))
  {
    FuncFrom(g, name, 0)
  }

  function FuncFrom(g: Graph, name: string, i: nat): (n: nat)
    requires i <= |g.nodes| <= INVALID
    ensures n == INVALID || (i <= n < |g.nodes| && DefinesFunc(g, n, name))
    ensures forall k :: i <= k < |g.nodes| && (n == INVALID || k < n) ==> !DefinesFunc(g, k, name)
    decreases |g.nodes| - i
  {
    if i == |g.nodes| then INVALID
    else if DefinesFunc(g, i, name) then i
    else FuncFrom(g, name, i + 1)
  }

  // ----- Programs -----

  /**
   A graph with a rank certificate: value edges and control regions lead to nodes of
   lower rank. Nothing in the graph format forbids cyclic ones; on those both the
   interpreter and the compiler recurse without end. `extended` gives AND, OR and
   the bitwise operators a meaning in the interpreter, which rejects them otherwise.
   */
  datatype Program = Program(g: Graph, rank: seq<nat>, top: nat, extended: bool)

  ghost predicate WellFormed(p: Program) {
    && Indexed(p.g)
    && |p.rank| == |p.g.nodes|
    && (forall n :: 0 <= n < |p.g.nodes| ==> p.rank[n] < p.top)
    && (forall n :: 0 <= n < |p.g.nodes| ==> Ranked(p, n))
  }

  ghost predicate Ranked(p: Program, n: nat)
    requires Indexed(p.g) && |p.rank| == |p.g.nodes| && n < |p.g.nodes|
  {
    && (forall k :: 0 <= k < |p.g.nodes[n].ports| ==> SourceBelow(p, n, p.g.nodes[n].ports[k]))
    && (forall k :: 0 <= k < |p.g.nodes[n].cyclic| ==> SourceBelow(p, n, p.g.nodes[n].cyclic[k]))
    && (forall r :: r in Children(p.g.nodes[n].kind) ==> RegionBelow(p, r, p.rank[n]))
  }

  ghost predicate SourceBelow(p: Program, n: nat, port: nat)
    requires Indexed(p.g) && |p.rank| == |p.g.nodes| && n < |p.g.nodes|
  {
    var s := FindSource(p.g, port);
    s == INVALID || p.rank[s] < p.rank[n]
  }

  ghost predicate RegionBelow(p: Program, r: nat, bound: nat)
    requires Indexed(p.g) && |p.rank| == |p.g.nodes|
  {
    forall k :: 0 <= k < |Members(p.g, r)| ==> MemberBelow(p, Members(p.g, r)[k], bound)
  }

  predicate MemberBelow(p: Program, m: nat, bound: nat)
    requires |p.rank| == |p.g.nodes|
  {
    m < |p.g.nodes| && p.rank[m] < bound
  }

  lemma PortBelow(p: Program, n: nat, role: string)
    requires WellFormed(p) && n < |p.g.nodes|
    ensures SourceBelow(p, n, FindPort(p.g, n, role))
  {
    assert Ranked(p, n);
    NoSourceOfInvalid(p.g);
    var port := FindPort(p.g, n, role);
    if port != INVALID {
      var k :| 0 <= k < |p.g.nodes[n].ports| && p.g.nodes[n].ports[k] == port;
      assert SourceBelow(p, n, p.g.nodes[n].ports[k]);
    }
  }

  lemma CyclicBelow(p: Program, n: nat, k: nat)
    requires WellFormed(p) && n < |p.g.nodes|
    ensures SourceBelow(p, n, CyclicPort(p.g, n, k))
  {
    assert Ranked(p, n);
    NoSourceOfInvalid(p.g);
    var port := CyclicPort(p.g, n, k);
    if port != INVALID {
      var j :| 0 <= j < |p.g.nodes[n].cyclic| && p.g.nodes[n].cyclic[j] == port;
      assert SourceBelow(p, n, p.g.nodes[n].cyclic[j]);
    }
  }

  lemma ArgsBelow(p: Program, n: nat)
    requires WellFormed(p) && n < |p.g.nodes|
    ensures forall k :: 0 <= k < |ArgPorts(p.g, n)| ==> SourceBelow(p, n, ArgPorts(p.g, n)[k])
  {
    assert Ranked(p, n);
    forall k | 0 <= k < |ArgPorts(p.g, n)|
      ensures SourceBelow(p, n, ArgPorts(p.g, n)[k])
    {
      var port := ArgPorts(p.g, n)[k];
      if port in p.g.nodes[n].ports {
        var j :| 0 <= j < |p.g.nodes[n].ports| && p.g.nodes[n].ports[j] == port;
        assert SourceBelow(p, n, p.g.nodes[n].ports[j]);
      } else {
        var j :| 0 <= j < |p.g.nodes[n].cyclic| && p.g.nodes[n].cyclic[j] == port;
        assert SourceBelow(p, n, p.g.nodes[n].cyclic[j]);
      }
    }
  }

  /** A source found through a role ranks below the node. */
  lemma RoleBelow(p: Program, n: nat, role: string)
    requires WellFormed(p) && n < |p.g.nodes|
    ensures RoleSource(p.g, n, role) == INVALID || p.rank[RoleSource(p.g, n, role)] < p.rank[n]
    ensures InputSource(p.g, n, role) == INVALID || p.rank[InputSource(p.g, n, role)] < p.rank[n]
  {
    PortBelow(p, n, role);
    PortBelow(p, n, "in");
  }

  lemma WholeRegionBelow(p: Program, r: nat)
    requires WellFormed(p)
    ensures RegionBelow(p, r, p.top)
  {
    if r < |p.g.regions| {
      assert RegionIndexed(p.g, r);
    }
  }
}
