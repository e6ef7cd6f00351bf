/**
 The programs on which the interpreter and the compiler agree, as conditions one can
 check on the graph, and what those conditions mean for interpreter runs.
 */
module Support {
  import opened Values
  import opened SemanticGraph
  import opened Interpreter
  import opened CodeGen

  /** Members that neither side executes. */
  predicate Inert(k: Kind) { k.Param? || IsExprNode(k) || k.Sequence? }

  // ----- Returns -----

  /** Some path through the statement returns. */
  predicate MayReturn(p: Program, n: nat)
    requires WellFormed(p) && n < |p.g.nodes|
    decreases p.rank[n], 2, 0
  {
    ChildrenBelow(p, n);
    match p.g.nodes[n].kind
    case ReturnNode => true
    case If(t, e) => MayReturnIn(p, t, p.rank[n]) || MayReturnIn(p, e, p.rank[n])
    case While(b) => MayReturnIn(p, b, p.rank[n])
    case Cycle(b) => MayReturnIn(p, b, p.rank[n])
    case _ => false
  }

  predicate MayReturnIn(p: Program, r: nat, bound: nat)
    requires WellFormed(p) && RegionBelow(p, r, bound)
    decreases bound, 1, 0
  {
    exists k :: 0 <= k < |Members(p.g, r)| && MemberBelow(p, Members(p.g, r)[k], bound) &&
                MayReturn(p, Members(p.g, r)[k])
  }

  /** Every path through the statement returns. */
  predicate MustReturn(p: Program, n: nat)
    requires WellFormed(p) && n < |p.g.nodes|
    decreases p.rank[n], 2, 0
  {
    ChildrenBelow(p, n);
    match p.g.nodes[n].kind
    case ReturnNode => true
    case If(t, e) => MustReturnIn(p, t, p.rank[n]) && MustReturnIn(p, e, p.rank[n])
    case _ => false
  }

  predicate MustReturnIn(p: Program, r: nat, bound: nat)
    requires WellFormed(p) && RegionBelow(p, r, bound)
    decreases bound, 1, 0
  {
    r != INVALID &&
    exists k :: 0 <= k < |Members(p.g, r)| && MemberBelow(p, Members(p.g, r)[k], bound) &&
                MustReturn(p, Members(p.g, r)[k])
  }

  // ----- Bindings -----

  /** The locals after a statement, in slot order, given those before it. */
  function Bind(p: Program, locals: seq<string>, n: nat): (r: seq<string>)
    requires WellFormed(p) && n < |p.g.nodes|
    decreases p.rank[n], 2, 0
  {
    ChildrenBelow(p, n);
    match p.g.nodes[n].kind
    case Let(name) => locals + [name]
    case If(t, e) => BindRegion(p, BindRegion(p, locals, t, p.rank[n]), e, p.rank[n])
    case While(b) => BindRegion(p, locals, b, p.rank[n])
    case Cycle(b) => BindRegion(p, locals, b, p.rank[n])
    case _ => locals
  }

  function BindRegion(p: Program, locals: seq<string>, r: nat, bound: nat): (b: seq<string>)
    requires WellFormed(p) && RegionBelow(p, r, bound)
    decreases bound, 1, |Members(p.g, r)| + 1
  {
    BindAll(p, locals, Members(p.g, r), bound)
  }

  function BindAll(p: Program, locals: seq<string>, ms: seq<nat>, bound: nat): (r: seq<string>)
    requires WellFormed(p)
    requires forall k :: 0 <= k < |ms| ==> MemberBelow(p, ms[k], bound)
    decreases bound, 1, |ms|
  {
    if ms == [] then locals
    else
      assert MemberBelow(p, ms[0], bound);
      BindAll(p, Bind(p, locals, ms[0]), ms[1..], bound)
  }

  predicate Distinct(names: seq<string>) {
    forall i, j :: 0 <= i < j < |names| ==> names[i] != names[j]
  }

  // ----- Supported programs -----

  predicate Connected(g: Graph, n: nat, role: string)
    requires Indexed(g) && n < |g.nodes|
  {
    RoleSource(g, n, role) != INVALID
  }

  /** Whatever feeds the port is an expression. */
  predicate FedByValue(g: Graph, port: nat)
    requires Indexed(g)
  {
    var s := FindSource(g, port);
    s == INVALID || IsExprNode(g.nodes[s].kind)
  }

  predicate PortsFed(g: Graph, n: Node)
    requires Indexed(g)
  {
    && (forall k :: 0 <= k < |n.ports| ==> FedByValue(g, n.ports[k]))
    && (forall k :: 0 <= k < |n.cyclic| ==> FedByValue(g, n.cyclic[k]))
  }

  predicate ValuesFed(g: Graph)
    requires Indexed(g)
  {
    forall n :: 0 <= n < |g.nodes| ==> PortsFed(g, g.nodes[n])
  }

  predicate NodeSupported(p: Program, n: nat)
    requires WellFormed(p) && n < |p.g.nodes|
  {
    match p.g.nodes[n].kind
    case BinaryNode(op) => FoldSupported(p.g, n, op)
    case FuncCall(name) => CallSupported(p.g, n, name)
    case Let(_) => InputSource(p.g, n, "value") != INVALID
    case Assign(_) => InputSource(p.g, n, "value") != INVALID
    case Print => InputSource(p.g, n, "value") != INVALID
    case RootOutput => InputSource(p.g, n, "value") != INVALID
    case ReturnNode => FindPort(p.g, n, "value") == INVALID <==> InputSource(p.g, n, "value") == INVALID
    case If(t, e) => Connected(p.g, n, "cond") && NoOutputIn(p.g, t) && NoOutputIn(p.g, e)
    case While(b) => Connected(p.g, n, "cond") && NoOutputIn(p.g, b)
    case BreakIf => Connected(p.g, n, "cond")
    case Cycle(b) => CycleSupported(p, n) && NoOutputIn(p.g, b)
    case FuncDef(_, _, _) => FuncSupported(p, n)
    case _ => true
  }

  /** Two integer literals are folded with the value the machine would compute. */
  predicate FoldSupported(g: Graph, n: nat, op: BinOp)
    requires Indexed(g) && n < |g.nodes|
  {
    var l, r := CompilerOperand(g, n, 0), CompilerOperand(g, n, 1);
    l != INVALID && r != INVALID && g.nodes[l].kind.ConstInt? && g.nodes[r].kind.ConstInt? ==>
      FoldSafe(op, g.nodes[l].kind.i, g.nodes[r].kind.i)
  }

  /** Every argument is connected and there are as many as the definition takes, at most sixteen. */
  predicate CallSupported(g: Graph, n: nat, name: string)
    requires Indexed(g) && n < |g.nodes|
  {
    var ports := ArgPorts(g, n);
    && |ports| <= 16
    && (forall k :: 0 <= k < |ports| ==> FindSource(g, ports[k]) != INVALID)
    && (var f := FindFunc(g, name); f != INVALID ==> |ports| == g.nodes[f].kind.arity)
  }

  predicate NoOutputIn(g: Graph, r: nat)
    requires Indexed(g)
  {
    forall k :: 0 <= k < |Members(g, r)| ==>
      Members(g, r)[k] < |g.nodes| && !g.nodes[Members(g, r)[k]].kind.RootOutput?
  }

  /**
   At most one break test, before every statement; and nothing to execute after a
   statement that may return, since the interpreter goes on to the end of the turn.
   */
  predicate CycleSupported(p: Program, n: nat)
    requires WellFormed(p) && n < |p.g.nodes| && p.g.nodes[n].kind.Cycle?
  {
    CycleMembersBelow(p, n);
    var ms := Members(p.g, p.g.nodes[n].kind.body);
    forall i, j :: 0 <= i < j < |ms| ==> OrderedInCycle(p, ms[i], ms[j], p.rank[n])
  }

  predicate OrderedInCycle(p: Program, m: nat, later: nat, bound: nat)
    requires WellFormed(p)
  {
    MemberBelow(p, m, bound) && MemberBelow(p, later, bound) ==>
      && (p.g.nodes[later].kind.BreakIf? ==> Inert(p.g.nodes[m].kind))
      && (MayReturn(p, m) ==> Inert(p.g.nodes[later].kind))
  }

  /** The arity is the number of parameters, names are bound once, and every path returns. */
  predicate FuncSupported(p: Program, n: nat)
    requires WellFormed(p) && n < |p.g.nodes| && p.g.nodes[n].kind.FuncDef?
  {
    var body := p.g.nodes[n].kind.body;
    WholeRegionBelow(p, body);
    && p.g.nodes[n].kind.arity == |FuncParams(p, n)|
    && Distinct(BindRegion(p, FuncParams(p, n), body, p.top))
    && MustReturnIn(p, body, p.top)
    && NoOutputIn(p.g, body)
  }

  predicate RootSupported(p: Program)
    requires WellFormed(p)
  {
    WholeRegionBelow(p, p.g.root);
    && Distinct(BindRegion(p, [], p.g.root, p.top))
    && !MayReturnIn(p, p.g.root, p.top)
    && (p.g.output != INVALID ==> p.g.nodes[p.g.output].kind.RootOutput?)
  }

  predicate NodesSupported(p: Program)
    requires WellFormed(p)
  {
    forall n :: 0 <= n < |p.g.nodes| ==> NodeSupported(p, n)
  }

  predicate Supported(p: Program)
    requires WellFormed(p)
  {
    && ValuesFed(p.g)
    && NodesSupported(p)
    && Distinct(Names(p.g, FuncIds(p.g, 0)))
    && RootSupported(p)
  }
}
