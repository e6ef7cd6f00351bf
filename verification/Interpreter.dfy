/**
 The reference interpreter: direct evaluation of the semantic graph.

 A frame sees only its own variables, and a call's variables are dropped when it
 returns, so the state carries the current frame's variables and the context
 counts the variables of the frames below. Errors and returns are sticky flags,
 as in the source; the frame, variable and iteration limits make every
 evaluation terminate.
 */
module Interpreter {
  import opened Values
  import opened SemanticGraph

  const FRAMES_MAX: nat := 64
  const VARS_MAX: nat := 256
  const LOOP_LIMIT: nat := 100000

  type Vars = seq<(string, Value)>

  /** `fp` calls are active and hold `outer` variables below the current frame. */
  datatype Ctx = Ctx(fp: nat, outer: nat)

  datatype Io = Io(result: Value, err: bool, returned: bool, out: seq<Value>)

  datatype State = State(vars: Vars, io: Io)

  datatype Res = Res(v: Value, io: Io)

  datatype ArgsRes = ArgsRes(vs: seq<Value>, io: Io)

  datatype BodyRes = BodyRes(st: State, broke: bool)

  /** Index of the most recent binding of a name, -1 if there is none. */
  function FindVar(vars: Vars, name: string): (i: int)
    ensures -1 <= i < |vars|
    ensures i >= 0 ==> vars[i].0 == name
    ensures i == -1 ==> forall k :: 0 <= k < |vars| ==> vars[k].0 != name
  {
    if vars == [] then -1
    else if vars[|vars| - 1].0 == name then |vars| - 1
    else FindVar(vars[..|vars| - 1], name)
  }

  function SetVar(outer: nat, st: State, name: string, v: Value): State {
    var i := FindVar(st.vars, name);
    if i >= 0 then st.(vars := st.vars[i := (name, v)])
    else if outer + |st.vars| >= VARS_MAX then Fail(st)
    else st.(vars := st.vars + [(name, v)])
  }

  function Fail(st: State): State { st.(io := st.io.(err := true)) }

  /** Nodes the statement loops skip: values are computed where they are used. */
  predicate IsInterpExpr(k: Kind) {
    match k
    case ConstInt(_) => true
    case ConstBool(_) => true
    case ConstNull => true
    case BinaryNode(op) => op.Arithmetic() || op.Comparison()
    case UnaryNode(op) => op.Neg? || op.Not?
    case VarRef(_) => true
    case FuncCall(_) => true
    case Construct(c) => c.FloatLiteral?
    case _ => false
  }

  /** The operand of a binary node: cyclic order when two or more ports are ordered, else by role. */
  function InterpOperand(g: Graph, n: nat, k: nat): (s: nat)
    requires Indexed(g) && n < |g.nodes| && k < 2
    ensures s == INVALID || s < |g.nodes|
  {
    if |g.nodes[n].cyclic| >= 2 then FindSource(g, CyclicPort(g, n, k))
    else InputSource(g, n, if k == 0 then "lhs" else "rhs")
  }

  lemma OperandBelow(p: Program, n: nat, k: nat)
    requires WellFormed(p) && n < |p.g.nodes| && k < 2
    ensures InterpOperand(p.g, n, k) == INVALID || p.rank[InterpOperand(p.g, n, k)] < p.rank[n]
  {
    CyclicBelow(p, n, k);
    RoleBelow(p, n, if k == 0 then "lhs" else "rhs");
  }

  // ----- Expressions -----

  function EvalNode(p: Program, c: Ctx, vars: Vars, io: Io, n: nat): (r: Res)
    requires WellFormed(p) && n < |p.g.nodes| && c.fp <= FRAMES_MAX
    ensures io.err || io.returned ==> r.io == io
    ensures r.io.returned == io.returned
    decreases FRAMES_MAX - c.fp, p.rank[n], 2, 0
  {
    if io.err || io.returned then Res(Null, io)
    else
      match p.g.nodes[n].kind
      case ConstInt(i) => Res(I64(i), io)
      case ConstBool(b) => Res(Bool(b), io)
      case ConstNull => Res(Null, io)
      case VarRef(name) =>
        var i := FindVar(vars, name);
        if i >= 0 then Res(vars[i].1, io) else Res(Null, io.(err := true))
      case BinaryNode(op) =>
        OperandBelow(p, n, 0);
        OperandBelow(p, n, 1);
        var l := EvalSource(p, c, vars, io, n, InterpOperand(p.g, n, 0));
        var r := EvalSource(p, c, vars, l.io, n, InterpOperand(p.g, n, 1));
        Result(InterpBinary(p.extended, op, l.v, r.v), r.io)
      case UnaryNode(op) =>
        RoleBelow(p, n, "value");
        var v := EvalSource(p, c, vars, io, n, InputSource(p.g, n, "value"));
        Result(InterpUnary(p.extended, op, v.v), v.io)
      case And => if p.extended then EvalShortCircuit(p, c, vars, io, n, false) else Res(Null, io.(err := true))
      case Or => if p.extended then EvalShortCircuit(p, c, vars, io, n, true) else Res(Null, io.(err := true))
      case FuncCall(name) => EvalCall(p, c, vars, io, n, name)
      case RootOutput =>
        RoleBelow(p, n, "value");
        EvalSource(p, c, vars, io, n, InputSource(p.g, n, "value"))
      case _ => Res(Null, io.(err := true))
  }

  /** An unconnected input is null. */
  function EvalSource(p: Program, c: Ctx, vars: Vars, io: Io, n: nat, s: nat): (r: Res)
    requires WellFormed(p) && n < |p.g.nodes| && c.fp <= FRAMES_MAX
    requires s == INVALID || (s < |p.g.nodes| && p.rank[s] < p.rank[n])
    ensures io.err || io.returned ==> r.io == io
    ensures r.io.returned == io.returned
    decreases FRAMES_MAX - c.fp, p.rank[n], 0, 0
  {
    if s == INVALID then Res(Null, io) else EvalNode(p, c, vars, io, s)
  }

  function Result(v: Option<Value>, io: Io): (r: Res)
    ensures io.err ==> r.io == io
    ensures r.io.returned == io.returned
  {
    if v.Some? then Res(v.value, io) else Res(Null, io.(err := true))
  }

  /** The value of the operand that decides. */
  function EvalShortCircuit(p: Program, c: Ctx, vars: Vars, io: Io, n: nat, isOr: bool): (r: Res)
    requires WellFormed(p) && n < |p.g.nodes| && c.fp <= FRAMES_MAX
    ensures io.err || io.returned ==> r.io == io
    ensures r.io.returned == io.returned
    decreases FRAMES_MAX - c.fp, p.rank[n], 1, 0
  {
    RoleBelow(p, n, "lhs");
    RoleBelow(p, n, "rhs");
    var l := EvalSource(p, c, vars, io, n, RoleSource(p.g, n, "lhs"));
    if Truthy(l.v) == isOr then l
    else EvalSource(p, c, vars, l.io, n, RoleSource(p.g, n, "rhs"))
  }

  function EvalCall(p: Program, c: Ctx, vars: Vars, io: Io, n: nat, name: string): (r: Res)
    requires WellFormed(p) && n < |p.g.nodes| && c.fp <= FRAMES_MAX
    requires !io.err && !io.returned
    ensures r.io.returned == io.returned
    decreases FRAMES_MAX - c.fp, p.rank[n], 1, 0
  {
    var f := FindFunc(p.g, name);
    if f == INVALID then Res(Null, io.(err := true))
    else
      ArgsBelow(p, n);
      var ports := ArgPorts(p.g, n);
      var args := EvalArgs(p, c, vars, io, n, if |ports| > 16 then ports[..16] else ports);
      if c.fp >= FRAMES_MAX then Res(Null, args.io.(err := true))
      else
        var s := EvalBody(p, Ctx(c.fp + 1, c.outer + |vars|), args.io, f, args.vs);
        Res(s.io.result, s.io.(returned := false))
  }

  function EvalArgs(p: Program, c: Ctx, vars: Vars, io: Io, n: nat, ports: seq<nat>): (r: ArgsRes)
    requires WellFormed(p) && n < |p.g.nodes| && c.fp <= FRAMES_MAX
    requires forall k :: 0 <= k < |ports| ==> SourceBelow(p, n, ports[k])
    ensures io.err || io.returned ==> r.io == io
    ensures r.io.returned == io.returned
    ensures |r.vs| == |ports|
    decreases FRAMES_MAX - c.fp, p.rank[n], 0, |ports|
  {
    if ports == [] then ArgsRes([], io)
    else
      assert SourceBelow(p, n, ports[0]);
      var s := FindSource(p.g, ports[0]);
      var v := if s == INVALID then Res(Null, io) else EvalNode(p, c, vars, io, s);
      var rest := EvalArgs(p, c, vars, v.io, n, ports[1..]);
      ArgsRes([v.v] + rest.vs, rest.io)
  }

  /** Binds the parameters in a new frame and runs the body. */
  function EvalBody(p: Program, c: Ctx, io: Io, f: nat, args: seq<Value>): (r: State)
    requires WellFormed(p) && f < |p.g.nodes| && p.g.nodes[f].kind.FuncDef? && c.fp <= FRAMES_MAX
    ensures io.err ==> r.io.err
    decreases FRAMES_MAX - c.fp, p.top, 2, 0
  {
    var body := p.g.nodes[f].kind.body;
    WholeRegionBelow(p, body);
    var s := BindParams(p.g, c.outer, State([], io), Members(p.g, body), args);
    ExecRegion(p, c, s.(io := s.io.(returned := false)), body, p.top)
  }

  function BindParams(g: Graph, outer: nat, st: State, ms: seq<nat>, args: seq<Value>): (r: State)
    requires forall k :: 0 <= k < |ms| ==> ms[k] < |g.nodes|
    ensures st.io.err ==> r.io.err
    ensures r.io.(err := st.io.err) == st.io
    decreases ms
  {
    if ms == [] || args == [] then st
    else if g.nodes[ms[0]].kind.Param? then
      BindParams(g, outer, SetVar(outer, st, g.nodes[ms[0]].kind.name, args[0]), ms[1..], args[1..])
    else BindParams(g, outer, st, ms[1..], args)
  }

  // ----- Statements -----

  function ExecRegion(p: Program, c: Ctx, st: State, region: nat, bound: nat): (r: State)
    requires WellFormed(p) && c.fp <= FRAMES_MAX && RegionBelow(p, region, bound)
    ensures st.io.err ==> r == st
    decreases FRAMES_MAX - c.fp, bound, 1, |Members(p.g, region)| + 1
  {
    if region == INVALID || st.io.err then st
    else ExecMembers(p, c, st, Members(p.g, region), bound)
  }

  function ExecMembers(p: Program, c: Ctx, st: State, ms: seq<nat>, bound: nat): (r: State)
    requires WellFormed(p) && c.fp <= FRAMES_MAX
    requires forall k :: 0 <= k < |ms| ==> MemberBelow(p, ms[k], bound)
    ensures st.io.err || st.io.returned ==> r == st
    decreases FRAMES_MAX - c.fp, bound, 1, |ms|
  {
    if ms == [] || st.io.err || st.io.returned then st
    else
      assert MemberBelow(p, ms[0], bound);
      var k := p.g.nodes[ms[0]].kind;
      var next := if k.Param? || IsInterpExpr(k) then st else ExecStmt(p, c, st, ms[0]);
      ExecMembers(p, c, next, ms[1..], bound)
  }

  function ExecStmt(p: Program, c: Ctx, st: State, n: nat): (r: State)
    requires WellFormed(p) && n < |p.g.nodes| && c.fp <= FRAMES_MAX
    ensures st.io.err ==> r.io.err
    decreases FRAMES_MAX - c.fp, p.rank[n], 3, 0
  {
    RoleBelow(p, n, "value");
    RoleBelow(p, n, "cond");
    match p.g.nodes[n].kind
    case Let(name) =>
      var v := EvalSource(p, c, st.vars, st.io, n, InputSource(p.g, n, "value"));
      SetVar(c.outer, State(st.vars, v.io), name, v.v)
    case Assign(name) =>
      var i := FindVar(st.vars, name);
      if i < 0 then Fail(st)
      else
        var v := EvalSource(p, c, st.vars, st.io, n, InputSource(p.g, n, "value"));
        State(st.vars[i := (st.vars[i].0, v.v)], v.io)
    case Print =>
      var v := EvalSource(p, c, st.vars, st.io, n, InputSource(p.g, n, "value"));
      State(st.vars, v.io.(out := v.io.out + [v.v]))
    case ReturnNode =>
      var v := EvalSource(p, c, st.vars, st.io, n, InputSource(p.g, n, "value"));
      State(st.vars, v.io.(result := v.v, returned := true))
    case If(t, e) =>
      var v := EvalSource(p, c, st.vars, st.io, n, InputSource(p.g, n, "cond"));
      assert Ranked(p, n);
      ExecRegion(p, c, State(st.vars, v.io), if Truthy(v.v) then t else e, p.rank[n])
    case While(_) => ExecWhile(p, c, st, n, LOOP_LIMIT)
    case Cycle(_) => ExecCycle(p, c, st, n, LOOP_LIMIT)
    case RootOutput =>
      var v := EvalSource(p, c, st.vars, st.io, n, InputSource(p.g, n, "value"));
      State(st.vars, v.io.(result := v.v))
    case _ => st
  }

  /** Leaving a loop with no iterations left is an error, even on the last test. */
  function LeaveLoop(st: State, left: int): State {
    if left <= 0 then Fail(st) else st
  }

  function ExecWhile(p: Program, c: Ctx, st: State, n: nat, left: nat): (r: State)
    requires WellFormed(p) && n < |p.g.nodes| && c.fp <= FRAMES_MAX && p.g.nodes[n].kind.While?
    ensures st.io.err ==> r.io.err
    decreases FRAMES_MAX - c.fp, p.rank[n], 2, left
  {
    if left == 0 then Fail(st)
    else if st.io.err || st.io.returned then LeaveLoop(st, left - 1)
    else
      RoleBelow(p, n, "cond");
      assert Ranked(p, n);
      var v := EvalSource(p, c, st.vars, st.io, n, InputSource(p.g, n, "cond"));
      if !Truthy(v.v) then LeaveLoop(State(st.vars, v.io), left - 1)
      else
        var s := ExecRegion(p, c, State(st.vars, v.io), p.g.nodes[n].kind.body, p.rank[n]);
        ExecWhile(p, c, s, n, left - 1)
  }

  function ExecCycle(p: Program, c: Ctx, st: State, n: nat, left: nat): (r: State)
    requires WellFormed(p) && n < |p.g.nodes| && c.fp <= FRAMES_MAX && p.g.nodes[n].kind.Cycle?
    ensures st.io.err ==> r.io.err
    decreases FRAMES_MAX - c.fp, p.rank[n], 2, left
  {
    if left == 0 then Fail(st)
    else if st.io.err || st.io.returned then LeaveLoop(st, left - 1)
    else
      var body := p.g.nodes[n].kind.body;
      if body == INVALID then LeaveLoop(st, left - 1)
      else
        assert Ranked(p, n) && RegionBelow(p, body, p.rank[n]);
        var b := ExecCycleBody(p, c, st, Members(p.g, body), p.rank[n]);
        if b.broke then LeaveLoop(b.st, left - 1) else ExecCycle(p, c, b.st, n, left - 1)
  }

  /** One turn of a cycle. Unlike the region loop it does not stop at a return. */
  function ExecCycleBody(p: Program, c: Ctx, st: State, ms: seq<nat>, bound: nat): (r: BodyRes)
    requires WellFormed(p) && c.fp <= FRAMES_MAX
    requires forall k :: 0 <= k < |ms| ==> MemberBelow(p, ms[k], bound)
    ensures st.io.err ==> r.st.io.err
    decreases FRAMES_MAX - c.fp, bound, 1, |ms|
  {
    if ms == [] then BodyRes(st, false)
    else
      assert MemberBelow(p, ms[0], bound);
      var k := p.g.nodes[ms[0]].kind;
      if k.BreakIf? then
        RoleBelow(p, ms[0], "cond");
        var v := EvalSource(p, c, st.vars, st.io, ms[0], InputSource(p.g, ms[0], "cond"));
        if Truthy(v.v) then BodyRes(State(st.vars, v.io), true)
        else ExecCycleBody(p, c, State(st.vars, v.io), ms[1..], bound)
      else
        var next := if k.Param? || IsInterpExpr(k) then st else ExecStmt(p, c, st, ms[0]);
        ExecCycleBody(p, c, next, ms[1..], bound)
  }

  // ----- Programs -----

  function ExecRoot(p: Program, st: State, ms: seq<nat>): (r: State)
    requires WellFormed(p)
    requires forall k :: 0 <= k < |ms| ==> MemberBelow(p, ms[k], p.top)
    ensures st.io.err ==> r == st
    decreases ms
  {
    if ms == [] || st.io.err then st
    else
      assert MemberBelow(p, ms[0], p.top);
      var k := p.g.nodes[ms[0]].kind;
      var next := if k.FuncDef? || k.RootOutput? || IsInterpExpr(k) then st
                  else if k.Assign? then AssignRoot(p, st, ms[0])
                  else ExecStmt(p, Ctx(0, 0), st, ms[0]);
      ExecRoot(p, next, ms[1..])
  }

  /** At the top level an assignment evaluates its value before it looks for the variable. */
  function AssignRoot(p: Program, st: State, n: nat): (r: State)
    requires WellFormed(p) && n < |p.g.nodes| && p.g.nodes[n].kind.Assign?
  {
    RoleBelow(p, n, "value");
    var v := EvalSource(p, Ctx(0, 0), st.vars, st.io, n, InputSource(p.g, n, "value"));
    var i := FindVar(st.vars, p.g.nodes[n].kind.name);
    if i < 0 then Fail(State(st.vars, v.io)) else State(st.vars[i := (st.vars[i].0, v.v)], v.io)
  }

  datatype Outcome = Outcome(success: bool, result: Value, out: seq<Value>)

  const START: State := State([], Io(Null, false, false, []))

  function Interpret(p: Program): (r: Outcome)
    requires WellFormed(p)
  {
    WholeRegionBelow(p, p.g.root);
    var s := ExecRoot(p, START, Members(p.g, p.g.root));
    if p.g.output != INVALID && !s.io.err then
      var v := EvalNode(p, Ctx(0, 0), s.vars, s.io, p.g.output);
      Outcome(!v.io.err, v.v, v.io.out)
    else Outcome(!s.io.err, s.io.result, s.io.out)
  }
}
