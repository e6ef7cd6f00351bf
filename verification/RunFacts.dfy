/** What the static conditions mean for interpreter runs and for the compiler's local table. */
module RunFacts {
  import opened Values
  import opened Bytecode
  import opened SemanticGraph
  import opened Interpreter
  import opened CodeGen
  import opened Support

  // ----- Statements that cannot return -----

  lemma {:induction false} NoReturnStmt(p: Program, c: Ctx, st: State, n: nat)
    requires WellFormed(p) && n < |p.g.nodes| && c.fp <= FRAMES_MAX
    requires !MayReturn(p, n) && !st.io.returned
    ensures !ExecStmt(p, c, st, n).io.returned
    decreases p.rank[n], 3, 0
  {
    RoleBelow(p, n, "value");
    RoleBelow(p, n, "cond");
    ChildrenBelow(p, n);
    match p.g.nodes[n].kind
    case If(t, e) =>
      var v := EvalSource(p, c, st.vars, st.io, n, InputSource(p.g, n, "cond"));
      NoReturnRegion(p, c, State(st.vars, v.io), if Truthy(v.v) then t else e, p.rank[n]);
    case While(_) => NoReturnWhile(p, c, st, n, LOOP_LIMIT);
    case Cycle(_) => NoReturnCycle(p, c, st, n, LOOP_LIMIT);
    case _ =>
  }

  lemma {:induction false} NoReturnRegion(p: Program, c: Ctx, st: State, r: nat, bound: nat)
    requires WellFormed(p) && c.fp <= FRAMES_MAX && RegionBelow(p, r, bound)
    requires !MayReturnIn(p, r, bound) && !st.io.returned
    ensures !ExecRegion(p, c, st, r, bound).io.returned
    decreases bound, 1, |Members(p.g, r)| + 1
  {
    if r != INVALID && !st.io.err {
      NoReturnMembers(p, c, st, Members(p.g, r), bound);
    }
  }

  lemma {:induction false} NoReturnMembers(p: Program, c: Ctx, st: State, ms: seq<nat>, bound: nat)
    requires WellFormed(p) && c.fp <= FRAMES_MAX
    requires forall k :: 0 <= k < |ms| ==> MemberBelow(p, ms[k], bound) && !MayReturn(p, ms[k])
    requires !st.io.returned
    ensures !ExecMembers(p, c, st, ms, bound).io.returned
    decreases bound, 1, |ms|
  {
    if ms == [] || st.io.err {
    } else {
      assert MemberBelow(p, ms[0], bound);
      var k := p.g.nodes[ms[0]].kind;
      if k.Param? || IsInterpExpr(k) {
        NoReturnMembers(p, c, st, ms[1..], bound);
      } else {
        NoReturnStmt(p, c, st, ms[0]);
        NoReturnMembers(p, c, ExecStmt(p, c, st, ms[0]), ms[1..], bound);
      }
    }
  }

  lemma {:induction false} NoReturnWhile(p: Program, c: Ctx, st: State, n: nat, left: nat)
    requires WellFormed(p) && n < |p.g.nodes| && c.fp <= FRAMES_MAX && p.g.nodes[n].kind.While?
    requires !MayReturn(p, n) && !st.io.returned
    ensures !ExecWhile(p, c, st, n, left).io.returned
    decreases p.rank[n], 2, left
  {
    if left == 0 || st.io.err {
    } else {
      RoleBelow(p, n, "cond");
      ChildrenBelow(p, n);
      var v := EvalSource(p, c, st.vars, st.io, n, InputSource(p.g, n, "cond"));
      if Truthy(v.v) {
        var st1 := State(st.vars, v.io);
        NoReturnRegion(p, c, st1, p.g.nodes[n].kind.body, p.rank[n]);
        NoReturnWhile(p, c, ExecRegion(p, c, st1, p.g.nodes[n].kind.body, p.rank[n]), n, left - 1);
      }
    }
  }

  lemma {:induction false} NoReturnCycle(p: Program, c: Ctx, st: State, n: nat, left: nat)
    requires WellFormed(p) && n < |p.g.nodes| && c.fp <= FRAMES_MAX && p.g.nodes[n].kind.Cycle?
    requires !MayReturn(p, n) && !st.io.returned
    ensures !ExecCycle(p, c, st, n, left).io.returned
    decreases p.rank[n], 2, left
  {
    var body := p.g.nodes[n].kind.body;
    if left == 0 || st.io.err || body == INVALID {
    } else {
      CycleMembersBelow(p, n);
      ChildrenBelow(p, n);
      NoReturnCycleBody(p, c, st, Members(p.g, body), p.rank[n]);
      var b := ExecCycleBody(p, c, st, Members(p.g, body), p.rank[n]);
      if !b.broke {
        NoReturnCycle(p, c, b.st, n, left - 1);
      }
    }
  }

  lemma {:induction false} NoReturnCycleBody(p: Program, c: Ctx, st: State, ms: seq<nat>, bound: nat)
    requires WellFormed(p) && c.fp <= FRAMES_MAX
    requires forall k :: 0 <= k < |ms| ==> MemberBelow(p, ms[k], bound) && !MayReturn(p, ms[k])
    requires !st.io.returned
    ensures !ExecCycleBody(p, c, st, ms, bound).st.io.returned
    decreases bound, 1, |ms|
  {
    if ms != [] {
      assert MemberBelow(p, ms[0], bound);
      var k := p.g.nodes[ms[0]].kind;
      if k.BreakIf? {
        RoleBelow(p, ms[0], "cond");
        var v := EvalSource(p, c, st.vars, st.io, ms[0], InputSource(p.g, ms[0], "cond"));
        if !Truthy(v.v) {
          NoReturnCycleBody(p, c, State(st.vars, v.io), ms[1..], bound);
        }
      } else if k.Param? || IsInterpExpr(k) {
        NoReturnCycleBody(p, c, st, ms[1..], bound);
      } else {
        NoReturnStmt(p, c, st, ms[0]);
        NoReturnCycleBody(p, c, ExecStmt(p, c, st, ms[0]), ms[1..], bound);
      }
    }
  }

  // ----- Statements that must return -----

  lemma {:induction false} MustReturnStmt(p: Program, c: Ctx, st: State, n: nat)
    requires WellFormed(p) && n < |p.g.nodes| && c.fp <= FRAMES_MAX
    requires MustReturn(p, n) && !ExecStmt(p, c, st, n).io.err
    ensures ExecStmt(p, c, st, n).io.returned
    decreases p.rank[n], 3, 0
  {
    RoleBelow(p, n, "value");
    RoleBelow(p, n, "cond");
    ChildrenBelow(p, n);
    match p.g.nodes[n].kind
    case If(t, e) =>
      var v := EvalSource(p, c, st.vars, st.io, n, InputSource(p.g, n, "cond"));
      MustReturnRegion(p, c, State(st.vars, v.io), if Truthy(v.v) then t else e, p.rank[n]);
    case _ =>
  }

  lemma {:induction false} MustReturnRegion(p: Program, c: Ctx, st: State, r: nat, bound: nat)
    requires WellFormed(p) && c.fp <= FRAMES_MAX && RegionBelow(p, r, bound)
    requires MustReturnIn(p, r, bound) && !ExecRegion(p, c, st, r, bound).io.err
    ensures ExecRegion(p, c, st, r, bound).io.returned
    decreases bound, 1, |Members(p.g, r)| + 1
  {
    var ms := Members(p.g, r);
    var k :| 0 <= k < |ms| && MemberBelow(p, ms[k], bound) && MustReturn(p, ms[k]);
    MustReturnMembers(p, c, st, ms, bound, k);
  }

  lemma {:induction false} MustReturnMembers(p: Program, c: Ctx, st: State, ms: seq<nat>, bound: nat, k: nat)
    requires WellFormed(p) && c.fp <= FRAMES_MAX
    requires forall i :: 0 <= i < |ms| ==> MemberBelow(p, ms[i], bound)
    requires k < |ms| && MemberBelow(p, ms[k], bound) && MustReturn(p, ms[k])
    requires !ExecMembers(p, c, st, ms, bound).io.err
    ensures ExecMembers(p, c, st, ms, bound).io.returned
    decreases bound, 1, |ms|
  {
    if !st.io.returned {
      assert MemberBelow(p, ms[0], bound);
      var kind := p.g.nodes[ms[0]].kind;
      var next := if kind.Param? || IsInterpExpr(kind) then st else ExecStmt(p, c, st, ms[0]);
      if k > 0 {
        MustReturnMembers(p, c, next, ms[1..], bound, k - 1);
      } else {
        MustReturnStmt(p, c, st, ms[0]);
      }
    }
  }

  // ----- After a return in a cycle -----

  /** Inert members change nothing, returned or not. */
  lemma {:induction false} InertCycleBody(p: Program, c: Ctx, st: State, ms: seq<nat>, bound: nat)
    requires WellFormed(p) && c.fp <= FRAMES_MAX
    requires forall k :: 0 <= k < |ms| ==> MemberBelow(p, ms[k], bound) && Inert(p.g.nodes[ms[k]].kind)
    ensures ExecCycleBody(p, c, st, ms, bound) == BodyRes(st, false)
    decreases ms
  {
    if ms != [] {
      assert MemberBelow(p, ms[0], bound);
      InertCycleBody(p, c, st, ms[1..], bound);
    }
  }

  // ----- Locals -----

  lemma PortFed(g: Graph, n: nat, role: string)
    requires Indexed(g) && n < |g.nodes| && ValuesFed(g)
    ensures FedByValue(g, FindPort(g, n, role))
  {
    assert PortsFed(g, g.nodes[n]);
    NoSourceOfInvalid(g);
    var port := FindPort(g, n, role);
    if port != INVALID {
      var k :| 0 <= k < |g.nodes[n].ports| && g.nodes[n].ports[k] == port;
    }
  }

  lemma CyclicFed(g: Graph, n: nat, k: nat)
    requires Indexed(g) && n < |g.nodes| && ValuesFed(g)
    ensures FedByValue(g, CyclicPort(g, n, k))
  {
    assert PortsFed(g, g.nodes[n]);
    NoSourceOfInvalid(g);
    var port := CyclicPort(g, n, k);
    if port != INVALID {
      var j :| 0 <= j < |g.nodes[n].cyclic| && g.nodes[n].cyclic[j] == port;
    }
  }

  lemma ArgsFed(g: Graph, n: nat)
    requires Indexed(g) && n < |g.nodes| && ValuesFed(g)
    ensures forall k :: 0 <= k < |ArgPorts(g, n)| ==> FedByValue(g, ArgPorts(g, n)[k])
  {
    assert PortsFed(g, g.nodes[n]);
    forall k | 0 <= k < |ArgPorts(g, n)| ensures FedByValue(g, ArgPorts(g, n)[k]) {
      var port := ArgPorts(g, n)[k];
      if port in g.nodes[n].ports {
        var j :| 0 <= j < |g.nodes[n].ports| && g.nodes[n].ports[j] == port;
      } else {
        var j :| 0 <= j < |g.nodes[n].cyclic| && g.nodes[n].cyclic[j] == port;
      }
    }
  }

  /** The operands found by role or order are expressions. */
  lemma OperandFed(g: Graph, n: nat, k: nat)
    requires Indexed(g) && n < |g.nodes| && ValuesFed(g) && k < 2
    ensures var s := CompilerOperand(g, n, k); s == INVALID || IsExprNode(g.nodes[s].kind)
  {
    CyclicFed(g, n, k);
    PortFed(g, n, if k == 0 then "lhs" else "rhs");
  }

  lemma RoleFed(g: Graph, n: nat, role: string)
    requires Indexed(g) && n < |g.nodes| && ValuesFed(g)
    ensures var s := RoleSource(g, n, role); s == INVALID || IsExprNode(g.nodes[s].kind)
    ensures var s := InputSource(g, n, role); s == INVALID || IsExprNode(g.nodes[s].kind)
  {
    PortFed(g, n, role);
    PortFed(g, n, "in");
  }

  /** Expressions add no locals. */
  lemma {:induction false} ExprLocals(p: Program, cx: Cx, st: Cst, n: nat)
    requires WellFormed(p) && ValuesFed(p.g) && n < |p.g.nodes|
    requires IsExprNode(p.g.nodes[n].kind)
    ensures CNode(p, cx, st, n).st.locals == st.locals
    decreases p.rank[n], 2, 0
  {
    match p.g.nodes[n].kind
    case BinaryNode(op) => BinaryLocals(p, cx, st, n, op);
    case UnaryNode(op) => UnaryLocals(p, cx, st, n, op);
    case And => ShortCircuitLocals(p, cx, st, n, false);
    case Or => ShortCircuitLocals(p, cx, st, n, true);
    case FuncCall(name) =>
      ArgsBelow(p, n);
      ArgsFed(p.g, n);
      ArgLocals(p, cx, st, n, ArgPorts(p.g, n));
      assert CKind(p, cx, st, n) == CCall(p, cx, st, n, name);
    case _ =>
  }

  /** A connected input's code adds no locals. */
  lemma {:induction false} SourceLocals(p: Program, cx: Cx, st: Cst, n: nat, s: nat)
    requires WellFormed(p) && ValuesFed(p.g) && n < |p.g.nodes|
    requires s == INVALID || (s < |p.g.nodes| && p.rank[s] < p.rank[n] && IsExprNode(p.g.nodes[s].kind))
    ensures CSource(p, cx, st, n, s).st.locals == st.locals
    decreases p.rank[n], 0, 0
  {
    if s != INVALID {
      ExprLocals(p, cx, st, s);
    }
  }

  lemma {:induction false} BinaryLocals(p: Program, cx: Cx, st: Cst, n: nat, op: BinOp)
    requires WellFormed(p) && ValuesFed(p.g) && n < |p.g.nodes|
    ensures CBinary(p, cx, st, n, op).st.locals == st.locals
    decreases p.rank[n], 1, 0
  {
    CodeGen.OperandBelow(p, n, 0);
    CodeGen.OperandBelow(p, n, 1);
    OperandFed(p.g, n, 0);
    OperandFed(p.g, n, 1);
    var ls, rs := CompilerOperand(p.g, n, 0), CompilerOperand(p.g, n, 1);
    SourceLocals(p, cx, st, n, ls);
    SourceLocals(p, cx, CSource(p, cx, st, n, ls).st, n, rs);
  }

  lemma {:induction false} UnaryLocals(p: Program, cx: Cx, st: Cst, n: nat, op: UnOp)
    requires WellFormed(p) && ValuesFed(p.g) && n < |p.g.nodes|
    ensures CUnary(p, cx, st, n, op).st.locals == st.locals
    decreases p.rank[n], 1, 0
  {
    RoleBelow(p, n, "value");
    RoleFed(p.g, n, "value");
    SourceLocals(p, cx, st, n, InputSource(p.g, n, "value"));
  }

  lemma {:induction false} ShortCircuitLocals(p: Program, cx: Cx, st: Cst, n: nat, isOr: bool)
    requires WellFormed(p) && ValuesFed(p.g) && n < |p.g.nodes|
    ensures CShortCircuit(p, cx, st, n, isOr).st.locals == st.locals
    decreases p.rank[n], 1, 0
  {
    RoleBelow(p, n, "lhs");
    RoleBelow(p, n, "rhs");
    RoleFed(p.g, n, "lhs");
    RoleFed(p.g, n, "rhs");
    var ls, rs := RoleSource(p.g, n, "lhs"), RoleSource(p.g, n, "rhs");
    SourceLocals(p, cx, st, n, ls);
    SourceLocals(p, cx, AfterTest(CSource(p, cx, st, n, ls).st, isOr), n, rs);
  }

  lemma {:induction false} ArgLocals(p: Program, cx: Cx, st: Cst, n: nat, ports: seq<nat>)
    requires WellFormed(p) && ValuesFed(p.g) && n < |p.g.nodes|
    requires forall k :: 0 <= k < |ports| ==> SourceBelow(p, n, ports[k]) && FedByValue(p.g, ports[k])
    ensures CArgs(p, cx, st, n, ports).st.locals == st.locals
    decreases p.rank[n], 0, |ports|
  {
    if ports != [] {
      assert SourceBelow(p, n, ports[0]) && FedByValue(p.g, ports[0]);
      var s := FindSource(p.g, ports[0]);
      if s != INVALID {
        ExprLocals(p, cx, st, s);
      }
      ArgLocals(p, cx, (if s == INVALID then Out([], st) else CNode(p, cx, st, s)).st, n, ports[1..]);
    }
  }

  /** Statements add exactly their bindings. */
  lemma {:induction false} StmtLocals(p: Program, cx: Cx, st: Cst, n: nat)
    requires WellFormed(p) && ValuesFed(p.g) && n < |p.g.nodes|
    requires !p.g.nodes[n].kind.Param? && !IsExprNode(p.g.nodes[n].kind)
    ensures CNode(p, cx, st, n).st.locals == Bind(p, st.locals, n)
    decreases p.rank[n], 3, 0
  {
    match p.g.nodes[n].kind
    case If(t, e) => IfLocals(p, cx, st, n);
    case While(b) => WhileLocals(p, cx, st, n);
    case Cycle(b) => CycleLocals(p, cx, st, n);
    case Let(_) => SimpleLocals(p, cx, st, n);
    case Assign(_) => SimpleLocals(p, cx, st, n);
    case Print => SimpleLocals(p, cx, st, n);
    case ReturnNode => SimpleLocals(p, cx, st, n);
    case RootOutput => SimpleLocals(p, cx, st, n);
    case _ =>
  }

  lemma {:induction false} SimpleLocals(p: Program, cx: Cx, st: Cst, n: nat)
    requires WellFormed(p) && ValuesFed(p.g) && n < |p.g.nodes|
    requires var k := p.g.nodes[n].kind; k.Let? || k.Assign? || k.Print? || k.ReturnNode? || k.RootOutput?
    ensures CKind(p, cx, st, n).st.locals == Bind(p, st.locals, n)
  {
    RoleBelow(p, n, "value");
    RoleFed(p.g, n, "value");
    SourceLocals(p, cx, st, n, InputSource(p.g, n, "value"));
    match p.g.nodes[n].kind
    case Let(name) => LetLocals(p, cx, st, n, name);
    case Assign(name) => AssignLocals(p, cx, st, n, name);
    case ReturnNode => ReturnLocals(p, cx, st, n);
    case Print => assert CKind(p, cx, st, n) == CPrint(p, cx, st, n);
    case _ =>
  }

  lemma {:induction false} LetLocals(p: Program, cx: Cx, st: Cst, n: nat, name: string)
    requires WellFormed(p) && n < |p.g.nodes|
    requires var s := InputSource(p.g, n, "value");
             (s == INVALID || p.rank[s] < p.rank[n]) && CSource(p, cx, st, n, s).st.locals == st.locals
    ensures CLet(p, cx, st, n, name).st.locals == st.locals + [name]
  {
  }

  lemma {:induction false} AssignLocals(p: Program, cx: Cx, st: Cst, n: nat, name: string)
    requires WellFormed(p) && n < |p.g.nodes|
    requires var s := InputSource(p.g, n, "value");
             (s == INVALID || p.rank[s] < p.rank[n]) && CSource(p, cx, st, n, s).st.locals == st.locals
    ensures CAssign(p, cx, st, n, name).st.locals == st.locals
  {
  }

  lemma {:induction false} ReturnLocals(p: Program, cx: Cx, st: Cst, n: nat)
    requires WellFormed(p) && n < |p.g.nodes|
    requires var s := InputSource(p.g, n, "value");
             (s == INVALID || p.rank[s] < p.rank[n]) && CSource(p, cx, st, n, s).st.locals == st.locals
    ensures CReturn(p, cx, st, n).st.locals == st.locals
  {
  }

  lemma {:induction false} IfLocals(p: Program, cx: Cx, st: Cst, n: nat)
    requires WellFormed(p) && ValuesFed(p.g) && n < |p.g.nodes| && p.g.nodes[n].kind.If?
    ensures CIf(p, cx, st, n).st.locals == Bind(p, st.locals, n)
    decreases p.rank[n], 2, 0
  {
    ChildrenBelow(p, n);
    CondLocals(p, cx, st, n);
    var t, e := p.g.nodes[n].kind.thenRegion, p.g.nodes[n].kind.elseRegion;
    var c := CSource(p, cx, st, n, RoleSource(p.g, n, "cond"));
    RegionLocals(p, cx, EmitOp(c.st, JumpIfFalse(0)), t, p.rank[n]);
    var yes := CRegion(p, cx, EmitOp(c.st, JumpIfFalse(0)), t, p.rank[n]);
    RegionLocals(p, cx, EmitOp(yes.st, Jump(0)), e, p.rank[n]);
  }

  lemma {:induction false} CondLocals(p: Program, cx: Cx, st: Cst, n: nat)
    requires WellFormed(p) && ValuesFed(p.g) && n < |p.g.nodes|
    ensures var s := RoleSource(p.g, n, "cond"); s == INVALID || p.rank[s] < p.rank[n]
    ensures CSource(p, cx, st, n, RoleSource(p.g, n, "cond")).st.locals == st.locals
    decreases p.rank[n], 1, 0
  {
    RoleBelow(p, n, "cond");
    RoleFed(p.g, n, "cond");
    SourceLocals(p, cx, st, n, RoleSource(p.g, n, "cond"));
  }

  lemma {:induction false} WhileLocals(p: Program, cx: Cx, st: Cst, n: nat)
    requires WellFormed(p) && ValuesFed(p.g) && n < |p.g.nodes| && p.g.nodes[n].kind.While?
    ensures CWhile(p, cx, st, n).st.locals == Bind(p, st.locals, n)
    decreases p.rank[n], 2, 0
  {
    ChildrenBelow(p, n);
    CondLocals(p, cx, st, n);
    var c := CSource(p, cx, st, n, RoleSource(p.g, n, "cond"));
    RegionLocals(p, cx, EmitOp(c.st, JumpIfFalse(0)), p.g.nodes[n].kind.body, p.rank[n]);
  }

  lemma {:induction false} CycleLocals(p: Program, cx: Cx, st: Cst, n: nat)
    requires WellFormed(p) && ValuesFed(p.g) && n < |p.g.nodes| && p.g.nodes[n].kind.Cycle?
    ensures CCycle(p, cx, st, n).st.locals == Bind(p, st.locals, n)
    decreases p.rank[n], 2, 0
  {
    CycleMembersBelow(p, n);
    ChildrenBelow(p, n);
    var ms := Members(p.g, p.g.nodes[n].kind.body);
    var i := FirstBreak(p.g, ms);
    assert Bind(p, st.locals, n) == BindRegion(p, st.locals, p.g.nodes[n].kind.body, p.rank[n]);
    if i < |ms| {
      assert MemberBelow(p, ms[i], p.rank[n]);
      CondLocals(p, cx, st, ms[i]);
      var c := CSource(p, cx, st, ms[i], RoleSource(p.g, ms[i], "cond"));
      MemberLocals(p, cx, EmitOp(c.st, JumpIfTrue(0)), ms, p.rank[n]);
      assert CCycle(p, cx, st, n) == CBreakCycle(p, cx, st, ms, ms[i], p.rank[n]);
    } else {
      MemberLocals(p, cx, st, ms, p.rank[n]);
      assert CCycle(p, cx, st, n) == CEndlessCycle(p, cx, st, ms, p.rank[n]);
    }
  }

  lemma {:induction false} RegionLocals(p: Program, cx: Cx, st: Cst, r: nat, bound: nat)
    requires WellFormed(p) && ValuesFed(p.g) && RegionBelow(p, r, bound)
    ensures CRegion(p, cx, st, r, bound).st.locals == BindRegion(p, st.locals, r, bound)
    decreases bound, 1, |Members(p.g, r)| + 1
  {
    if r != INVALID {
      MemberLocals(p, cx, st, Members(p.g, r), bound);
    }
  }

  lemma {:induction false} MemberLocals(p: Program, cx: Cx, st: Cst, ms: seq<nat>, bound: nat)
    requires WellFormed(p) && ValuesFed(p.g)
    requires forall k :: 0 <= k < |ms| ==> MemberBelow(p, ms[k], bound)
    ensures CMembers(p, cx, st, ms, bound).st.locals == BindAll(p, st.locals, ms, bound)
    decreases bound, 1, |ms|
  {
    if ms != [] {
      assert MemberBelow(p, ms[0], bound);
      var k := p.g.nodes[ms[0]].kind;
      var m := if k.Param? || IsExprNode(k) then Out([], st) else CNode(p, cx, st, ms[0]);
      if !(k.Param? || IsExprNode(k)) {
        StmtLocals(p, cx, st, ms[0]);
      }
      MemberLocals(p, cx, m.st, ms[1..], bound);
    }
  }
}
