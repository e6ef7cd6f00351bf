/**
 The heights the verifier computes for compiled code, read off the graph. A value popped
 by a print or as an argument is never taken off, so an expression may leave more than
 one value; a statement moves the height, and after a return the height starts again at
 zero unless something else leads there.
 */
module Balance {
  import opened Values
  import opened Bytecode
  import opened SemanticGraph
  import opened CodeGen
  import opened Support
  import opened RunFacts
  import opened Compiling
  import opened Verifier
  import opened HeightFlow

  // ----- Expressions -----

  function Plus(a: Option<nat>, b: Option<nat>): Option<nat> {
    if a.Some? && b.Some? then Some(a.value + b.value) else None
  }

  /** Values an expression leaves; None if its code cannot be given heights. */
  function Gain(p: Program, n: nat): Option<nat>
    requires WellFormed(p) && n < |p.g.nodes|
    decreases p.rank[n], 2
  {
    match p.g.nodes[n].kind
    case BinaryNode(op) => GainBinary(p, n, op)
    case UnaryNode(op) =>
      RoleBelow(p, n, "value");
      var s := InputSource(p.g, n, "value");
      if s == INVALID || TryFoldUnary(p.g, s, op).Some? then Some(1) else Gain(p, s)
    case And => GainDecided(p, n)
    case Or => GainDecided(p, n)
    case FuncCall(_) =>
      ArgsBelow(p, n);
      Plus(GainPorts(p, n, ArgPorts(p.g, n)), Some(1))
    case _ => Some(1)
  }

  function GainBinary(p: Program, n: nat, op: BinOp): Option<nat>
    requires WellFormed(p) && n < |p.g.nodes|
    decreases p.rank[n], 1
  {
    OperandBelow(p, n, 0);
    OperandBelow(p, n, 1);
    var l, r := CompilerOperand(p.g, n, 0), CompilerOperand(p.g, n, 1);
    if l == INVALID || r == INVALID || TryFoldBinary(p.g, l, r, op).Some? then Some(1)
    else
      var both := Plus(Gain(p, l), Gain(p, r));
      if both.Some? && both.value >= 1 then Some(both.value - 1) else None
  }

  /** The two ways to the end of short-circuit code meet, so the second operand must leave one value. */
  function GainDecided(p: Program, n: nat): Option<nat>
    requires WellFormed(p) && n < |p.g.nodes|
    decreases p.rank[n], 1
  {
    RoleBelow(p, n, "lhs");
    RoleBelow(p, n, "rhs");
    var l, r := RoleSource(p.g, n, "lhs"), RoleSource(p.g, n, "rhs");
    if l == INVALID || r == INVALID then Some(1)
    else if Gain(p, r) == Some(1) then Gain(p, l)
    else None
  }

  /** Arguments stay under the result of the call. */
  function GainPorts(p: Program, n: nat, ports: seq<nat>): Option<nat>
    requires WellFormed(p) && n < |p.g.nodes|
    requires forall k :: 0 <= k < |ports| ==> SourceBelow(p, n, ports[k])
    decreases p.rank[n], 1, |ports|
  {
    if ports == [] then Some(0)
    else
      assert SourceBelow(p, n, ports[0]);
      var s := FindSource(p.g, ports[0]);
      Plus(if s == INVALID then Some(0) else Gain(p, s), GainPorts(p, n, ports[1..]))
  }

  function Raise(entry: Exit, g: Option<nat>): Option<Exit> {
    if g.Some? then Some(Level(Enter(entry) + g.value)) else None
  }

  ghost predicate Steady(p: Program) { WellFormed(p) && ValuesFed(p.g) && NodesSupported(p) }

  /** Code that is not empty and leaves so many values. */
  ghost predicate Leaves(code: seq<Instr>, entry: Exit, g: Option<nat>) {
    code != [] && (g.Some? ==> g.value >= 1) && Yields(code, entry, Raise(entry, g))
  }

  lemma ConstLeaves(st: Cst, c: Constant, entry: Exit)
    requires 0 <= Enter(entry)
    ensures Leaves(EmitConst(st, c).code, entry, Some(1))
  {
    OneYields(Const(FindConst(st.pool, c)), entry);
    hide Yields;
  }

  /** More code that takes its values off what is there. */
  lemma {:induction false} LeavesThen(a: seq<Instr>, b: seq<Instr>, entry: Exit, g: Option<nat>, d: nat)
    requires !entry.Free? && 0 <= Enter(entry) && Yields(a, entry, Raise(entry, g)) && Closed(b) && b != [] && d >= 1
    requires g.Some? ==> Yields(b, Level(Enter(entry) + g.value), Some(Level(Enter(entry) + d)))
    ensures Leaves(a + b, entry, if g.Some? then Some(d) else None)
  {
    hide Yields; hide Closed;
    ThenYields(a, b, entry, Raise(entry, g), Some(Level(Enter(entry) + d)));
  }

  lemma PlainClosed(i: Instr)
    requires !IsJump(i)
    ensures Closed([i])
  {
    OneRuns(i, Level(0), Free);
  }

  lemma {:induction false} ExprYields(p: Program, cx: Cx, st: Cst, n: nat, entry: Exit)
    requires Steady(p) && n < |p.g.nodes| && IsExprNode(p.g.nodes[n].kind) && !entry.Free? && 0 <= Enter(entry)
    requires !CNode(p, cx, st, n).st.err
    ensures Leaves(CNode(p, cx, st, n).code, entry, Gain(p, n))
    decreases p.rank[n], 3
  {
    hide CBinary; hide CUnary; hide CShortCircuit; hide CCall; hide Leaves; hide Indexed; hide Ranked; hide ValuesFed;
    hide NodesSupported; hide GainBinary; hide GainDecided; hide GainPorts; hide EmitConst; hide Raise; hide ArgPorts;
    var k := p.g.nodes[n].kind;
    if k.ConstInt? {
      ConstLeaves(st, IntConst(k.i), entry);
    } else if k.ConstBool? {
      ConstLeaves(st, BoolConst(k.b), entry);
    } else if k.ConstNull? {
      ConstLeaves(st, NullConst, entry);
    } else if k.BinaryNode? {
      BinaryYields(p, cx, st, n, k.bop, entry);
    } else if k.UnaryNode? {
      UnaryYields(p, cx, st, n, k.uop, entry);
    } else if k.And? || k.Or? {
      DecideYields(p, cx, st, n, k.Or?, entry);
    } else if k.VarRef? {
      VarYields(st, k.name, entry);
    } else if k.FuncCall? {
      CallYields(p, cx, st, n, k.name, entry);
    }
  }

  lemma VarYields(st: Cst, name: string, entry: Exit)
    requires 0 <= Enter(entry)
    ensures forall s: nat :: Leaves([LoadLocal(s)], entry, Some(1))
  {
    forall s: nat ensures Leaves([LoadLocal(s)], entry, Some(1)) {
      OneYields(LoadLocal(s), entry);
      hide Yields;
    }
  }

  lemma {:induction false} SourceYields(p: Program, cx: Cx, st: Cst, n: nat, s: nat, entry: Exit)
    requires Steady(p) && n < |p.g.nodes| && !entry.Free? && 0 <= Enter(entry)
    requires s < |p.g.nodes| && s != INVALID && p.rank[s] < p.rank[n] && IsExprNode(p.g.nodes[s].kind)
    requires !CSource(p, cx, st, n, s).st.err
    ensures Leaves(CSource(p, cx, st, n, s).code, entry, Gain(p, s))
    decreases p.rank[n], 0
  {
    hide CNode; hide Leaves; hide Indexed; hide Ranked; hide ValuesFed; hide NodesSupported; hide Gain;
    ExprYields(p, cx, st, s, entry);
  }

  lemma {:induction false} BinaryYields(p: Program, cx: Cx, st: Cst, n: nat, op: BinOp, entry: Exit)
    requires Steady(p) && n < |p.g.nodes| && !entry.Free? && 0 <= Enter(entry) && !CBinary(p, cx, st, n, op).st.err
    ensures Leaves(CBinary(p, cx, st, n, op).code, entry, GainBinary(p, n, op))
    decreases p.rank[n], 1
  {
    hide CSource; hide Leaves; hide Ranked; hide NodesSupported; hide CompilerOperand; hide EmitOp; hide CBinary; hide EmitConst; hide Gain;
    CodeGen.OperandBelow(p, n, 0);
    CodeGen.OperandBelow(p, n, 1);
    OperandFed(p.g, n, 0);
    OperandFed(p.g, n, 1);
    hide Indexed; hide ValuesFed;
    var ls, rs := CompilerOperand(p.g, n, 0), CompilerOperand(p.g, n, 1);
    BinaryShape(p, cx, st, n, op, ls, rs);
    if ls != INVALID && rs != INVALID && !FoldUndefined(p.g, ls, rs, op) {
      var folded := TryFoldBinary(p.g, ls, rs, op);
      if folded.Some? {
        ConstLeaves(st, ConstOf(folded.value), entry);
      } else {
        var l := CSource(p, cx, st, n, ls);
        var r := CSource(p, cx, l.st, n, rs);
        SameErr(r.st, Binary(op));
        SourceYields(p, cx, st, n, ls, entry);
        var gl, gr := Gain(p, ls), Gain(p, rs);
        var mid := if gl.Some? then Level(Enter(entry) + gl.value) else Level(0);
        SourceYields(p, cx, l.st, n, rs, mid);
        LeavesClosed(r.code, mid, gr);
        BinaryCode(l.code, r.code, op, entry, gl, gr);
      }
    }
  }

  lemma SameErr(st: Cst, i: Instr)
    ensures EmitOp(st, i).err == st.err
  {
  }

  lemma {:induction false} BinaryCode(l: seq<Instr>, r: seq<Instr>, op: BinOp, entry: Exit, gl: Option<nat>, gr: Option<nat>)
    requires !entry.Free? && 0 <= Enter(entry) && Leaves(l, entry, gl) && Closed(r) && r != []
    requires gl.Some? ==> Leaves(r, Level(Enter(entry) + gl.value), gr)
    requires gr.Some? ==> gr.value >= 1
    ensures Leaves(l + r + [Binary(op)], entry,
                   if gl.Some? && gr.Some? then Some(gl.value + gr.value - 1) else None)
  {
    hide Yields; hide Closed;
    var g := if gl.Some? && gr.Some? then Some(gl.value + gr.value) else None;
    TwoYield(l, r, entry, gl, gr);
    OpAfter(l + r, op, entry, g);
  }

  /** Two operands, one on the other. */
  lemma {:induction false} TwoYield(l: seq<Instr>, r: seq<Instr>, entry: Exit, gl: Option<nat>, gr: Option<nat>)
    requires !entry.Free? && 0 <= Enter(entry) && Leaves(l, entry, gl) && Closed(r)
    requires gl.Some? ==> Leaves(r, Level(Enter(entry) + gl.value), gr)
    ensures Yields(l + r, entry, Raise(entry, if gl.Some? && gr.Some? then Some(gl.value + gr.value) else None)) && Closed(l + r)
  {
    hide Yields; hide Closed;
    ThenYields(l, r, entry, Raise(entry, gl), if gl.Some? then Raise(Level(Enter(entry) + gl.value), gr) else None);
    LeavesClosed(l, entry, gl);
    ClosedThen(l, r);
  }

  lemma {:induction false} OpAfter(code: seq<Instr>, op: BinOp, entry: Exit, g: Option<nat>)
    requires !entry.Free? && 0 <= Enter(entry) && Yields(code, entry, Raise(entry, g)) && (g.Some? ==> g.value >= 2)
    ensures Leaves(code + [Binary(op)], entry, if g.Some? then Some(g.value - 1) else None)
  {
    PlainClosed(Binary(op));
    hide Yields; hide Closed;
    if g.Some? {
      OneYields(Binary(op), Level(Enter(entry) + g.value));
    }
    LeavesThen(code, [Binary(op)], entry, g, if g.Some? then g.value - 1 else 1);
  }

  lemma LeavesClosed(code: seq<Instr>, entry: Exit, g: Option<nat>)
    requires Leaves(code, entry, g)
    ensures Closed(code) && code != [] && (g.Some? ==> g.value >= 1)
  {
  }

  lemma {:induction false} UnaryYields(p: Program, cx: Cx, st: Cst, n: nat, op: UnOp, entry: Exit)
    requires Steady(p) && n < |p.g.nodes| && p.g.nodes[n].kind == UnaryNode(op)
    requires !entry.Free? && 0 <= Enter(entry) && !CUnary(p, cx, st, n, op).st.err
    ensures Leaves(CUnary(p, cx, st, n, op).code, entry, Gain(p, n))
    decreases p.rank[n], 1
  {
    hide CSource; hide Leaves; hide Ranked; hide NodesSupported; hide InputSource; hide EmitOp; hide EmitConst;
    RoleBelow(p, n, "value");
    RoleFed(p.g, n, "value");
    hide Indexed; hide ValuesFed;
    var s := InputSource(p.g, n, "value");
    if s != INVALID {
      var folded := TryFoldUnary(p.g, s, op);
      if folded.Some? {
        ConstLeaves(st, ConstOf(folded.value), entry);
      } else {
        var v := CSource(p, cx, st, n, s);
        SameErr(v.st, Unary(op));
        SourceYields(p, cx, st, n, s, entry);
        hide Gain;
        UnaryCode(v.code, op, entry, Gain(p, s));
      }
    }
  }

  lemma {:induction false} UnaryCode(v: seq<Instr>, op: UnOp, entry: Exit, g: Option<nat>)
    requires !entry.Free? && 0 <= Enter(entry) && Leaves(v, entry, g)
    ensures Leaves(v + [Unary(op)], entry, g)
  {
    PlainClosed(Unary(op));
    hide Yields; hide Closed;
    if g.Some? {
      OneYields(Unary(op), Level(Enter(entry) + g.value));
    }
    LeavesThen(v, [Unary(op)], entry, g, if g.Some? then g.value else 1);
  }

  lemma {:induction false} DecideYields(p: Program, cx: Cx, st: Cst, n: nat, isOr: bool, entry: Exit)
    requires Steady(p) && n < |p.g.nodes| && !entry.Free? && 0 <= Enter(entry) && !CShortCircuit(p, cx, st, n, isOr).st.err
    ensures Leaves(CShortCircuit(p, cx, st, n, isOr).code, entry, GainDecided(p, n))
    decreases p.rank[n], 1
  {
    hide CSource; hide Leaves; hide Ranked; hide NodesSupported; hide RoleSource; hide CShortCircuit; hide Gain;
    RoleBelow(p, n, "lhs");
    RoleBelow(p, n, "rhs");
    RoleFed(p.g, n, "lhs");
    RoleFed(p.g, n, "rhs");
    hide Indexed; hide ValuesFed;
    var ls, rs := RoleSource(p.g, n, "lhs"), RoleSource(p.g, n, "rhs");
    if ls == INVALID || rs == INVALID {
      ShortCircuitError(p, cx, st, n, isOr);
    } else {
      var l := CSource(p, cx, st, n, ls);
      var mid := AfterTest(l.st, isOr);
      var r := CSource(p, cx, mid, n, rs);
      ShortCircuitShape(p, cx, st, n, isOr, l, r);
      assert mid.err == l.st.err;
      SourceYields(p, cx, st, n, ls, entry);
      var gl := Gain(p, ls);
      LeavesClosed(l.code, entry, gl);
      var after := if gl.Some? then Level(Enter(entry) + gl.value - 1) else Level(0);
      SourceYields(p, cx, mid, n, rs, after);
      LeavesClosed(r.code, after, Gain(p, rs));
      DecideCode(l.code, isOr, r.code, entry, gl, Gain(p, rs));
    }
  }

  /** The decision after the first operand, entered with its value on top. */
  lemma {:induction false} DecideTail(skip: Instr, r: seq<Instr>, top: int, gr: Option<nat>)
    requires IsExit(skip) && skip.offset == 1 + Size(r) && 1 <= top && Yields(r, Level(top - 1), Raise(Level(top - 1), gr))
    ensures Yields([Dup] + ([skip] + ([Pop] + r)), Level(top), if gr == Some(1) then Some(Level(top)) else None)
  {
    SkipSize([], [], r);
    hide Yields; hide Size;
    YieldsClosed(r, Level(top - 1), Raise(Level(top - 1), gr));
    PopThen(r, top, gr);
    SkipYields(skip, [Pop] + r, top + 1, Raise(Level(top - 1), gr));
    var o := if gr == Some(1) then Some(Level(top)) else None;
    YieldsClosed([skip] + ([Pop] + r), Level(top + 1), o);
    OneYields(Dup, Level(top));
    hide Closed;
    ThenYields([Dup], [skip] + ([Pop] + r), Level(top), Some(Level(top + 1)), o);
  }

  lemma {:induction false} PopThen(r: seq<Instr>, top: int, gr: Option<nat>)
    requires 1 <= top && Yields(r, Level(top - 1), Raise(Level(top - 1), gr))
    ensures Yields([Pop] + r, Level(top), Raise(Level(top - 1), gr))
  {
    hide Yields;
    YieldsClosed(r, Level(top - 1), Raise(Level(top - 1), gr));
    OneYields(Pop, Level(top));
    hide Closed;
    ThenYields([Pop], r, Level(top), Some(Level(top - 1)), Raise(Level(top - 1), gr));
  }

  lemma DecideClosed(skip: Instr, r: seq<Instr>)
    requires IsExit(skip) && skip.offset == 1 + Size(r) && Closed(r)
    ensures Closed([Dup] + ([skip] + ([Pop] + r)))
  {
    SkipSize([], [], r);
    PlainClosed(Pop);
    PlainClosed(Dup);
    hide Closed; hide Size; hide Lands; hide Undisturbed; hide EndReached;
    ClosedThen([Pop], r);
    SkipFacts(skip, [Pop] + r);
    ClosedThen([Dup], [skip] + ([Pop] + r));
  }

  lemma {:induction false} DecideCode(l: seq<Instr>, isOr: bool, r: seq<Instr>, entry: Exit, gl: Option<nat>, gr: Option<nat>)
    requires !entry.Free? && 0 <= Enter(entry) && Leaves(l, entry, gl) && Closed(r)
    requires gl.Some? ==> Leaves(r, Level(Enter(entry) + gl.value - 1), gr)
    ensures var skip := JumpWith(if isOr then OP_JUMP_IF_TRUE else OP_JUMP_IF_FALSE, 1 + Size(r));
            Leaves(l + [Dup] + [skip] + [Pop] + r, entry, if gr == Some(1) then gl else None)
  {
    hide Yields; hide Closed; hide Size;
    var skip := JumpWith(if isOr then OP_JUMP_IF_TRUE else OP_JUMP_IF_FALSE, 1 + Size(r));
    var h, rest := Enter(entry), [Dup] + ([skip] + ([Pop] + r));
    DecideClosed(skip, r);
    if gl.Some? {
      DecideTail(skip, r, h + gl.value, gr);
    }
    ThenYields(l, rest, entry, Raise(entry, gl), if gl.Some? && gr == Some(1) then Some(Level(h + gl.value)) else None);
    assert l + rest == l + [Dup] + [skip] + [Pop] + r;
  }

  lemma {:induction false} CallYields(p: Program, cx: Cx, st: Cst, n: nat, name: string, entry: Exit)
    requires Steady(p) && n < |p.g.nodes| && p.g.nodes[n].kind == FuncCall(name)
    requires !entry.Free? && 0 <= Enter(entry) && !CCall(p, cx, st, n, name).st.err
    ensures forall k :: 0 <= k < |ArgPorts(p.g, n)| ==> SourceBelow(p, n, ArgPorts(p.g, n)[k])
    ensures Leaves(CCall(p, cx, st, n, name).code, entry, Plus(GainPorts(p, n, ArgPorts(p.g, n)), Some(1)))
    decreases p.rank[n], 2
  {
    hide CArgs; hide Leaves; hide Ranked; hide ValuesFed; hide NodesSupported; hide GainPorts;
    ArgsBelow(p, n);
    ArgsFed(p.g, n);
    var a := CArgs(p, cx, st, n, ArgPorts(p.g, n));
    ArgsYield(p, cx, st, n, ArgPorts(p.g, n), Level(Enter(entry)));
    var f, g := FindName(cx.names, name), GainPorts(p, n, ArgPorts(p.g, n));
    CallCode(a.code, f, a.argc, Level(Enter(entry)), g);
    SameEntry(a.code + [Call(f, a.argc)], entry, Level(Enter(entry)), Plus(g, Some(1)));
  }

  /** Code that is not empty does not tell a cut from height zero. */
  lemma SameEntry(code: seq<Instr>, entry: Exit, other: Exit, g: Option<nat>)
    requires Leaves(code, other, g) && Enter(entry) == Enter(other)
    ensures Leaves(code, entry, g)
  {
    hide AllOk; hide EndReached; hide Closed;
    forall x: Exit ensures Runs(code, entry, x) <==> Runs(code, other, x) {
    }
  }

  lemma {:induction false} CallCode(a: seq<Instr>, f: nat, argc: nat, entry: Exit, g: Option<nat>)
    requires !entry.Free? && 0 <= Enter(entry) && Yields(a, entry, Raise(entry, g))
    ensures Leaves(a + [Call(f, argc)], entry, Plus(g, Some(1)))
  {
    PlainClosed(Call(f, argc));
    hide Yields; hide Closed;
    if g.Some? {
      OneYields(Call(f, argc), Level(Enter(entry) + g.value));
    }
    LeavesThen(a, [Call(f, argc)], entry, g, if g.Some? then g.value + 1 else 1);
  }

  /** Whatever feeds an argument is an expression. */
  lemma ArgsFed(g: Graph, n: nat)
    requires Indexed(g) && ValuesFed(g) && n < |g.nodes|
    ensures forall k :: 0 <= k < |ArgPorts(g, n)| ==> FedByValue(g, ArgPorts(g, n)[k])
  {
    assert PortsFed(g, g.nodes[n]);
  }

  lemma {:induction false} ArgsYield(p: Program, cx: Cx, st: Cst, n: nat, ports: seq<nat>, entry: Exit)
    requires Steady(p) && n < |p.g.nodes| && entry.Level? && 0 <= entry.h
    requires forall k :: 0 <= k < |ports| ==> SourceBelow(p, n, ports[k]) && FedByValue(p.g, ports[k])
    requires !CArgs(p, cx, st, n, ports).st.err
    ensures Yields(CArgs(p, cx, st, n, ports).code, entry, Raise(entry, GainPorts(p, n, ports)))
    decreases p.rank[n], 1, |ports|
  {
    hide CNode; hide Yields; hide Leaves; hide Indexed; hide Ranked; hide ValuesFed; hide NodesSupported; hide Gain; hide Raise;
    if ports == [] {
      EmptyYields(entry);
    } else {
      assert SourceBelow(p, n, ports[0]) && FedByValue(p.g, ports[0]);
      var s := FindSource(p.g, ports[0]);
      var v := if s == INVALID then Out([], st) else CNode(p, cx, st, s);
      var rest := CArgs(p, cx, v.st, n, ports[1..]);
      var g, gs := if s == INVALID then Some(0) else Gain(p, s), GainPorts(p, n, ports[1..]);
      EmptyYields(entry);
      if s != INVALID {
        ExprYields(p, cx, st, s, entry);
        LeavesYields(v.code, entry, g);
      }
      var mid := if g.Some? then Level(entry.h + g.value) else Level(0);
      ArgsYield(p, cx, v.st, n, ports[1..], mid);
      ArgsCons(v.code, rest.code, entry, g, gs, mid);
    }
  }

  lemma {:induction false} ArgsCons(v: seq<Instr>, rest: seq<Instr>, entry: Exit, g: Option<nat>, gs: Option<nat>, mid: Exit)
    requires entry.Level? && 0 <= entry.h && Yields(v, entry, Raise(entry, g)) && Yields(rest, mid, Raise(mid, gs))
    requires g.Some? ==> mid == Level(entry.h + g.value)
    ensures Yields(v + rest, entry, Raise(entry, Plus(g, gs)))
  {
    hide Yields; hide Closed;
    YieldsClosed(rest, mid, Raise(mid, gs));
    ThenYields(v, rest, entry, Raise(entry, g), Raise(mid, gs));
  }

  lemma LeavesYields(code: seq<Instr>, entry: Exit, g: Option<nat>)
    requires Leaves(code, entry, g)
    ensures Yields(code, entry, Raise(entry, g))
  {
  }

  lemma EmptyYields(entry: Exit)
    requires entry.Level?
    ensures Yields([], entry, Raise(entry, Some(0)))
  {
    YieldsNothing(entry);
  }

  lemma YieldsClosed(code: seq<Instr>, entry: Exit, o: Option<Exit>)
    requires Yields(code, entry, o)
    ensures Closed(code)
  {
  }
}
