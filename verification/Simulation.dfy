/**
 Forward simulation: wherever the interpreter succeeds, the machine running the
 compiled code gets to the same values and prints, or reports stack overflow.
 The lemmas follow the interpreter's recursion.
 */
module Simulation {
  import opened Values
  import opened Bytecode
  import opened SemanticGraph
  import opened Interpreter
  import opened CodeGen
  import opened Machine
  import opened Support
  import opened RunFacts
  import opened SimulationBase

  /** Function `k` is where its record says, compiled without error against the image's constants. */
  ghost predicate FuncLinked(p: Program, l: Link, k: nat)
    requires WellFormed(p) && k < |l.ids| == |l.starts| && k + l.d < |l.img.functions|
    requires l.ids[k] < |p.g.nodes| && p.g.nodes[l.ids[k]].kind.FuncDef?
  {
    var o := CBody(p, Cx(l.names, k), l.starts[k], l.ids[k]);
    var rec := l.img.functions[k + l.d];
    && !o.st.err
    && o.st.pool <= l.img.constants
    && CodeAt(l, l.starts[k].len, o.code)
    && rec.codeOffset == l.starts[k].len
    && rec.arity == p.g.nodes[l.ids[k]].kind.arity
    && rec.localCount == |o.st.locals|
  }

  ghost predicate Linked(p: Program, l: Link)
    requires WellFormed(p)
  {
    && l.ids == FuncIds(p.g, 0)
    && l.names == Names(p.g, l.ids)
    && |l.starts| == |l.ids|
    && |l.img.functions| == |l.ids| + l.d
    && forall k :: 0 <= k < |l.ids| ==> FuncLinked(p, l, k)
  }

  ghost predicate Good(p: Program, s: Scope) {
    && WellFormed(p)
    && ValuesFed(p.g)
    && NodesSupported(p)
    && Linked(p, s.l)
    && |s.l.img.code| < TWO_31
    && s.cx.names == s.l.names
    && Distinct(s.locals)
    && s.c.fp <= Interpreter.FRAMES_MAX
  }

  /** Code emitted up to state `next` lies at the machine's position and compiled without error. */
  ghost predicate Ready(s: Scope, code: seq<Instr>, next: Cst, vm: Vm) {
    && Alive(vm)
    && |vm.frames| == s.c.fp + 1
    && !next.err
    && next.pool <= s.l.img.constants
    && next.locals <= s.locals
    && CodeAt(s.l, vm.ip, code)
  }

  ghost predicate Clean(vm: Vm, io: Io) { vm.out == io.out && !io.err && !io.returned }

  // ----- Expressions -----

  lemma {:induction false} SimNode(p: Program, s: Scope, st: Cst, n: nat, vars: Vars, io: Io, vm: Vm)
    requires Good(p, s) && n < |p.g.nodes|
    requires var o := CNode(p, s.cx, st, n); Ready(s, o.code, o.st, vm)
    requires Env(vm, s.locals, vars) && Clean(vm, io)
    requires !EvalNode(p, s.c, vars, io, n).io.err
    ensures var r := EvalNode(p, s.c, vars, io, n);
            Reaches(s.l.img, vm, Pushed(vm, Size(CNode(p, s.cx, st, n).code), r.v, r.io.out))
    decreases Interpreter.FRAMES_MAX - s.c.fp, p.rank[n], 3, 0
  {
    hide CodeAt; hide Reaches; hide Env; hide Linked; hide NodesSupported; hide ValuesFed; hide Size;
    hide CBinary; hide CUnary; hide CShortCircuit; hide CCall; hide EvalCall; hide EvalShortCircuit;
    match p.g.nodes[n].kind
    case ConstInt(i) => SimConst(s, st, I64(i), vm);
    case ConstBool(b) => SimConst(s, st, Bool(b), vm);
    case ConstNull => SimConst(s, st, Null, vm);
    case VarRef(name) => SimVarRef(s, st, name, vars, vm);
    case BinaryNode(op) => SimBinary(p, s, st, n, vars, io, vm);
    case UnaryNode(op) => SimUnary(p, s, st, n, vars, io, vm);
    case And => SimShortCircuit(p, s, st, n, vars, io, vm, false);
    case Or => SimShortCircuit(p, s, st, n, vars, io, vm, true);
    case FuncCall(name) => SimCall(p, s, st, n, vars, io, vm);
    case RootOutput =>
      OutputConnected(p, n);
      var src := InputSource(p.g, n, "value");
      assert CKind(p, s.cx, st, n) == CSource(p, s.cx, st, n, src) == CNode(p, s.cx, st, src);
      assert EvalNode(p, s.c, vars, io, n) == EvalSource(p, s.c, vars, io, n, src);
      SimNode(p, s, st, src, vars, io, vm);
    case _ =>
  }

  lemma OutputConnected(p: Program, n: nat)
    requires WellFormed(p) && NodesSupported(p) && n < |p.g.nodes| && p.g.nodes[n].kind.RootOutput?
    ensures var s := InputSource(p.g, n, "value"); s != INVALID && p.rank[s] < p.rank[n]
  {
    assert NodeSupported(p, n);
    RoleBelow(p, n, "value");
  }

  lemma {:induction false} SimConst(s: Scope, st: Cst, v: Value, vm: Vm)
    requires var o := EmitConst(st, ConstOf(v)); Ready(s, o.code, o.st, vm)
    ensures Reaches(s.l.img, vm, Pushed(vm, Size(EmitConst(st, ConstOf(v)).code), v, vm.out))
  {
    var i := Const(FindConst(st.pool, ConstOf(v)));
    OneSize(i);
    StepOne(s.l, vm, i, Pushed(vm, 3, v, vm.out));
  }

  lemma {:induction false} SimVarRef(s: Scope, st: Cst, name: string, vars: Vars, vm: Vm)
    requires FindLocal(st.locals, name) >= 0 && Distinct(s.locals)
    requires Ready(s, [LoadLocal(FindLocal(st.locals, name))], st, vm)
    requires Env(vm, s.locals, vars) && FindVar(vars, name) >= 0
    ensures Reaches(s.l.img, vm, Pushed(vm, Size([LoadLocal(FindLocal(st.locals, name))]), vars[FindVar(vars, name)].1, vm.out))
  {
    var slot := FindLocal(st.locals, name);
    FindLocalPrefix(st.locals, s.locals, name);
    assert Bound(vm, s.locals, vars, name);
    OneSize(LoadLocal(slot));
    StepOne(s.l, vm, LoadLocal(slot), Pushed(vm, 3, vars[FindVar(vars, name)].1, vm.out));
  }

  /** When both operands compile, the interpreter finds the same ones. */
  lemma SameOperand(p: Program, n: nat, k: nat)
    requires WellFormed(p) && n < |p.g.nodes| && k < 2 && CompilerOperand(p.g, n, k) != INVALID
    ensures InterpOperand(p.g, n, k) == CompilerOperand(p.g, n, k)
    ensures p.rank[CompilerOperand(p.g, n, k)] < p.rank[n]
  {
    NoSourceOfInvalid(p.g);
    CodeGen.OperandBelow(p, n, k);
  }

  /** How a binary node compiles and what it evaluates to, on its two operands. */
  lemma {:induction false} BinaryShape(p: Program, c: Ctx, cx: Cx, st: Cst, n: nat, vars: Vars, io: Io)
    requires WellFormed(p) && NodesSupported(p) && c.fp <= Interpreter.FRAMES_MAX
    requires n < |p.g.nodes| && p.g.nodes[n].kind.BinaryNode?
    requires !CBinary(p, cx, st, n, p.g.nodes[n].kind.bop).st.err
    requires !io.err && !io.returned && !EvalNode(p, c, vars, io, n).io.err
    ensures var op := p.g.nodes[n].kind.bop;
            var ls, rs := CompilerOperand(p.g, n, 0), CompilerOperand(p.g, n, 1);
            && ls != INVALID && rs != INVALID && p.rank[ls] < p.rank[n] && p.rank[rs] < p.rank[n]
            && var lv := EvalNode(p, c, vars, io, ls);
               var rv := EvalNode(p, c, vars, lv.io, rs);
               var o := CBinary(p, cx, st, n, op);
               var r := EvalNode(p, c, vars, io, n);
            && !lv.io.err && !rv.io.err && r.io == rv.io
            && MachineBinary(op, lv.v, rv.v) == Some(r.v)
            && (if TryFoldBinary(p.g, ls, rs, op).Some?
                then o == EmitConst(st, ConstOf(r.v)) && r.io == io
                else var l := CNode(p, cx, st, ls); var q := CNode(p, cx, l.st, rs);
                     o == Out(l.code + q.code + [Binary(op)], EmitOp(q.st, Binary(op))))
  {
    var op := p.g.nodes[n].kind.bop;
    var ls, rs := CompilerOperand(p.g, n, 0), CompilerOperand(p.g, n, 1);
    SameOperand(p, n, 0);
    SameOperand(p, n, 1);
    var lv := EvalSource(p, c, vars, io, n, ls);
    var rv := EvalSource(p, c, vars, lv.io, n, rs);
    InterpreterOperatorsAgree(p.extended, op, lv.v, rv.v);
    if TryFoldBinary(p.g, ls, rs, op).Some? {
      FoldedValue(p, n, op, ls, rs);
    }
  }

  lemma {:induction false} SimBinary(p: Program, s: Scope, st: Cst, n: nat, vars: Vars, io: Io, vm: Vm)
    requires Good(p, s) && n < |p.g.nodes| && p.g.nodes[n].kind.BinaryNode?
    requires var o := CBinary(p, s.cx, st, n, p.g.nodes[n].kind.bop); Ready(s, o.code, o.st, vm)
    requires Env(vm, s.locals, vars) && Clean(vm, io)
    requires !EvalNode(p, s.c, vars, io, n).io.err
    ensures var r := EvalNode(p, s.c, vars, io, n);
            Reaches(s.l.img, vm, Pushed(vm, Size(CBinary(p, s.cx, st, n, p.g.nodes[n].kind.bop).code), r.v, r.io.out))
    decreases Interpreter.FRAMES_MAX - s.c.fp, p.rank[n], 2, 0
  {
    hide CodeAt; hide Reaches; hide Env; hide Linked; hide NodesSupported; hide ValuesFed; hide Size;
    hide CBinary; hide CNode; hide EvalNode; hide MachineBinary;
    BinaryShape(p, s.c, s.cx, st, n, vars, io);
    var op := p.g.nodes[n].kind.bop;
    var ls, rs := CompilerOperand(p.g, n, 0), CompilerOperand(p.g, n, 1);
    var r := EvalNode(p, s.c, vars, io, n);
    if TryFoldBinary(p.g, ls, rs, op).Some? {
      SimConst(s, st, r.v, vm);
    } else {
      var lv := EvalNode(p, s.c, vars, io, ls);
      var rv := EvalNode(p, s.c, vars, lv.io, rs);
      var l := CNode(p, s.cx, st, ls);
      var q := CNode(p, s.cx, l.st, rs);
      CodeSplit3(s.l, vm.ip, l.code, q.code, [Binary(op)]);
      SimNode(p, s, st, ls, vars, io, vm);
      var vm1 := Pushed(vm, Size(l.code), lv.v, lv.io.out);
      EnvExtend(vm, vm1, s.locals, vars);
      SimNode(p, s, l.st, rs, vars, lv.io, vm1);
      GlueBinary(s.l, vm, l.code, q.code, op, lv.v, rv.v, r.v, lv.io.out, rv.io.out);
    }
  }

  /** A folded constant is the operator's value on the two literals. */
  lemma FoldedValue(p: Program, n: nat, op: BinOp, l: nat, r: nat)
    requires WellFormed(p) && NodesSupported(p) && n < |p.g.nodes| && p.g.nodes[n].kind == BinaryNode(op)
    requires l == CompilerOperand(p.g, n, 0) && r == CompilerOperand(p.g, n, 1) && l != INVALID && r != INVALID
    requires TryFoldBinary(p.g, l, r, op).Some?
    ensures p.g.nodes[l].kind.ConstInt? && p.g.nodes[r].kind.ConstInt?
    ensures TryFoldBinary(p.g, l, r, op) == MachineBinary(op, I64(p.g.nodes[l].kind.i), I64(p.g.nodes[r].kind.i))
  {
    assert NodeSupported(p, n);
    FoldingAgrees(op, p.g.nodes[l].kind.i, p.g.nodes[r].kind.i);
  }

  lemma LiteralValue(p: Program, c: Ctx, vars: Vars, io: Io, n: nat)
    requires WellFormed(p) && c.fp <= Interpreter.FRAMES_MAX && n < |p.g.nodes| && !io.err && !io.returned
    requires Literal(p.g.nodes[n].kind).Some?
    ensures EvalNode(p, c, vars, io, n) == Res(Literal(p.g.nodes[n].kind).value, io)
  {
  }

  lemma {:induction false} UnaryShape(p: Program, c: Ctx, cx: Cx, st: Cst, n: nat, vars: Vars, io: Io)
    requires WellFormed(p) && c.fp <= Interpreter.FRAMES_MAX
    requires n < |p.g.nodes| && p.g.nodes[n].kind.UnaryNode?
    requires !CUnary(p, cx, st, n, p.g.nodes[n].kind.uop).st.err
    requires !io.err && !io.returned && !EvalNode(p, c, vars, io, n).io.err
    ensures var op := p.g.nodes[n].kind.uop; var src := InputSource(p.g, n, "value");
            && src != INVALID && p.rank[src] < p.rank[n]
            && var x := EvalNode(p, c, vars, io, src);
               var o := CUnary(p, cx, st, n, op);
               var r := EvalNode(p, c, vars, io, n);
            && !x.io.err && r.io == x.io && MachineUnary(op, x.v) == Some(r.v)
            && (if TryFoldUnary(p.g, src, op).Some? then o == EmitConst(st, ConstOf(r.v)) && r.io == io
                else var q := CNode(p, cx, st, src); o == Out(q.code + [Unary(op)], EmitOp(q.st, Unary(op))))
  {
    hide Size;
    var op := p.g.nodes[n].kind.uop;
    var src := InputSource(p.g, n, "value");
    RoleBelow(p, n, "value");
    var x := EvalSource(p, c, vars, io, n, src);
    if TryFoldUnary(p.g, src, op).Some? {
      FoldingUnaryAgrees(op, Literal(p.g.nodes[src].kind).value);
      LiteralValue(p, c, vars, io, src);
    }
  }

  lemma {:induction false} SimUnary(p: Program, s: Scope, st: Cst, n: nat, vars: Vars, io: Io, vm: Vm)
    requires Good(p, s) && n < |p.g.nodes| && p.g.nodes[n].kind.UnaryNode?
    requires var o := CUnary(p, s.cx, st, n, p.g.nodes[n].kind.uop); Ready(s, o.code, o.st, vm)
    requires Env(vm, s.locals, vars) && Clean(vm, io)
    requires !EvalNode(p, s.c, vars, io, n).io.err
    ensures var r := EvalNode(p, s.c, vars, io, n);
            Reaches(s.l.img, vm, Pushed(vm, Size(CUnary(p, s.cx, st, n, p.g.nodes[n].kind.uop).code), r.v, r.io.out))
    decreases Interpreter.FRAMES_MAX - s.c.fp, p.rank[n], 2, 0
  {
    hide CodeAt; hide Reaches; hide Env; hide Linked; hide NodesSupported; hide ValuesFed; hide Size;
    hide CUnary; hide CNode; hide EvalNode; hide MachineUnary; hide EmitConst;
    UnaryShape(p, s.c, s.cx, st, n, vars, io);
    var op := p.g.nodes[n].kind.uop;
    var src := InputSource(p.g, n, "value");
    var r := EvalNode(p, s.c, vars, io, n);
    if TryFoldUnary(p.g, src, op).Some? {
      SimConst(s, st, r.v, vm);
    } else {
      var x := EvalNode(p, s.c, vars, io, src);
      var q := CNode(p, s.cx, st, src);
      CodeSplit(s.l, vm.ip, q.code, [Unary(op)]);
      SimNode(p, s, st, src, vars, io, vm);
      GlueUnary(s.l, vm, q.code, x.v, x.io.out, op);
    }
  }

  lemma {:induction false} ShortCircuitShape(p: Program, c: Ctx, cx: Cx, st: Cst, n: nat, vars: Vars, io: Io, isOr: bool)
    requires WellFormed(p) && c.fp <= Interpreter.FRAMES_MAX
    requires n < |p.g.nodes| && p.g.nodes[n].kind == (if isOr then Or else And)
    requires !CShortCircuit(p, cx, st, n, isOr).st.err
    requires !io.err && !io.returned && !EvalNode(p, c, vars, io, n).io.err
    ensures var ls, rs := RoleSource(p.g, n, "lhs"), RoleSource(p.g, n, "rhs");
            && ls != INVALID && rs != INVALID && p.rank[ls] < p.rank[n] && p.rank[rs] < p.rank[n]
            && var x := EvalNode(p, c, vars, io, ls);
               var l := CNode(p, cx, st, ls); var q := CNode(p, cx, AfterTest(l.st, isOr), rs);
            && !x.io.err
            && EvalNode(p, c, vars, io, n) == (if Truthy(x.v) == isOr then x else EvalNode(p, c, vars, x.io, rs))
            && CShortCircuit(p, cx, st, n, isOr) == Out(l.code + [Dup, SkipJump(isOr, 1 + Size(q.code)), Pop] + q.code, q.st)
  {
    hide Size; hide Ranked; hide Indexed; hide RoleSource; hide CKind; hide EvalCall;
    var ls, rs := RoleSource(p.g, n, "lhs"), RoleSource(p.g, n, "rhs");
    RoleBelow(p, n, "lhs");
    RoleBelow(p, n, "rhs");
    assert EvalNode(p, c, vars, io, n) == EvalShortCircuit(p, c, vars, io, n, isOr);
    var x := EvalSource(p, c, vars, io, n, ls);
    if Truthy(x.v) != isOr {
      var y := EvalSource(p, c, vars, x.io, n, rs);
    }
  }

  lemma {:induction false} SimShortCircuit(p: Program, s: Scope, st: Cst, n: nat, vars: Vars, io: Io, vm: Vm, isOr: bool)
    requires Good(p, s) && n < |p.g.nodes| && p.g.nodes[n].kind == (if isOr then Or else And)
    requires var o := CShortCircuit(p, s.cx, st, n, isOr); Ready(s, o.code, o.st, vm)
    requires Env(vm, s.locals, vars) && Clean(vm, io)
    requires !EvalNode(p, s.c, vars, io, n).io.err
    ensures var r := EvalNode(p, s.c, vars, io, n);
            Reaches(s.l.img, vm, Pushed(vm, Size(CShortCircuit(p, s.cx, st, n, isOr).code), r.v, r.io.out))
    decreases Interpreter.FRAMES_MAX - s.c.fp, p.rank[n], 2, 0
  {
    hide CodeAt; hide Reaches; hide Env; hide Linked; hide NodesSupported; hide ValuesFed; hide Size;
    hide CShortCircuit; hide CNode; hide EvalNode;
    ShortCircuitShape(p, s.c, s.cx, st, n, vars, io, isOr);
    var ls, rs := RoleSource(p.g, n, "lhs"), RoleSource(p.g, n, "rhs");
    var res := EvalNode(p, s.c, vars, io, n);
    var x := EvalNode(p, s.c, vars, io, ls);
    var l := CNode(p, s.cx, st, ls);
    var q := CNode(p, s.cx, AfterTest(l.st, isOr), rs);
    ShortCircuitLayout(s.l, vm.ip, l.code, SkipJump(isOr, 1 + Size(q.code)), q.code);
    SimNode(p, s, st, ls, vars, io, vm);
    if Truthy(x.v) != isOr {
      var vm1 := vm.(ip := vm.ip + Size(l.code) + 7, out := x.io.out);
      EnvExtend(vm, vm1, s.locals, vars);
      SimNode(p, s, AfterTest(l.st, isOr), rs, vars, x.io, vm1);
    }
    GlueShortCircuit(s.l, vm, Size(l.code), isOr, Size(q.code), x.v, x.io.out, res.v, res.io.out);
  }

  // ----- Calls -----

  /** Calls resolve to the same definition on both sides. */
  lemma {:induction false} FuncIndex(g: Graph, name: string, i: nat)
    requires i <= |g.nodes| <= INVALID
    ensures var ids := FuncIds(g, i); var f := FindName(Names(g, ids), name);
            FuncFrom(g, name, i) == if f < |ids| then ids[f] else INVALID
    decreases |g.nodes| - i
  {
    hide Names;
    if i < |g.nodes| {
      FuncIndex(g, name, i + 1);
      if g.nodes[i].kind.FuncDef? {
        var rest := FuncIds(g, i + 1);
        NamesCons(g, i, rest);
        var x := g.nodes[i].kind.name;
        assert ([x] + Names(g, rest))[1..] == Names(g, rest);
      }
    } else {
      assert FuncIds(g, i) == [];
    }
  }

  lemma NamesCons(g: Graph, f: nat, ids: seq<nat>)
    requires f < |g.nodes| && g.nodes[f].kind.FuncDef?
    requires forall k :: 0 <= k < |ids| ==> ids[k] < |g.nodes| && g.nodes[ids[k]].kind.FuncDef?
    ensures Names(g, [f] + ids) == [g.nodes[f].kind.name] + Names(g, ids)
  {
  }

  lemma {:induction false} ArgsShape(p: Program, c: Ctx, cx: Cx, st: Cst, n: nat, ports: seq<nat>, vars: Vars, io: Io)
    requires WellFormed(p) && c.fp <= Interpreter.FRAMES_MAX && n < |p.g.nodes| && ports != []
    requires forall k :: 0 <= k < |ports| ==> SourceBelow(p, n, ports[k]) && FindSource(p.g, ports[k]) != INVALID
    requires !EvalArgs(p, c, vars, io, n, ports).io.err && !io.returned
    ensures var src := FindSource(p.g, ports[0]);
            && src < |p.g.nodes| && p.rank[src] < p.rank[n]
            && var v := EvalNode(p, c, vars, io, src); var r := EvalArgs(p, c, vars, v.io, n, ports[1..]);
               var o := CNode(p, cx, st, src); var rest := CArgs(p, cx, o.st, n, ports[1..]);
            && !v.io.err && !r.io.err && !v.io.returned
            && EvalArgs(p, c, vars, io, n, ports) == ArgsRes([v.v] + r.vs, r.io)
            && CArgs(p, cx, st, n, ports) == ArgsOut(o.code + rest.code, rest.st, 1 + rest.argc)
  {
    assert SourceBelow(p, n, ports[0]);
  }

  lemma {:induction false} SimArgs(p: Program, s: Scope, st: Cst, n: nat, ports: seq<nat>, vars: Vars, io: Io, vm: Vm)
    requires Good(p, s) && n < |p.g.nodes|
    requires forall k :: 0 <= k < |ports| ==> SourceBelow(p, n, ports[k]) && FindSource(p.g, ports[k]) != INVALID
    requires var o := CArgs(p, s.cx, st, n, ports); Ready(s, o.code, o.st, vm)
    requires Env(vm, s.locals, vars) && Clean(vm, io)
    requires !EvalArgs(p, s.c, vars, io, n, ports).io.err
    ensures CArgs(p, s.cx, st, n, ports).argc == |ports|
    ensures var r := EvalArgs(p, s.c, vars, io, n, ports);
            Reaches(s.l.img, vm, vm.(ip := vm.ip + Size(CArgs(p, s.cx, st, n, ports).code), stack := vm.stack + r.vs, out := r.io.out))
    decreases Interpreter.FRAMES_MAX - s.c.fp, p.rank[n], 1, |ports|, 1
  {
    hide CodeAt; hide Reaches; hide Env; hide Linked; hide NodesSupported; hide ValuesFed; hide CNode; hide EvalNode;
    if ports == [] {
      ReachesSelf(s.l.img, vm);
      assert vm.stack + [] == vm.stack;
    } else {
      SimArgsCons(p, s, st, n, ports, vars, io, vm);
    }
  }

  lemma {:induction false} SimArgsCons(p: Program, s: Scope, st: Cst, n: nat, ports: seq<nat>, vars: Vars, io: Io, vm: Vm)
    requires Good(p, s) && n < |p.g.nodes| && ports != []
    requires forall k :: 0 <= k < |ports| ==> SourceBelow(p, n, ports[k]) && FindSource(p.g, ports[k]) != INVALID
    requires var o := CArgs(p, s.cx, st, n, ports); Ready(s, o.code, o.st, vm)
    requires Env(vm, s.locals, vars) && Clean(vm, io)
    requires !EvalArgs(p, s.c, vars, io, n, ports).io.err
    ensures CArgs(p, s.cx, st, n, ports).argc == |ports|
    ensures var r := EvalArgs(p, s.c, vars, io, n, ports);
            Reaches(s.l.img, vm, vm.(ip := vm.ip + Size(CArgs(p, s.cx, st, n, ports).code), stack := vm.stack + r.vs, out := r.io.out))
    decreases Interpreter.FRAMES_MAX - s.c.fp, p.rank[n], 1, |ports|, 0
  {
    hide CodeAt; hide Reaches; hide Env; hide Linked; hide NodesSupported; hide ValuesFed; hide Size;
    hide CArgs; hide CNode; hide EvalNode; hide EvalArgs;
    ArgsShape(p, s.c, s.cx, st, n, ports, vars, io);
    var src := FindSource(p.g, ports[0]);
    var v := EvalNode(p, s.c, vars, io, src);
    var o := CNode(p, s.cx, st, src);
    var rest := CArgs(p, s.cx, o.st, n, ports[1..]);
    CodeSplit(s.l, vm.ip, o.code, rest.code);
    SimNode(p, s, st, src, vars, io, vm);
    var vm1 := Pushed(vm, Size(o.code), v.v, v.io.out);
    EnvExtend(vm, vm1, s.locals, vars);
    SimArgs(p, s, o.st, n, ports[1..], vars, v.io, vm1);
    var r := EvalArgs(p, s.c, vars, v.io, n, ports[1..]);
    var vm2 := vm1.(ip := vm1.ip + Size(rest.code), stack := vm1.stack + r.vs, out := r.io.out);
    assert vm.stack + ([v.v] + r.vs) == vm1.stack + r.vs;
    ReachesTrans(s.l.img, vm, vm1, vm2);
  }

  lemma {:induction false} CallShape(p: Program, s: Scope, st: Cst, n: nat, vars: Vars, io: Io)
    requires Good(p, s) && n < |p.g.nodes| && p.g.nodes[n].kind.FuncCall?
    requires !CCall(p, s.cx, st, n, p.g.nodes[n].kind.name).st.err
    requires !io.err && !io.returned && !EvalNode(p, s.c, vars, io, n).io.err
    ensures var name := p.g.nodes[n].kind.name; var ports := ArgPorts(p.g, n); var f := FindName(s.l.names, name);
            && (forall k :: 0 <= k < |ports| ==> SourceBelow(p, n, ports[k]) && FindSource(p.g, ports[k]) != INVALID)
            && f < |s.l.ids| && s.l.ids[f] < |p.g.nodes| && DefinesFunc(p.g, s.l.ids[f], name)
            && |ports| == p.g.nodes[s.l.ids[f]].kind.arity
            && s.c.fp < Interpreter.FRAMES_MAX
            && var a := CArgs(p, s.cx, st, n, ports); var args := EvalArgs(p, s.c, vars, io, n, ports);
               var body := EvalBody(p, Ctx(s.c.fp + 1, s.c.outer + |vars|), args.io, s.l.ids[f], args.vs);
            && !args.io.err && !body.io.err
            && CCall(p, s.cx, st, n, name) == Out(a.code + [Call(f, a.argc)], EmitCall(a.st, a.argc))
            && EvalNode(p, s.c, vars, io, n) == Res(body.io.result, body.io.(returned := false))
  {
    hide Linked; hide NodesSupported; hide ValuesFed; hide CArgs; hide EvalArgs; hide EvalBody;
    var name := p.g.nodes[n].kind.name;
    CallFacts(p, s, n, name);
    assert EvalNode(p, s.c, vars, io, n) == EvalCall(p, s.c, vars, io, n, name);
  }

  lemma {:induction false} SimCall(p: Program, s: Scope, st: Cst, n: nat, vars: Vars, io: Io, vm: Vm)
    requires Good(p, s) && n < |p.g.nodes| && p.g.nodes[n].kind.FuncCall?
    requires var o := CCall(p, s.cx, st, n, p.g.nodes[n].kind.name); Ready(s, o.code, o.st, vm)
    requires Env(vm, s.locals, vars) && Clean(vm, io)
    requires !EvalNode(p, s.c, vars, io, n).io.err
    ensures var r := EvalNode(p, s.c, vars, io, n);
            Reaches(s.l.img, vm, Pushed(vm, Size(CCall(p, s.cx, st, n, p.g.nodes[n].kind.name).code), r.v, r.io.out))
    decreases Interpreter.FRAMES_MAX - s.c.fp, p.rank[n], 2, 0
  {
    hide CodeAt; hide Reaches; hide Env; hide Linked; hide NodesSupported; hide ValuesFed; hide Size;
    hide CArgs; hide CCall; hide EvalNode; hide EvalArgs; hide EvalBody;
    CallShape(p, s, st, n, vars, io);
    var ports := ArgPorts(p.g, n);
    var f := FindName(s.l.names, p.g.nodes[n].kind.name);
    var a := CArgs(p, s.cx, st, n, ports);
    var args := EvalArgs(p, s.c, vars, io, n, ports);
    CodeSplit(s.l, vm.ip, a.code, [Call(f, a.argc)]);
    OneSize(Call(f, a.argc));
    var body := EvalBody(p, Ctx(s.c.fp + 1, s.c.outer + |vars|), args.io, s.l.ids[f], args.vs);
    SimArgs(p, s, st, n, ports, vars, io, vm);
    var vm1 := vm.(ip := vm.ip + Size(a.code), out := args.io.out);
    SimBody(p, s, f, args.vs, s.c.outer + |vars|, args.io, vm1);
    ReachesTrans(s.l.img, vm, vm1.(stack := vm.stack + args.vs), Pushed(vm1, 5, body.io.result, body.io.out));
  }

  /** What the supported calls give: connected arguments, a definition, a matching arity. */
  lemma CallFacts(p: Program, s: Scope, n: nat, name: string)
    requires Good(p, s) && n < |p.g.nodes| && p.g.nodes[n].kind == FuncCall(name)
    ensures var ports := ArgPorts(p.g, n);
            |ports| <= 16 && forall k :: 0 <= k < |ports| ==> SourceBelow(p, n, ports[k]) && FindSource(p.g, ports[k]) != INVALID
    ensures var f := FindName(s.l.names, name);
            FindFunc(p.g, name) == (if f < |s.l.ids| then s.l.ids[f] else INVALID) && |s.l.ids| == |s.l.names| &&
            (f < |s.l.ids| ==> s.l.ids[f] < |p.g.nodes| && DefinesFunc(p.g, s.l.ids[f], name) &&
                               |ArgPorts(p.g, n)| == p.g.nodes[s.l.ids[f]].kind.arity)
  {
    assert NodeSupported(p, n);
    ArgsBelow(p, n);
    FuncIndex(p.g, name, 0);
  }

  // ----- Function bodies -----

  /** After binding, each variable is a parameter with its argument, or was there before. */
  ghost predicate BoundParam(params: seq<string>, args: seq<Value>, before: Vars, after: Vars, name: string) {
    FindVar(after, name) >= 0 ==>
      var i := FindName(params, name);
      if i < |params| then i < |args| && after[FindVar(after, name)].1 == args[i]
      else FindVar(before, name) >= 0 && after[FindVar(after, name)].1 == before[FindVar(before, name)].1
  }

  lemma {:induction false} BindParamsBinds(g: Graph, outer: nat, st: State, ms: seq<nat>, args: seq<Value>)
    requires forall k :: 0 <= k < |ms| ==> ms[k] < |g.nodes|
    requires |args| == |Params(g, ms)| && Distinct(Params(g, ms))
    requires !BindParams(g, outer, st, ms, args).io.err
    ensures BindParams(g, outer, st, ms, args).io == st.io
    ensures forall name :: BoundParam(Params(g, ms), args, st.vars, BindParams(g, outer, st, ms, args).vars, name)
    decreases ms
  {
    if ms == [] || args == [] {
      assert Params(g, ms) == [];
    } else if g.nodes[ms[0]].kind.Param? {
      var x := g.nodes[ms[0]].kind.name;
      var mid := SetVar(outer, st, x, args[0]);
      var rest := Params(g, ms[1..]);
      assert Params(g, ms) == [x] + rest;
      assert Distinct(rest) by {
        forall i, j | 0 <= i < j < |rest| ensures rest[i] != rest[j] {
          assert ([x] + rest)[i + 1] != ([x] + rest)[j + 1];
        }
      }
      BindParamsBinds(g, outer, mid, ms[1..], args[1..]);
      SetVarLooksUp(outer, st, x, args[0]);
      var after := BindParams(g, outer, st, ms, args).vars;
      forall k | 0 <= k < |rest| ensures rest[k] != x {
        assert Params(g, ms)[0] != Params(g, ms)[k + 1];
      }
      forall name ensures BoundParam([x] + rest, args, st.vars, after, name) {
        assert BoundParam(rest, args[1..], mid.vars, after, name);
        assert ([x] + rest)[1..] == rest;
      }
    } else {
      BindParamsBinds(g, outer, st, ms[1..], args);
    }
  }

  /** The callee's frame holds the parameters in their slots. */
  lemma {:induction false} EnterEnv(vm: Vm, f: nat, rec: FuncRecord, params: seq<string>, locals: seq<string>,
                                    args: seq<Value>, vars: Vars)
    requires params <= locals && Distinct(locals) && |args| == |params| && rec.localCount == |locals|
    requires forall name :: BoundParam(params, args, [], vars, name)
    ensures Env(Entered(vm, f, rec, args), locals, vars)
    ensures Base(Entered(vm, f, rec, args)) == |vm.stack|
    ensures |Entered(vm, f, rec, args).stack| == |vm.stack| + |locals|
  {
    var e := Entered(vm, f, rec, args);
    forall name ensures Bound(e, locals, vars, name) {
      assert BoundParam(params, args, [], vars, name);
      if FindVar(vars, name) >= 0 {
        var i := FindName(params, name);
        assert locals[i] == name;
        SlotOf(locals, i);
        assert e.stack[|vm.stack| + i] == args[i];
      }
    }
  }

  /** What linking and support give for a callee. */
  lemma {:induction false} CalleeFacts(p: Program, s: Scope, f: nat)
    requires Good(p, s) && f < |s.l.ids|
    ensures |s.l.starts| == |s.l.ids| && f + s.l.d < |s.l.img.functions|
    ensures s.l.ids[f] < |p.g.nodes| && p.g.nodes[s.l.ids[f]].kind.FuncDef?
    ensures FuncLinked(p, s.l, f)
    ensures var body := p.g.nodes[s.l.ids[f]].kind.body; var params := FuncParams(p, s.l.ids[f]);
            var o := CBody(p, Cx(s.l.names, f), s.l.starts[f], s.l.ids[f]);
            && RegionBelow(p, body, p.top)
            && p.g.nodes[s.l.ids[f]].kind.arity == |params|
            && params <= o.st.locals && Distinct(o.st.locals)
            && MustReturnIn(p, body, p.top) && NoOutputIn(p.g, body)
  {
    var n := s.l.ids[f];
    assert FuncLinked(p, s.l, f);
    assert NodeSupported(p, n);
    var body := p.g.nodes[n].kind.body;
    WholeRegionBelow(p, body);
    RegionLocals(p, Cx(s.l.names, f), EnterFunction(p, s.l.starts[f], n), body, p.top);
  }

  lemma DistinctPrefix(a: seq<string>, b: seq<string>)
    requires a <= b && Distinct(b)
    ensures Distinct(a)
  {
    forall i, j | 0 <= i < j < |a| ensures a[i] != a[j] {
      assert a[i] == b[i] && a[j] == b[j];
    }
  }

  lemma {:induction false} SimBody(p: Program, s: Scope, f: nat, args: seq<Value>, outer: nat, io: Io, vm: Vm)
    requires Good(p, s) && f < |s.l.ids| && s.c.fp < Interpreter.FRAMES_MAX
    requires s.l.ids[f] < |p.g.nodes| && p.g.nodes[s.l.ids[f]].kind.FuncDef? && |args| == p.g.nodes[s.l.ids[f]].kind.arity
    requires Alive(vm) && |vm.frames| == s.c.fp + 1 && CodeAt(s.l, vm.ip, [Call(f, |args|)]) && Clean(vm, io)
    requires !EvalBody(p, Ctx(s.c.fp + 1, outer), io, s.l.ids[f], args).io.err
    ensures var r := EvalBody(p, Ctx(s.c.fp + 1, outer), io, s.l.ids[f], args);
            Reaches(s.l.img, vm.(stack := vm.stack + args), Pushed(vm, 5, r.io.result, r.io.out))
    decreases Interpreter.FRAMES_MAX - s.c.fp - 1, p.top, 4, 0
  {
    hide CodeAt; hide Reaches; hide Env; hide NodesSupported; hide ValuesFed; hide Size; hide Linked;
    hide ExecRegion; hide CRegion; hide MustReturnIn; hide BindParams;
    var n := s.l.ids[f];
    var body := p.g.nodes[n].kind.body;
    CalleeFacts(p, s, f);
    var c := Ctx(s.c.fp + 1, outer);
    var start := EnterFunction(p, s.l.starts[f], n);
    var o := CRegion(p, Cx(s.l.names, f), start, body, p.top);
    var ms := Members(p.g, body);
    var params := FuncParams(p, n);
    var bound := BindParams(p.g, outer, State([], io), ms, args);
    var enter := bound.(io := bound.io.(returned := false));
    var r := ExecRegion(p, c, enter, body, p.top);
    assert EvalBody(p, c, io, n, args) == r;
    DistinctPrefix(params, o.st.locals);
    BindParamsBinds(p.g, outer, State([], io), ms, args);
    var rec := s.l.img.functions[f + s.l.d];
    var vm1 := Entered(vm, f + s.l.d, rec, args);
    EnterEnv(vm, f + s.l.d, rec, params, o.st.locals, args, bound.vars);
    StepCall(s.l, vm, f, args);
    var s1 := Scope(s.l, Cx(s.l.names, f), o.st.locals, c);
    var vm2 := SimRegion(p, s1, start, body, p.top, enter, vm1);
    MustReturnRegion(p, c, enter, body, p.top);
    assert vm2 == Pushed(vm, 5, r.io.result, r.io.out) by {
      assert vm1.frames[..|vm1.frames| - 1] == vm.frames;
      assert vm1.stack[..|vm.stack|] == vm.stack;
    }
    ReachesTrans(s.l.img, vm.(stack := vm.stack + args), vm1, vm2);
  }

  // ----- Statements -----

  /** The frame is between statements: exactly its locals are on top of the stack. */
  ghost predicate Level(s: Scope, vm: Vm, st: State) {
    && Env(vm, s.locals, st.vars)
    && |vm.stack| == Base(vm) + |s.locals|
    && Clean(vm, st.io)
  }

  /** Members as the statement loops expect them. */
  ghost predicate Runnable(p: Program, s: Scope, m: nat, bound: nat)
    requires WellFormed(p)
  {
    MemberBelow(p, m, bound) && !p.g.nodes[m].kind.RootOutput? && (s.c.fp == 0 ==> !MayReturn(p, m))
  }

  lemma {:induction false} SimRegion(p: Program, s: Scope, st: Cst, r: nat, bound: nat, S: State, vm: Vm) returns (vm': Vm)
    requires Good(p, s) && RegionBelow(p, r, bound) && NoOutputIn(p.g, r)
    requires s.c.fp == 0 ==> !MayReturnIn(p, r, bound)
    requires var o := CRegion(p, s.cx, st, r, bound); Ready(s, o.code, o.st, vm)
    requires Level(s, vm, S) && !ExecRegion(p, s.c, S, r, bound).io.err
    ensures Ran(s, vm, vm', Size(CRegion(p, s.cx, st, r, bound).code), ExecRegion(p, s.c, S, r, bound))
    decreases Interpreter.FRAMES_MAX - s.c.fp, bound, 1, |Members(p.g, r)| + 1
  {
    hide CodeAt; hide Reaches; hide Env; hide NodesSupported; hide ValuesFed; hide Linked;
    hide ExecMembers; hide CMembers;
    if r == INVALID {
      ReachesSelf(s.l.img, vm);
      vm' := vm;
    } else {
      var ms := Members(p.g, r);
      forall k | 0 <= k < |ms| ensures Runnable(p, s, ms[k], bound) {
        assert MemberBelow(p, ms[k], bound);
      }
      vm' := SimMembers(p, s, st, ms, bound, S, vm);
    }
  }

  lemma {:induction false} SimMembers(p: Program, s: Scope, st: Cst, ms: seq<nat>, bound: nat, S: State, vm: Vm) returns (vm': Vm)
    requires Good(p, s) && (forall k :: 0 <= k < |ms| ==> Runnable(p, s, ms[k], bound))
    requires forall k :: 0 <= k < |ms| ==> MemberBelow(p, ms[k], bound)
    requires var o := CMembers(p, s.cx, st, ms, bound); Ready(s, o.code, o.st, vm)
    requires Level(s, vm, S) && !ExecMembers(p, s.c, S, ms, bound).io.err
    ensures Ran(s, vm, vm', Size(CMembers(p, s.cx, st, ms, bound).code), ExecMembers(p, s.c, S, ms, bound))
    decreases Interpreter.FRAMES_MAX - s.c.fp, bound, 1, |ms|, 1
  {
    if ms == [] {
      ReachesSelf(s.l.img, vm);
      vm' := vm;
    } else {
      vm' := SimMembersCons(p, s, st, ms, bound, S, vm);
    }
  }

  /** One member, then the rest; a return skips the rest. */
  lemma {:induction false} MembersShape(p: Program, c: Ctx, cx: Cx, st: Cst, ms: seq<nat>, bound: nat, S: State)
    requires WellFormed(p) && c.fp <= Interpreter.FRAMES_MAX && ms != []
    requires forall k :: 0 <= k < |ms| ==> MemberBelow(p, ms[k], bound)
    requires !S.io.err && !S.io.returned && !ExecMembers(p, c, S, ms, bound).io.err
    ensures var m := Member(p, cx, st, ms[0], bound); var rest := CMembers(p, cx, m.st, ms[1..], bound);
            var next := ExecMember(p, c, S, ms[0], bound);
            && CMembers(p, cx, st, ms, bound) == Out(m.code + rest.code, rest.st)
            && !next.io.err
            && ExecMembers(p, c, S, ms, bound) == ExecMembers(p, c, next, ms[1..], bound)
            && (next.io.returned ==> ExecMembers(p, c, S, ms, bound) == next)
  {
    assert MemberBelow(p, ms[0], bound);
    InertStmt(p, c, S, ms[0]);
  }

  function Member(p: Program, cx: Cx, st: Cst, m: nat, bound: nat): Out
    requires WellFormed(p) && MemberBelow(p, m, bound)
  {
    if p.g.nodes[m].kind.Param? || IsExprNode(p.g.nodes[m].kind) then Out([], st) else CNode(p, cx, st, m)
  }

  function ExecMember(p: Program, c: Ctx, S: State, m: nat, bound: nat): State
    requires WellFormed(p) && MemberBelow(p, m, bound) && c.fp <= Interpreter.FRAMES_MAX
  {
    if p.g.nodes[m].kind.Param? || IsExprNode(p.g.nodes[m].kind) then S else ExecStmt(p, c, S, m)
  }

  lemma InertStmt(p: Program, c: Ctx, S: State, n: nat)
    requires WellFormed(p) && n < |p.g.nodes| && c.fp <= Interpreter.FRAMES_MAX
    ensures Inert(p.g.nodes[n].kind) ==> ExecStmt(p, c, S, n) == S
  {
  }

  lemma {:induction false} SimMember(p: Program, s: Scope, st: Cst, m: nat, bound: nat, S: State, vm: Vm) returns (vm': Vm)
    requires Good(p, s) && Runnable(p, s, m, bound)
    requires var o := Member(p, s.cx, st, m, bound); Ready(s, o.code, o.st, vm)
    requires Level(s, vm, S) && !ExecMember(p, s.c, S, m, bound).io.err
    ensures Ran(s, vm, vm', Size(Member(p, s.cx, st, m, bound).code), ExecMember(p, s.c, S, m, bound))
    decreases Interpreter.FRAMES_MAX - s.c.fp, p.rank[m], 6, 0
  {
    hide CodeAt; hide Reaches; hide Env; hide NodesSupported; hide ValuesFed; hide Linked;
    hide ExecStmt; hide CNode;
    if p.g.nodes[m].kind.Param? || IsExprNode(p.g.nodes[m].kind) {
      ReachesSelf(s.l.img, vm);
      vm' := vm;
    } else {
      vm' := SimStmt(p, s, st, m, S, vm);
    }
  }

  lemma {:induction false} SimMembersCons(p: Program, s: Scope, st: Cst, ms: seq<nat>, bound: nat, S: State, vm: Vm) returns (vm': Vm)
    requires Good(p, s) && ms != [] && (forall k :: 0 <= k < |ms| ==> Runnable(p, s, ms[k], bound))
    requires forall k :: 0 <= k < |ms| ==> MemberBelow(p, ms[k], bound)
    requires var o := CMembers(p, s.cx, st, ms, bound); Ready(s, o.code, o.st, vm)
    requires Level(s, vm, S) && !ExecMembers(p, s.c, S, ms, bound).io.err
    ensures Ran(s, vm, vm', Size(CMembers(p, s.cx, st, ms, bound).code), ExecMembers(p, s.c, S, ms, bound))
    decreases Interpreter.FRAMES_MAX - s.c.fp, bound, 1, |ms|, 0
  {
    hide CodeAt; hide Reaches; hide Env; hide NodesSupported; hide ValuesFed; hide Linked; hide Size;
    hide CMembers; hide ExecMembers; hide ExecMember; hide CNode; hide ExecStmt;
    assert Runnable(p, s, ms[0], bound);
    MembersShape(p, s.c, s.cx, st, ms, bound, S);
    var m := Member(p, s.cx, st, ms[0], bound);
    var rest := CMembers(p, s.cx, m.st, ms[1..], bound);
    var next := ExecMember(p, s.c, S, ms[0], bound);
    CodeSplit(s.l, vm.ip, m.code, rest.code);
    var vm1 := SimMember(p, s, st, ms[0], bound, S, vm);
    if next.io.returned {
      vm' := vm1;
    } else {
      vm' := SimMembers(p, s, m.st, ms[1..], bound, next, vm1);
      RanThen(s, vm, vm1, vm', Size(m.code), Size(rest.code), next, ExecMembers(p, s.c, next, ms[1..], bound));
    }
  }

  lemma {:induction false} SimStmt(p: Program, s: Scope, st: Cst, n: nat, S: State, vm: Vm) returns (vm': Vm)
    requires Good(p, s) && n < |p.g.nodes| && Runnable(p, s, n, p.rank[n] + 1)
    requires !p.g.nodes[n].kind.Param? && !IsExprNode(p.g.nodes[n].kind)
    requires var o := CNode(p, s.cx, st, n); Ready(s, o.code, o.st, vm)
    requires Level(s, vm, S) && !ExecStmt(p, s.c, S, n).io.err
    ensures Ran(s, vm, vm', Size(CNode(p, s.cx, st, n).code), ExecStmt(p, s.c, S, n))
    decreases Interpreter.FRAMES_MAX - s.c.fp, p.rank[n], 5, 0
  {
    hide CodeAt; hide Reaches; hide Env; hide NodesSupported; hide ValuesFed; hide Linked; hide Size;
    hide CIf; hide CWhile; hide CCycle; hide CLet; hide CAssign; hide CPrint; hide CReturn;
    var k := p.g.nodes[n].kind;
    if k.Let? {
      vm' := SimLet(p, s, st, n, S, vm);
    } else if k.Assign? {
      vm' := SimAssign(p, s, st, n, S, vm);
    } else if k.Print? {
      vm' := SimPrint(p, s, st, n, S, vm);
    } else if k.ReturnNode? {
      vm' := SimReturn(p, s, st, n, S, vm);
    } else if k.If? {
      vm' := SimIf(p, s, st, n, S, vm);
    } else if k.While? {
      vm' := SimWhile(p, s, st, n, S, LOOP_LIMIT, vm);
    } else if k.Cycle? {
      vm' := SimCycle(p, s, st, n, S, LOOP_LIMIT, vm);
    } else {
      assert k.Sequence? || k.BreakIf?;
      assert CNode(p, s.cx, st, n) == Out([], st);
      EmptySize();
      ReachesSelf(s.l.img, vm);
      vm' := vm;
    }
  }

  lemma EmptySize()
    ensures Size([]) == 0
  {
  }

  /** A statement's value input, compiled and evaluated. */
  lemma ValueConnected(p: Program, n: nat)
    requires WellFormed(p) && NodesSupported(p) && n < |p.g.nodes|
    requires p.g.nodes[n].kind.Let? || p.g.nodes[n].kind.Assign? || p.g.nodes[n].kind.Print?
    ensures var src := InputSource(p.g, n, "value"); src != INVALID && p.rank[src] < p.rank[n]
  {
    assert NodeSupported(p, n);
    RoleBelow(p, n, "value");
  }

  lemma {:induction false} SimLet(p: Program, s: Scope, st: Cst, n: nat, S: State, vm: Vm) returns (vm': Vm)
    requires Good(p, s) && n < |p.g.nodes| && p.g.nodes[n].kind.Let?
    requires var o := CLet(p, s.cx, st, n, p.g.nodes[n].kind.name); Ready(s, o.code, o.st, vm)
    requires Level(s, vm, S) && !ExecStmt(p, s.c, S, n).io.err
    ensures Ran(s, vm, vm', Size(CLet(p, s.cx, st, n, p.g.nodes[n].kind.name).code), ExecStmt(p, s.c, S, n))
    decreases Interpreter.FRAMES_MAX - s.c.fp, p.rank[n], 4, 0
  {
    hide CodeAt; hide Reaches; hide Env; hide NodesSupported; hide ValuesFed; hide Linked; hide Size;
    hide CNode; hide EvalNode; hide SetVar;
    var name := p.g.nodes[n].kind.name;
    var src := InputSource(p.g, n, "value");
    ValueConnected(p, n);
    var v := EvalSource(p, s.c, S.vars, S.io, n, src);
    var c := CSource(p, s.cx, st, n, src);
    var slot := |c.st.locals|;
    var next := SetVar(s.c.outer, State(S.vars, v.io), name, v.v);
    assert ExecStmt(p, s.c, S, n) == next;
    SetVarLooksUp(s.c.outer, State(S.vars, v.io), name, v.v);
    CodeSplit(s.l, vm.ip, c.code, [StoreLocal(slot)]);
    OneSize(StoreLocal(slot));
    SimNode(p, s, st, src, S.vars, S.io, vm);
    assert s.locals[slot] == name;
    SlotOf(s.locals, slot);
    vm' := SimStore(s, vm, S, Size(c.code), slot, name, v.v, v.io, next.vars);
  }

  /** The value is pushed and stored into the slot of a variable. */
  lemma {:induction false} SimStore(s: Scope, vm: Vm, S: State, k: nat, slot: nat, x: string, v: Value, io: Io, vars: Vars) returns (vm': Vm)
    requires Alive(vm) && Distinct(s.locals) && Env(vm, s.locals, S.vars) && |vm.stack| == Base(vm) + |s.locals|
    requires slot < |s.locals| && FindLocal(s.locals, x) == slot && CodeAt(s.l, vm.ip + k, [StoreLocal(slot)])
    requires Reaches(s.l.img, vm, Pushed(vm, k, v, io.out)) && !io.returned
    requires forall name :: FindVar(vars, name) >= 0 ==>
               if name == x then vars[FindVar(vars, name)].1 == v
               else FindVar(S.vars, name) >= 0 && vars[FindVar(vars, name)].1 == S.vars[FindVar(S.vars, name)].1
    ensures Ran(s, vm, vm', k + 3, State(vars, io))
  {
    hide CodeAt; hide Reaches; hide Env;
    var vm1 := vm.(ip := vm.ip + k, out := io.out);
    StepStore(s.l, vm1, slot, v);
    vm' := vm.(ip := vm.ip + k + 3, out := io.out, stack := vm.stack[Base(vm) + slot := v]);
    ReachesTrans(s.l.img, vm, Pushed(vm, k, v, io.out), vm');
    EnvStore(vm, vm', s.locals, S.vars, vars, x, v);
    assert vm'.stack[..Base(vm)] == vm.stack[..Base(vm)];
  }

  lemma {:induction false} SimAssign(p: Program, s: Scope, st: Cst, n: nat, S: State, vm: Vm) returns (vm': Vm)
    requires Good(p, s) && n < |p.g.nodes| && p.g.nodes[n].kind.Assign?
    requires var o := CAssign(p, s.cx, st, n, p.g.nodes[n].kind.name); Ready(s, o.code, o.st, vm)
    requires Level(s, vm, S) && !ExecStmt(p, s.c, S, n).io.err
    ensures Ran(s, vm, vm', Size(CAssign(p, s.cx, st, n, p.g.nodes[n].kind.name).code), ExecStmt(p, s.c, S, n))
    decreases Interpreter.FRAMES_MAX - s.c.fp, p.rank[n], 4, 0
  {
    hide CodeAt; hide Reaches; hide Env; hide NodesSupported; hide ValuesFed; hide Linked; hide Size;
    hide CNode; hide EvalNode;
    var name := p.g.nodes[n].kind.name;
    var src := InputSource(p.g, n, "value");
    ValueConnected(p, n);
    var v := EvalSource(p, s.c, S.vars, S.io, n, src);
    var c := CSource(p, s.cx, st, n, src);
    var slot := FindLocal(c.st.locals, name);
    var i := FindVar(S.vars, name);
    var vars := S.vars[i := (S.vars[i].0, v.v)];
    assert ExecStmt(p, s.c, S, n) == State(vars, v.io);
    UpdateLooksUp(S.vars, name, v.v);
    CodeSplit(s.l, vm.ip, c.code, [StoreLocal(slot)]);
    OneSize(StoreLocal(slot));
    SimNode(p, s, st, src, S.vars, S.io, vm);
    FindLocalPrefix(c.st.locals, s.locals, name);
    vm' := SimStore(s, vm, S, Size(c.code), slot, name, v.v, v.io, vars);
  }

  /** The frame is as it was but for its position and the prints. */
  lemma {:induction false} RanQuiet(s: Scope, a: Vm, b: Vm, k: nat, S: State, io: Io)
    requires Alive(a) && Env(a, s.locals, S.vars) && Reaches(s.l.img, a, b) && !io.returned
    requires b == a.(ip := a.ip + k, out := io.out)
    ensures Ran(s, a, b, k, State(S.vars, io))
  {
    hide Reaches;
    EnvExtend(a, b, s.locals, S.vars);
  }

  lemma {:induction false} SimPrint(p: Program, s: Scope, st: Cst, n: nat, S: State, vm: Vm) returns (vm': Vm)
    requires Good(p, s) && n < |p.g.nodes| && p.g.nodes[n].kind.Print?
    requires var o := CPrint(p, s.cx, st, n); Ready(s, o.code, o.st, vm)
    requires Level(s, vm, S) && !ExecStmt(p, s.c, S, n).io.err
    ensures Ran(s, vm, vm', Size(CPrint(p, s.cx, st, n).code), ExecStmt(p, s.c, S, n))
    decreases Interpreter.FRAMES_MAX - s.c.fp, p.rank[n], 4, 0
  {
    hide CodeAt; hide Reaches; hide Env; hide NodesSupported; hide ValuesFed; hide Linked; hide Size;
    hide CNode; hide EvalNode;
    var src := InputSource(p.g, n, "value");
    ValueConnected(p, n);
    var v := EvalSource(p, s.c, S.vars, S.io, n, src);
    var c := CSource(p, s.cx, st, n, src);
    var i := Intrinsic(INTRINSIC_PRINT, 1);
    assert ExecStmt(p, s.c, S, n) == State(S.vars, v.io.(out := v.io.out + [v.v]));
    CodeSplit(s.l, vm.ip, c.code, [i]);
    OneSize(i);
    SimNode(p, s, st, src, S.vars, S.io, vm);
    var vm1 := vm.(ip := vm.ip + Size(c.code), out := v.io.out);
    StepPrint(s.l, vm1, v.v);
    vm' := vm.(ip := vm.ip + Size(c.code) + 5, out := v.io.out + [v.v]);
    ReachesTrans(s.l.img, vm, Pushed(vm, Size(c.code), v.v, v.io.out), vm');
    RanQuiet(s, vm, vm', Size(c.code) + 5, S, v.io.(out := v.io.out + [v.v]));
  }

  lemma {:induction false} ReturnShape(p: Program, c: Ctx, cx: Cx, st: Cst, n: nat, S: State)
    requires WellFormed(p) && NodesSupported(p) && c.fp <= Interpreter.FRAMES_MAX
    requires n < |p.g.nodes| && p.g.nodes[n].kind.ReturnNode?
    ensures var src := InputSource(p.g, n, "value");
            && (src == INVALID || p.rank[src] < p.rank[n])
            && var v := EvalSource(p, c, S.vars, S.io, n, src);
               var o := if src == INVALID then EmitConst(st, NullConst) else CNode(p, cx, st, src);
            && ExecStmt(p, c, S, n) == State(S.vars, v.io.(result := v.v, returned := true))
            && CReturn(p, cx, st, n) == Out(o.code + [Return], EmitOp(o.st, Return))
  {
    assert NodeSupported(p, n);
    RoleBelow(p, n, "value");
  }

  lemma {:induction false} SimReturn(p: Program, s: Scope, st: Cst, n: nat, S: State, vm: Vm) returns (vm': Vm)
    requires Good(p, s) && n < |p.g.nodes| && p.g.nodes[n].kind.ReturnNode? && s.c.fp > 0
    requires var o := CReturn(p, s.cx, st, n); Ready(s, o.code, o.st, vm)
    requires Level(s, vm, S) && !ExecStmt(p, s.c, S, n).io.err
    ensures Ran(s, vm, vm', Size(CReturn(p, s.cx, st, n).code), ExecStmt(p, s.c, S, n))
    decreases Interpreter.FRAMES_MAX - s.c.fp, p.rank[n], 4, 0
  {
    hide CodeAt; hide Reaches; hide Env; hide NodesSupported; hide ValuesFed; hide Linked; hide Size;
    hide CNode; hide EvalNode; hide CReturn; hide ExecStmt; hide EmitConst;
    ReturnShape(p, s.c, s.cx, st, n, S);
    var src := InputSource(p.g, n, "value");
    var v := EvalSource(p, s.c, S.vars, S.io, n, src);
    var o := if src == INVALID then EmitConst(st, NullConst) else CNode(p, s.cx, st, src);
    CodeSplit(s.l, vm.ip, o.code, [Return]);
    OneSize(Return);
    if src == INVALID {
      SimConst(s, st, Null, vm);
    } else {
      SimNode(p, s, st, src, S.vars, S.io, vm);
    }
    var io := v.io.(result := v.v, returned := true);
    var vm1 := vm.(ip := vm.ip + Size(o.code), out := v.io.out);
    EnvHeight(vm, s.locals, S.vars);
    StepReturn(s.l, vm1, io);
    vm' := Unwound(vm, io);
    assert Unwound(vm1, io) == vm';
    ReachesTrans(s.l.img, vm, Pushed(vm, Size(o.code), v.v, v.io.out), vm');
  }

  lemma EnvHeight(vm: Vm, locals: seq<string>, vars: Vars)
    requires Env(vm, locals, vars)
    ensures vm.frames != [] && Base(vm) + |locals| <= |vm.stack|
  {
  }

  // ----- Control flow -----

  lemma CondConnected(p: Program, n: nat)
    requires WellFormed(p) && NodesSupported(p) && n < |p.g.nodes|
    requires p.g.nodes[n].kind.If? || p.g.nodes[n].kind.While? || p.g.nodes[n].kind.BreakIf?
    ensures var src := RoleSource(p.g, n, "cond");
            src != INVALID && p.rank[src] < p.rank[n] && InputSource(p.g, n, "cond") == src
    ensures forall r :: r in Children(p.g.nodes[n].kind) ==> RegionBelow(p, r, p.rank[n]) && NoOutputIn(p.g, r)
  {
    assert NodeSupported(p, n);
    RoleBelow(p, n, "cond");
    ChildrenBelow(p, n);
    NoSourceOfInvalid(p.g);
  }

  /** A test's code: the condition, then a jump taken when its truth is `ifTrue`. */
  lemma {:induction false} SimTest(p: Program, s: Scope, st: Cst, n: nat, S: State, vm: Vm, ifTrue: bool, offset: nat)
    requires Good(p, s) && n < |p.g.nodes|
    requires p.g.nodes[n].kind.If? || p.g.nodes[n].kind.While? || p.g.nodes[n].kind.BreakIf?
    requires var src := RoleSource(p.g, n, "cond"); src != INVALID && p.rank[src] < p.rank[n]
    requires var c := CNode(p, s.cx, st, RoleSource(p.g, n, "cond"));
             Ready(s, c.code, c.st, vm) && CodeAt(s.l, vm.ip + Size(c.code), [SkipJump(ifTrue, offset)]) &&
             vm.ip + Size(c.code) + 5 + offset < TWO_31
    requires Level(s, vm, S) && !EvalNode(p, s.c, S.vars, S.io, RoleSource(p.g, n, "cond")).io.err
    ensures var src := RoleSource(p.g, n, "cond");
            var v := EvalNode(p, s.c, S.vars, S.io, src); var k := Size(CNode(p, s.cx, st, src).code);
            Reaches(s.l.img, vm, vm.(ip := vm.ip + k + 5 + (if Truthy(v.v) == ifTrue then offset else 0), out := v.io.out))
    decreases Interpreter.FRAMES_MAX - s.c.fp, p.rank[n], 1, 0
  {
    hide CodeAt; hide Reaches; hide Env; hide NodesSupported; hide ValuesFed; hide Linked; hide Size;
    hide CNode; hide EvalNode;
    var src := RoleSource(p.g, n, "cond");
    var v := EvalNode(p, s.c, S.vars, S.io, src);
    var k := Size(CNode(p, s.cx, st, src).code);
    SimNode(p, s, st, src, S.vars, S.io, vm);
    var vm1 := vm.(ip := vm.ip + k, out := v.io.out);
    StepTest(s.l, vm1, ifTrue, offset, v.v);
    ReachesTrans(s.l.img, vm, Pushed(vm, k, v.v, v.io.out),
                 vm.(ip := vm.ip + k + 5 + (if Truthy(v.v) == ifTrue then offset else 0), out := v.io.out));
  }

  lemma {:induction false} IfShape(p: Program, c: Ctx, cx: Cx, st: Cst, n: nat, S: State)
    requires WellFormed(p) && NodesSupported(p) && c.fp <= Interpreter.FRAMES_MAX
    requires n < |p.g.nodes| && p.g.nodes[n].kind.If?
    requires !ExecStmt(p, c, S, n).io.err
    ensures var src := RoleSource(p.g, n, "cond"); var b := p.rank[n];
            var t, e := p.g.nodes[n].kind.thenRegion, p.g.nodes[n].kind.elseRegion;
            && src != INVALID && p.rank[src] < b && RegionBelow(p, t, b) && RegionBelow(p, e, b)
            && NoOutputIn(p.g, t) && NoOutputIn(p.g, e)
            && var v := EvalNode(p, c, S.vars, S.io, src);
               var q := CNode(p, cx, st, src);
               var yes := CRegion(p, cx, EmitOp(q.st, JumpIfFalse(0)), t, b);
               var no := CRegion(p, cx, EmitOp(yes.st, Jump(0)), e, b);
            && !v.io.err
            && ExecStmt(p, c, S, n) == ExecRegion(p, c, State(S.vars, v.io), if Truthy(v.v) then t else e, b)
            && CIf(p, cx, st, n) == Out(q.code + [JumpIfFalse(Size(yes.code) + 5)] + yes.code + [Jump(Size(no.code))] + no.code, no.st)
  {
    hide Size; hide ExecRegion; hide CRegion;
    CondConnected(p, n);
    assert p.g.nodes[n].kind.thenRegion in Children(p.g.nodes[n].kind);
    assert p.g.nodes[n].kind.elseRegion in Children(p.g.nodes[n].kind);
  }

  lemma MayReturnBranches(p: Program, n: nat)
    requires WellFormed(p) && n < |p.g.nodes| && !MayReturn(p, n)
    ensures forall r :: r in Children(p.g.nodes[n].kind) ==> RegionBelow(p, r, p.rank[n]) && !MayReturnIn(p, r, p.rank[n])
  {
    ChildrenBelow(p, n);
  }

  lemma {:induction false} SimIf(p: Program, s: Scope, st: Cst, n: nat, S: State, vm: Vm) returns (vm': Vm)
    requires Good(p, s) && n < |p.g.nodes| && p.g.nodes[n].kind.If? && (s.c.fp == 0 ==> !MayReturn(p, n))
    requires var o := CIf(p, s.cx, st, n); Ready(s, o.code, o.st, vm)
    requires Level(s, vm, S) && !ExecStmt(p, s.c, S, n).io.err
    ensures Ran(s, vm, vm', Size(CIf(p, s.cx, st, n).code), ExecStmt(p, s.c, S, n))
    decreases Interpreter.FRAMES_MAX - s.c.fp, p.rank[n], 4, 0
  {
    hide CodeAt; hide Reaches; hide Env; hide NodesSupported; hide ValuesFed; hide Linked; hide Size;
    hide CNode; hide EvalNode; hide CRegion; hide ExecRegion; hide CIf; hide ExecStmt; hide MayReturn; hide MayReturnIn;
    hide NoOutputIn;
    IfShape(p, s.c, s.cx, st, n, S);
    var src := RoleSource(p.g, n, "cond");
    var t, e := p.g.nodes[n].kind.thenRegion, p.g.nodes[n].kind.elseRegion;
    var v := EvalNode(p, s.c, S.vars, S.io, src);
    var q := CNode(p, s.cx, st, src);
    var yes := CRegion(p, s.cx, EmitOp(q.st, JumpIfFalse(0)), t, p.rank[n]);
    var no := CRegion(p, s.cx, EmitOp(yes.st, Jump(0)), e, p.rank[n]);
    BranchLayout(s.l, vm.ip, q.code, JumpIfFalse(Size(yes.code) + 5), yes.code, Jump(Size(no.code)), no.code);
    SimTest(p, s, st, n, S, vm, false, Size(yes.code) + 5);
    if s.c.fp == 0 {
      MayReturnBranches(p, n);
      assert t in Children(p.g.nodes[n].kind) && e in Children(p.g.nodes[n].kind);
    }
    var mid := State(S.vars, v.io);
    if Truthy(v.v) {
      var k := Size(q.code) + 5;
      var vm1 := vm.(ip := vm.ip + k, out := v.io.out);
      RanQuiet(s, vm, vm1, k, S, v.io);
      var vm2 := SimRegion(p, s, EmitOp(q.st, JumpIfFalse(0)), t, p.rank[n], mid, vm1);
      RanThen(s, vm, vm1, vm2, k, Size(yes.code), mid, ExecStmt(p, s.c, S, n));
      vm' := RanJump(s, vm, vm2, k + Size(yes.code), Size(no.code), ExecStmt(p, s.c, S, n));
    } else {
      var k := Size(q.code) + Size(yes.code) + 10;
      var vm1 := vm.(ip := vm.ip + k, out := v.io.out);
      RanQuiet(s, vm, vm1, k, S, v.io);
      vm' := SimRegion(p, s, EmitOp(yes.st, Jump(0)), e, p.rank[n], mid, vm1);
      RanThen(s, vm, vm1, vm', k, Size(no.code), mid, ExecStmt(p, s.c, S, n));
    }
  }

  /** A jump after statements that did not return. */
  lemma {:induction false} RanJump(s: Scope, a: Vm, b: Vm, k: nat, offset: int, st: State) returns (c: Vm)
    requires Alive(a) && Base(a) <= |a.stack| && Ran(s, a, b, k, st)
    requires CodeAt(s.l, a.ip + k, [Jump(offset)]) && 0 <= a.ip + k + 5 + offset < TWO_31 && 0 <= k + 5 + offset
    ensures Ran(s, a, c, k + 5 + offset, st)
  {
    hide CodeAt; hide Reaches;
    if st.io.returned {
      c := b;
    } else {
      StepJump(s.l, b, offset);
      c := b.(ip := b.ip + 5 + offset);
      ReachesTrans(s.l.img, a, b, c);
      EnvExtend(b, c, s.locals, st.vars);
    }
  }

  lemma {:induction false} WhileShape(p: Program, c: Ctx, cx: Cx, st: Cst, n: nat, S: State, left: nat)
    requires WellFormed(p) && NodesSupported(p) && c.fp <= Interpreter.FRAMES_MAX
    requires n < |p.g.nodes| && p.g.nodes[n].kind.While?
    requires !S.io.err && !S.io.returned && !ExecWhile(p, c, S, n, left).io.err
    ensures left > 0
    ensures var src := RoleSource(p.g, n, "cond"); var body := p.g.nodes[n].kind.body; var b := p.rank[n];
            && src != INVALID && p.rank[src] < b && RegionBelow(p, body, b) && NoOutputIn(p.g, body)
            && var v := EvalNode(p, c, S.vars, S.io, src);
               var mid := ExecRegion(p, c, State(S.vars, v.io), body, b);
               var q := CNode(p, cx, st, src);
               var o := CRegion(p, cx, EmitOp(q.st, JumpIfFalse(0)), body, b);
               var back := Jump(-(Size(q.code) + Size(o.code) + 10));
            && !v.io.err
            && CWhile(p, cx, st, n) == Out(q.code + [JumpIfFalse(Size(o.code) + 5)] + o.code + [back], EmitOp(o.st, back))
            && (if Truthy(v.v)
                then !mid.io.err && ExecWhile(p, c, S, n, left) == ExecWhile(p, c, mid, n, left - 1) &&
                     (mid.io.returned ==> ExecWhile(p, c, S, n, left) == mid)
                else ExecWhile(p, c, S, n, left) == State(S.vars, v.io))
  {
    hide Size; hide ExecRegion; hide CRegion;
    CondConnected(p, n);
    assert p.g.nodes[n].kind.body in Children(p.g.nodes[n].kind);
    if left > 0 {
      var v := EvalSource(p, c, S.vars, S.io, n, InputSource(p.g, n, "cond"));
      if Truthy(v.v) {
        var mid := ExecRegion(p, c, State(S.vars, v.io), p.g.nodes[n].kind.body, p.rank[n]);
        assert ExecWhile(p, c, S, n, left) == ExecWhile(p, c, mid, n, left - 1);
      }
    }
  }

  lemma {:induction false} SimWhile(p: Program, s: Scope, st: Cst, n: nat, S: State, left: nat, vm: Vm) returns (vm': Vm)
    requires Good(p, s) && n < |p.g.nodes| && p.g.nodes[n].kind.While? && (s.c.fp == 0 ==> !MayReturn(p, n))
    requires var o := CWhile(p, s.cx, st, n); Ready(s, o.code, o.st, vm)
    requires Level(s, vm, S) && !ExecWhile(p, s.c, S, n, left).io.err
    ensures Ran(s, vm, vm', Size(CWhile(p, s.cx, st, n).code), ExecWhile(p, s.c, S, n, left))
    decreases Interpreter.FRAMES_MAX - s.c.fp, p.rank[n], 4, left
  {
    hide CodeAt; hide Reaches; hide Env; hide NodesSupported; hide ValuesFed; hide Linked; hide Size;
    hide CNode; hide EvalNode; hide CRegion; hide ExecRegion; hide CWhile; hide ExecWhile; hide MayReturn; hide MayReturnIn;
    hide NoOutputIn;
    WhileShape(p, s.c, s.cx, st, n, S, left);
    var src := RoleSource(p.g, n, "cond");
    var body := p.g.nodes[n].kind.body;
    var v := EvalNode(p, s.c, S.vars, S.io, src);
    var q := CNode(p, s.cx, st, src);
    var o := CRegion(p, s.cx, EmitOp(q.st, JumpIfFalse(0)), body, p.rank[n]);
    var back := -(Size(q.code) + Size(o.code) + 10);
    var whole := Size(q.code) + Size(o.code) + 10;
    LoopLayout(s.l, vm.ip, q.code, JumpIfFalse(Size(o.code) + 5), o.code, Jump(back));
    SimTest(p, s, st, n, S, vm, false, Size(o.code) + 5);
    if Truthy(v.v) {
      if s.c.fp == 0 {
        MayReturnBranches(p, n);
        assert body in Children(p.g.nodes[n].kind);
      }
      var k := Size(q.code) + 5;
      var vm1 := vm.(ip := vm.ip + k, out := v.io.out);
      var mid := ExecRegion(p, s.c, State(S.vars, v.io), body, p.rank[n]);
      RanQuiet(s, vm, vm1, k, S, v.io);
      var vm2 := SimRegion(p, s, EmitOp(q.st, JumpIfFalse(0)), body, p.rank[n], State(S.vars, v.io), vm1);
      RanThen(s, vm, vm1, vm2, k, Size(o.code), State(S.vars, v.io), mid);
      var vm3 := RanJump(s, vm, vm2, k + Size(o.code), back, mid);
      if mid.io.returned {
        vm' := vm3;
      } else {
        vm' := SimWhile(p, s, st, n, mid, left - 1, vm3);
        RanThen(s, vm, vm3, vm', 0, whole, mid, ExecWhile(p, s.c, S, n, left));
      }
    } else {
      vm' := vm.(ip := vm.ip + whole, out := v.io.out);
      RanQuiet(s, vm, vm', whole, S, v.io);
    }
  }

  // ----- Cycles -----

  lemma {:induction false} CyclePrefix(p: Program, c: Ctx, S: State, ms: seq<nat>, bound: nat, i: nat)
    requires WellFormed(p) && c.fp <= Interpreter.FRAMES_MAX && i <= |ms|
    requires forall k :: 0 <= k < |ms| ==> MemberBelow(p, ms[k], bound)
    requires forall k :: 0 <= k < i ==> ms[k] < |p.g.nodes| && Inert(p.g.nodes[ms[k]].kind)
    ensures ExecCycleBody(p, c, S, ms, bound) == ExecCycleBody(p, c, S, ms[i..], bound)
    decreases i
  {
    if i > 0 {
      assert MemberBelow(p, ms[0], bound) && Inert(p.g.nodes[ms[0]].kind);
      InertStmt(p, c, S, ms[0]);
      CyclePrefix(p, c, S, ms[1..], bound, i - 1);
      assert ms[1..][i - 1..] == ms[i..];
    }
  }

  predicate EmitsNothing(k: Kind) { Inert(k) || k.BreakIf? }

  /** Inert members and the break test emit nothing where they stand. */
  lemma {:induction false} InertCode(p: Program, cx: Cx, st: Cst, ms: seq<nat>, bound: nat, i: nat)
    requires WellFormed(p) && i <= |ms|
    requires forall k :: 0 <= k < |ms| ==> MemberBelow(p, ms[k], bound)
    requires forall k :: 0 <= k < i ==> ms[k] < |p.g.nodes| && EmitsNothing(p.g.nodes[ms[k]].kind)
    ensures CMembers(p, cx, st, ms, bound) == CMembers(p, cx, st, ms[i..], bound)
    decreases i
  {
    hide Size; hide Ranked; hide Indexed; hide CIf; hide CWhile; hide CCycle; hide CBinary; hide CShortCircuit; hide CCall;
    if i > 0 {
      assert MemberBelow(p, ms[0], bound);
      var k := p.g.nodes[ms[0]].kind;
      assert EmitsNothing(k);
      if !(k.Param? || IsExprNode(k)) {
        assert CKind(p, cx, st, ms[0]) == Out([], st);
      }
      assert Member(p, cx, st, ms[0], bound) == Out([], st);
      InertCode(p, cx, st, ms[1..], bound, i - 1);
      assert ms[1..][i - 1..] == ms[i..];
      var rest := CMembers(p, cx, st, ms[1..], bound);
      assert [] + rest.code == rest.code;
    }
  }

  /** Members of a turn after the break test: no other test, nothing executed after a possible return. */
  ghost predicate Turn(p: Program, s: Scope, ms: seq<nat>, bound: nat)
    requires WellFormed(p)
  {
    && (forall k :: 0 <= k < |ms| ==> Runnable(p, s, ms[k], bound) && !p.g.nodes[ms[k]].kind.BreakIf?)
    && (forall i, j :: 0 <= i < j < |ms| ==> OrderedInCycle(p, ms[i], ms[j], bound))
  }

  lemma {:induction false} TurnTail(p: Program, s: Scope, ms: seq<nat>, bound: nat)
    requires WellFormed(p) && ms != [] && Turn(p, s, ms, bound)
    ensures Turn(p, s, ms[1..], bound)
    ensures MayReturn(p, ms[0]) ==> forall k :: 0 <= k < |ms[1..]| ==> Inert(p.g.nodes[ms[1..][k]].kind)
  {
    var rest := ms[1..];
    forall k | 0 <= k < |rest| ensures Runnable(p, s, rest[k], bound) && !p.g.nodes[rest[k]].kind.BreakIf? {
      assert Runnable(p, s, ms[k + 1], bound);
    }
    forall i, j | 0 <= i < j < |rest| ensures OrderedInCycle(p, rest[i], rest[j], bound) {
      assert OrderedInCycle(p, ms[i + 1], ms[j + 1], bound);
    }
    if MayReturn(p, ms[0]) {
      forall k | 0 <= k < |rest| ensures Inert(p.g.nodes[rest[k]].kind) {
        assert Runnable(p, s, ms[0], bound) && Runnable(p, s, ms[k + 1], bound);
        assert OrderedInCycle(p, ms[0], ms[k + 1], bound);
      }
    }
  }

  lemma {:induction false} TurnShape(p: Program, s: Scope, st: Cst, ms: seq<nat>, bound: nat, S: State)
    requires WellFormed(p) && s.c.fp <= Interpreter.FRAMES_MAX && ms != [] && Turn(p, s, ms, bound)
    requires forall k :: 0 <= k < |ms| ==> MemberBelow(p, ms[k], bound)
    requires !S.io.err && !S.io.returned && !ExecCycleBody(p, s.c, S, ms, bound).st.io.err
    ensures var m := Member(p, s.cx, st, ms[0], bound); var rest := CMembers(p, s.cx, m.st, ms[1..], bound);
            var next := ExecMember(p, s.c, S, ms[0], bound);
            && CMembers(p, s.cx, st, ms, bound) == Out(m.code + rest.code, rest.st)
            && !next.io.err
            && ExecCycleBody(p, s.c, S, ms, bound) == ExecCycleBody(p, s.c, next, ms[1..], bound)
            && (next.io.returned ==> ExecCycleBody(p, s.c, S, ms, bound) == BodyRes(next, false))
  {
    assert Runnable(p, s, ms[0], bound);
    assert MemberBelow(p, ms[0], bound);
    InertStmt(p, s.c, S, ms[0]);
    var next := ExecMember(p, s.c, S, ms[0], bound);
    TurnTail(p, s, ms, bound);
    if !MayReturn(p, ms[0]) {
      NoReturnStmt(p, s.c, S, ms[0]);
    } else {
      InertCycleBody(p, s.c, next, ms[1..], bound);
    }
  }

  lemma {:induction false} SimTurn(p: Program, s: Scope, st: Cst, ms: seq<nat>, bound: nat, S: State, vm: Vm) returns (vm': Vm)
    requires Good(p, s) && Turn(p, s, ms, bound)
    requires forall k :: 0 <= k < |ms| ==> MemberBelow(p, ms[k], bound)
    requires var o := CMembers(p, s.cx, st, ms, bound); Ready(s, o.code, o.st, vm)
    requires Level(s, vm, S) && !ExecCycleBody(p, s.c, S, ms, bound).st.io.err
    ensures !ExecCycleBody(p, s.c, S, ms, bound).broke
    ensures Ran(s, vm, vm', Size(CMembers(p, s.cx, st, ms, bound).code), ExecCycleBody(p, s.c, S, ms, bound).st)
    decreases Interpreter.FRAMES_MAX - s.c.fp, bound, 1, |ms|, 1
  {
    if ms == [] {
      ReachesSelf(s.l.img, vm);
      vm' := vm;
    } else {
      vm' := SimTurnCons(p, s, st, ms, bound, S, vm);
    }
  }

  lemma {:induction false} SimTurnCons(p: Program, s: Scope, st: Cst, ms: seq<nat>, bound: nat, S: State, vm: Vm) returns (vm': Vm)
    requires Good(p, s) && ms != [] && Turn(p, s, ms, bound)
    requires forall k :: 0 <= k < |ms| ==> MemberBelow(p, ms[k], bound)
    requires var o := CMembers(p, s.cx, st, ms, bound); Ready(s, o.code, o.st, vm)
    requires Level(s, vm, S) && !ExecCycleBody(p, s.c, S, ms, bound).st.io.err
    ensures !ExecCycleBody(p, s.c, S, ms, bound).broke
    ensures Ran(s, vm, vm', Size(CMembers(p, s.cx, st, ms, bound).code), ExecCycleBody(p, s.c, S, ms, bound).st)
    decreases Interpreter.FRAMES_MAX - s.c.fp, bound, 1, |ms|, 0
  {
    hide CodeAt; hide Reaches; hide Env; hide NodesSupported; hide ValuesFed; hide Linked; hide Size;
    hide CMembers; hide ExecCycleBody; hide ExecMember; hide CNode; hide ExecStmt; hide MayReturn;
    assert Runnable(p, s, ms[0], bound);
    TurnShape(p, s, st, ms, bound, S);
    TurnTail(p, s, ms, bound);
    var m := Member(p, s.cx, st, ms[0], bound);
    var rest := CMembers(p, s.cx, m.st, ms[1..], bound);
    var next := ExecMember(p, s.c, S, ms[0], bound);
    CodeSplit(s.l, vm.ip, m.code, rest.code);
    var vm1 := SimMember(p, s, st, ms[0], bound, S, vm);
    if next.io.returned {
      vm' := vm1;
    } else {
      vm' := SimTurn(p, s, m.st, ms[1..], bound, next, vm1);
      RanThen(s, vm, vm1, vm', Size(m.code), Size(rest.code), next, ExecCycleBody(p, s.c, next, ms[1..], bound).st);
    }
  }

  lemma {:induction false} SimCycle(p: Program, s: Scope, st: Cst, n: nat, S: State, left: nat, vm: Vm) returns (vm': Vm)
    requires Good(p, s) && n < |p.g.nodes| && p.g.nodes[n].kind.Cycle? && (s.c.fp == 0 ==> !MayReturn(p, n))
    requires var o := CCycle(p, s.cx, st, n); Ready(s, o.code, o.st, vm)
    requires Level(s, vm, S) && !ExecCycle(p, s.c, S, n, left).io.err
    ensures Ran(s, vm, vm', Size(CCycle(p, s.cx, st, n).code), ExecCycle(p, s.c, S, n, left))
    decreases Interpreter.FRAMES_MAX - s.c.fp, p.rank[n], 4, left
  {
    hide CodeAt; hide Reaches; hide Env; hide NodesSupported; hide ValuesFed; hide Linked; hide Size;
    hide CBreakCycle; hide CEndlessCycle; hide ExecCycle; hide MayReturn;
    CycleMembersBelow(p, n);
    var ms := Members(p.g, p.g.nodes[n].kind.body);
    var i := FirstBreak(p.g, ms);
    if i < |ms| {
      vm' := SimBreakCycle(p, s, st, n, S, left, vm, ms, i);
    } else {
      vm' := SimEndlessCycle(p, s, st, n, S, left, vm, ms);
    }
  }

  /** The members after the break test, or all of them without one, make a turn. */
  lemma {:induction false} CycleTurn(p: Program, s: Scope, n: nat, ms: seq<nat>, from: nat)
    requires WellFormed(p) && NodesSupported(p) && n < |p.g.nodes| && p.g.nodes[n].kind.Cycle?
    requires s.c.fp == 0 ==> !MayReturn(p, n)
    requires ms == Members(p.g, p.g.nodes[n].kind.body)
    requires forall k :: 0 <= k < |ms| ==> MemberBelow(p, ms[k], p.rank[n])
    requires forall k :: 0 <= k < |ms| ==> ms[k] < |p.g.nodes|
    requires var i := FirstBreak(p.g, ms); from == if i < |ms| then i + 1 else 0
    ensures Turn(p, s, ms[from..], p.rank[n])
    ensures forall k :: 0 <= k < from - 1 ==> Inert(p.g.nodes[ms[k]].kind)
  {
    assert NodeSupported(p, n);
    var i := FirstBreak(p.g, ms);
    var rest := ms[from..];
    forall k | 0 <= k < from - 1 ensures Inert(p.g.nodes[ms[k]].kind) {
      assert OrderedInCycle(p, ms[k], ms[i], p.rank[n]);
      assert MemberBelow(p, ms[k], p.rank[n]) && MemberBelow(p, ms[i], p.rank[n]);
    }
    if s.c.fp == 0 {
      MayReturnBranches(p, n);
      assert p.g.nodes[n].kind.body in Children(p.g.nodes[n].kind);
    }
    forall k | 0 <= k < |rest| ensures Runnable(p, s, rest[k], p.rank[n]) && !p.g.nodes[rest[k]].kind.BreakIf? {
      assert MemberBelow(p, ms[from + k], p.rank[n]);
      if i < |ms| {
        assert MemberBelow(p, ms[i], p.rank[n]);
        assert OrderedInCycle(p, ms[i], ms[from + k], p.rank[n]);
      }
    }
    forall a, b | 0 <= a < b < |rest| ensures OrderedInCycle(p, rest[a], rest[b], p.rank[n]) {
      assert OrderedInCycle(p, ms[from + a], ms[from + b], p.rank[n]);
    }
  }

  /** The break test is evaluated before anything else happens in the turn. */
  lemma {:induction false} BreakTurn(p: Program, s: Scope, n: nat, S: State, left: nat, ms: seq<nat>, i: nat)
    requires WellFormed(p) && NodesSupported(p) && s.c.fp <= Interpreter.FRAMES_MAX
    requires n < |p.g.nodes| && p.g.nodes[n].kind.Cycle? && (s.c.fp == 0 ==> !MayReturn(p, n))
    requires ms == Members(p.g, p.g.nodes[n].kind.body) && (forall k :: 0 <= k < |ms| ==> MemberBelow(p, ms[k], p.rank[n]))
    requires forall k :: 0 <= k < |ms| ==> ms[k] < |p.g.nodes|
    requires i == FirstBreak(p.g, ms) < |ms|
    requires !S.io.err && !S.io.returned && !ExecCycle(p, s.c, S, n, left).io.err
    ensures left > 0 && Turn(p, s, ms[i + 1..], p.rank[n])
    ensures var src := RoleSource(p.g, ms[i], "cond");
            && src != INVALID && p.rank[src] < p.rank[ms[i]]
            && var v := EvalNode(p, s.c, S.vars, S.io, src);
               var turn := ExecCycleBody(p, s.c, State(S.vars, v.io), ms[i + 1..], p.rank[n]);
            && !v.io.err
            && (if Truthy(v.v) then ExecCycle(p, s.c, S, n, left) == State(S.vars, v.io)
                else !turn.st.io.err &&
                     (!turn.broke ==> ExecCycle(p, s.c, S, n, left) == ExecCycle(p, s.c, turn.st, n, left - 1)) &&
                     (!turn.broke && turn.st.io.returned ==> ExecCycle(p, s.c, S, n, left) == turn.st))
  {
    hide MayReturn; hide NodesSupported; hide EvalNode; hide Turn; hide FirstBreak;
    var t, b := ms[i], p.rank[n];
    assert MemberBelow(p, t, b);
    CycleTurn(p, s, n, ms, i + 1);
    CondConnected(p, t);
    var src := RoleSource(p.g, t, "cond");
    CyclePrefix(p, s.c, S, ms, b, i);
    assert ms[i..][0] == t && ms[i..][1..] == ms[i + 1..];
    var v := EvalSource(p, s.c, S.vars, S.io, t, src);
    var whole := ExecCycleBody(p, s.c, S, ms, b);
    assert whole == if Truthy(v.v) then BodyRes(State(S.vars, v.io), true)
                    else ExecCycleBody(p, s.c, State(S.vars, v.io), ms[i + 1..], b);
    assert NodeIndexed(p.g, n);
  }

  lemma {:induction false} BreakCode(p: Program, cx: Cx, st: Cst, ms: seq<nat>, i: nat, bound: nat)
    requires WellFormed(p) && (forall k :: 0 <= k < |ms| ==> MemberBelow(p, ms[k], bound))
    requires forall k :: 0 <= k < |ms| ==> ms[k] < |p.g.nodes|
    requires i < |ms| && p.g.nodes[ms[i]].kind.BreakIf? && forall k :: 0 <= k < i ==> Inert(p.g.nodes[ms[k]].kind)
    requires MemberBelow(p, ms[i], bound)
    requires var src := RoleSource(p.g, ms[i], "cond"); src != INVALID && p.rank[src] < p.rank[ms[i]]
    ensures var q := CNode(p, cx, st, RoleSource(p.g, ms[i], "cond"));
            var o := CMembers(p, cx, EmitOp(q.st, JumpIfTrue(0)), ms[i + 1..], bound);
            var back := Jump(-(Size(q.code) + Size(o.code) + 10));
            CBreakCycle(p, cx, st, ms, ms[i], bound) == Out(q.code + [JumpIfTrue(Size(o.code) + 5)] + o.code + [back], EmitOp(o.st, back))
  {
    hide Size; hide CMembers; hide CNode;
    var q := CNode(p, cx, st, RoleSource(p.g, ms[i], "cond"));
    InertCode(p, cx, EmitOp(q.st, JumpIfTrue(0)), ms, bound, i + 1);
  }

  lemma {:induction false} SimBreakCycle(p: Program, s: Scope, st: Cst, n: nat, S: State, left: nat, vm: Vm, ms: seq<nat>, i: nat) returns (vm': Vm)
    requires Good(p, s) && n < |p.g.nodes| && p.g.nodes[n].kind.Cycle? && (s.c.fp == 0 ==> !MayReturn(p, n))
    requires ms == Members(p.g, p.g.nodes[n].kind.body) && (forall k :: 0 <= k < |ms| ==> MemberBelow(p, ms[k], p.rank[n]))
    requires forall k :: 0 <= k < |ms| ==> ms[k] < |p.g.nodes|
    requires i == FirstBreak(p.g, ms) < |ms| && MemberBelow(p, ms[i], p.rank[n])
    requires var o := CBreakCycle(p, s.cx, st, ms, ms[i], p.rank[n]); Ready(s, o.code, o.st, vm)
    requires Level(s, vm, S) && !ExecCycle(p, s.c, S, n, left).io.err
    ensures Ran(s, vm, vm', Size(CBreakCycle(p, s.cx, st, ms, ms[i], p.rank[n]).code), ExecCycle(p, s.c, S, n, left))
    decreases Interpreter.FRAMES_MAX - s.c.fp, p.rank[n], 3, left
  {
    hide CodeAt; hide Reaches; hide Env; hide NodesSupported; hide ValuesFed; hide Linked; hide Size;
    hide CNode; hide EvalNode; hide CMembers; hide ExecCycleBody; hide CBreakCycle; hide ExecCycle; hide MayReturn; hide Turn;
    hide FirstBreak; hide Inert;
    BreakTurn(p, s, n, S, left, ms, i);
    CycleTurn(p, s, n, ms, i + 1);
    BreakCode(p, s.cx, st, ms, i, p.rank[n]);
    var src := RoleSource(p.g, ms[i], "cond");
    var v := EvalNode(p, s.c, S.vars, S.io, src);
    var q := CNode(p, s.cx, st, src);
    var o := CMembers(p, s.cx, EmitOp(q.st, JumpIfTrue(0)), ms[i + 1..], p.rank[n]);
    var back := -(Size(q.code) + Size(o.code) + 10);
    var whole := Size(q.code) + Size(o.code) + 10;
    LoopLayout(s.l, vm.ip, q.code, JumpIfTrue(Size(o.code) + 5), o.code, Jump(back));
    SimTest(p, s, st, ms[i], S, vm, true, Size(o.code) + 5);
    if Truthy(v.v) {
      vm' := vm.(ip := vm.ip + whole, out := v.io.out);
      RanQuiet(s, vm, vm', whole, S, v.io);
    } else {
      var k := Size(q.code) + 5;
      var vm1 := vm.(ip := vm.ip + k, out := v.io.out);
      RanQuiet(s, vm, vm1, k, S, v.io);
      var vm2 := SimTurn(p, s, EmitOp(q.st, JumpIfTrue(0)), ms[i + 1..], p.rank[n], State(S.vars, v.io), vm1);
      var turn := ExecCycleBody(p, s.c, State(S.vars, v.io), ms[i + 1..], p.rank[n]).st;
      RanThen(s, vm, vm1, vm2, k, Size(o.code), State(S.vars, v.io), turn);
      var vm3 := RanJump(s, vm, vm2, k + Size(o.code), back, turn);
      if turn.io.returned {
        vm' := vm3;
      } else {
        vm' := SimBreakCycle(p, s, st, n, turn, left - 1, vm3, ms, i);
        RanThen(s, vm, vm3, vm', 0, whole, turn, ExecCycle(p, s.c, S, n, left));
      }
    }
  }

  lemma {:induction false} EndlessCycleShape(p: Program, s: Scope, st: Cst, n: nat, S: State, left: nat, ms: seq<nat>)
    requires WellFormed(p) && NodesSupported(p) && s.c.fp <= Interpreter.FRAMES_MAX
    requires n < |p.g.nodes| && p.g.nodes[n].kind.Cycle? && (s.c.fp == 0 ==> !MayReturn(p, n))
    requires ms == Members(p.g, p.g.nodes[n].kind.body) && (forall k :: 0 <= k < |ms| ==> MemberBelow(p, ms[k], p.rank[n]))
    requires forall k :: 0 <= k < |ms| ==> ms[k] < |p.g.nodes|
    requires FirstBreak(p.g, ms) == |ms|
    requires !S.io.err && !S.io.returned && !ExecCycle(p, s.c, S, n, left).io.err
    ensures left > 0 && Turn(p, s, ms, p.rank[n])
    ensures var turn := ExecCycleBody(p, s.c, S, ms, p.rank[n]);
            var o := CMembers(p, s.cx, st, ms, p.rank[n]);
            var back := Jump(-(Size(o.code) + 5));
            && CEndlessCycle(p, s.cx, st, ms, p.rank[n]) == Out(o.code + [back], EmitOp(o.st, back))
            && !turn.st.io.err
            && (!turn.broke ==> ExecCycle(p, s.c, S, n, left) == ExecCycle(p, s.c, turn.st, n, left - 1))
            && (!turn.broke && turn.st.io.returned ==> ExecCycle(p, s.c, S, n, left) == turn.st)
  {
    hide Size; hide CMembers; hide MayReturn;
    CycleTurn(p, s, n, ms, 0);
    assert ms[0..] == ms;
    assert NodeIndexed(p.g, n);
  }

  lemma {:induction false} SimEndlessCycle(p: Program, s: Scope, st: Cst, n: nat, S: State, left: nat, vm: Vm, ms: seq<nat>) returns (vm': Vm)
    requires Good(p, s) && n < |p.g.nodes| && p.g.nodes[n].kind.Cycle? && (s.c.fp == 0 ==> !MayReturn(p, n))
    requires ms == Members(p.g, p.g.nodes[n].kind.body) && (forall k :: 0 <= k < |ms| ==> MemberBelow(p, ms[k], p.rank[n]))
    requires forall k :: 0 <= k < |ms| ==> ms[k] < |p.g.nodes|
    requires FirstBreak(p.g, ms) == |ms|
    requires var o := CEndlessCycle(p, s.cx, st, ms, p.rank[n]); Ready(s, o.code, o.st, vm)
    requires Level(s, vm, S) && !ExecCycle(p, s.c, S, n, left).io.err
    ensures Ran(s, vm, vm', Size(CEndlessCycle(p, s.cx, st, ms, p.rank[n]).code), ExecCycle(p, s.c, S, n, left))
    decreases Interpreter.FRAMES_MAX - s.c.fp, p.rank[n], 3, left
  {
    hide CodeAt; hide Reaches; hide Env; hide NodesSupported; hide ValuesFed; hide Linked; hide Size;
    hide CMembers; hide ExecCycleBody; hide CEndlessCycle; hide ExecCycle; hide MayReturn; hide Turn;
    EndlessCycleShape(p, s, st, n, S, left, ms);
    var o := CMembers(p, s.cx, st, ms, p.rank[n]);
    var back := -(Size(o.code) + 5);
    CodeSplit(s.l, vm.ip, o.code, [Jump(back)]);
    OneSize(Jump(back));
    CodeBound(s.l, vm.ip, o.code + [Jump(back)]);
    var vm1 := SimTurn(p, s, st, ms, p.rank[n], S, vm);
    var turn := ExecCycleBody(p, s.c, S, ms, p.rank[n]).st;
    var vm2 := RanJump(s, vm, vm1, Size(o.code), back, turn);
    if turn.io.returned {
      vm' := vm2;
    } else {
      vm' := SimEndlessCycle(p, s, st, n, turn, left - 1, vm2, ms);
      RanThen(s, vm, vm2, vm', 0, Size(o.code) + 5, turn, ExecCycle(p, s.c, S, n, left));
    }
  }
}
