/** Every operand the compiler emits is bounded by the sizes of the tables it refers to. */
module OperandBounds {
  import opened Values
  import opened Bytecode
  import opened SemanticGraph
  import opened CodeGen
  import opened Support

  /** Limits on constant indices, slots, functions and jump distances. */
  datatype Limits = Limits(pool: nat, locals: nat, funcs: nat, size: nat)

  predicate Within(i: Instr, b: Limits) {
    match i
    case Const(k) => k < b.pool
    case LoadLocal(s) => s < b.locals
    case StoreLocal(s) => s < b.locals
    case Jump(o) => 0 - b.size <= o <= b.size
    case JumpIfFalse(o) => 0 - b.size <= o <= b.size
    case JumpIfTrue(o) => 0 - b.size <= o <= b.size
    case Call(f, n) => f < b.funcs && n <= 16
    case Intrinsic(k, n) => k == INTRINSIC_PRINT && n == 1
    case _ => true
  }

  ghost predicate AllWithin(code: seq<Instr>, b: Limits) {
    forall k :: 0 <= k < |code| ==> Within(code[k], b)
  }

  function LimitsOf(cx: Cx, st: Cst, code: seq<Instr>): Limits {
    Limits(|st.pool|, |st.locals|, |cx.names|, Size(code))
  }

  ghost predicate Below(a: Limits, b: Limits) {
    a.pool <= b.pool && a.locals <= b.locals && a.funcs <= b.funcs && a.size <= b.size
  }

  lemma WithinConcat(a: seq<Instr>, la: Limits, b: seq<Instr>, lb: Limits, l: Limits)
    requires AllWithin(a, la) && AllWithin(b, lb) && Below(la, l) && Below(lb, l)
    ensures AllWithin(a + b, l)
  {
    forall k | 0 <= k < |a + b| ensures Within((a + b)[k], l) {
      assert k < |a| ==> (a + b)[k] == a[k] && Within(a[k], la);
      assert k >= |a| ==> (a + b)[k] == b[k - |a|] && Within(b[k - |a|], lb);
    }
  }

  lemma WithinMore(a: seq<Instr>, la: Limits, l: Limits)
    requires AllWithin(a, la) && Below(la, l)
    ensures AllWithin(a, l)
  {
    forall k | 0 <= k < |a| ensures Within(a[k], l) {
      assert Within(a[k], la);
    }
  }

  lemma WithinSnoc(a: seq<Instr>, la: Limits, i: Instr, l: Limits)
    requires AllWithin(a, la) && Below(la, l) && Within(i, l)
    ensures AllWithin(a + [i], l)
  {
    assert AllWithin([i], l);
    WithinConcat(a, la, [i], l, l);
  }

  /** The bound each piece of compiled code meets. */
  ghost predicate Bounded(cx: Cx, code: seq<Instr>, st: Cst) { AllWithin(code, LimitsOf(cx, st, code)) }

  lemma {:induction false} ConstBounded(cx: Cx, st: Cst, c: Constant)
    ensures var o := EmitConst(st, c); Bounded(cx, o.code, o.st)
  {
  }

  /** Code, then more code from a later state. */
  lemma {:induction false} ThenBounded(cx: Cx, a: seq<Instr>, sa: Cst, b: seq<Instr>, sb: Cst)
    requires Bounded(cx, a, sa) && Bounded(cx, b, sb) && |sa.pool| <= |sb.pool| && |sa.locals| <= |sb.locals|
    ensures Bounded(cx, a + b, sb)
  {
    SizeConcat(a, b);
    WithinConcat(a, LimitsOf(cx, sa, a), b, LimitsOf(cx, sb, b), LimitsOf(cx, sb, a + b));
  }

  /** Code, then one instruction within the new bounds. */
  lemma {:induction false} SnocBounded(cx: Cx, a: seq<Instr>, sa: Cst, i: Instr, sb: Cst)
    requires Bounded(cx, a, sa) && |sa.pool| <= |sb.pool| && |sa.locals| <= |sb.locals|
    requires Within(i, Limits(|sb.pool|, |sb.locals|, |cx.names|, Size(a) + i.Size()))
    ensures Bounded(cx, a + [i], sb)
  {
    SizeSnoc(a, i);
    WithinSnoc(a, LimitsOf(cx, sa, a), i, LimitsOf(cx, sb, a + [i]));
  }

  ghost predicate ArgsBounded(g: Graph)
    requires Indexed(g)
  {
    forall n :: 0 <= n < |g.nodes| && g.nodes[n].kind.FuncCall? ==> |ArgPorts(g, n)| <= 16
  }

  lemma SupportedArgsBounded(p: Program)
    requires WellFormed(p) && NodesSupported(p)
    ensures ArgsBounded(p.g)
  {
    forall n | 0 <= n < |p.g.nodes| && p.g.nodes[n].kind.FuncCall? ensures |ArgPorts(p.g, n)| <= 16 {
      assert NodeSupported(p, n);
    }
  }

  lemma {:induction false} NodeBounded(p: Program, cx: Cx, st: Cst, n: nat)
    requires WellFormed(p) && ArgsBounded(p.g) && n < |p.g.nodes|
    ensures var o := CNode(p, cx, st, n); Bounded(cx, o.code, o.st)
    decreases p.rank[n], 3, 0
  {
    hide Bounded; hide Size; hide ArgsBounded;
    KindBounded(p, cx, st, n);
    var o := CKind(p, cx, st, n);
    SameBounds(cx, o.code, o.st, CNode(p, cx, st, n).st);
  }

  lemma SameBounds(cx: Cx, code: seq<Instr>, a: Cst, b: Cst)
    requires Bounded(cx, code, a) && |a.pool| <= |b.pool| && |a.locals| <= |b.locals|
    ensures Bounded(cx, code, b)
  {
    hide Size;
    WithinMore(code, LimitsOf(cx, a, code), LimitsOf(cx, b, code));
  }

  lemma EmptyBounded(cx: Cx, st: Cst)
    ensures Bounded(cx, [], st)
  {
  }

  lemma {:induction false} KindBounded(p: Program, cx: Cx, st: Cst, n: nat)
    requires WellFormed(p) && ArgsBounded(p.g) && n < |p.g.nodes|
    ensures var o := CKind(p, cx, st, n); Bounded(cx, o.code, o.st)
    decreases p.rank[n], 2, 0
  {
    hide Bounded; hide Size; hide ArgsBounded; hide EmitConst;
    hide CBinary; hide CUnary; hide CShortCircuit; hide CCall; hide CLet; hide CAssign; hide CPrint; hide CReturn;
    hide CIf; hide CWhile; hide CCycle;
    EmptyBounded(cx, st);
    EmptyBounded(cx, st.(err := true));
    match p.g.nodes[n].kind
    case ConstInt(i) => ConstBounded(cx, st, IntConst(i));
    case ConstBool(b) => ConstBounded(cx, st, BoolConst(b));
    case ConstNull => ConstBounded(cx, st, NullConst);
    case BinaryNode(op) => BinaryBounded(p, cx, st, n, op);
    case UnaryNode(op) => UnaryBounded(p, cx, st, n, op);
    case And => ShortCircuitBounded(p, cx, st, n, false);
    case Or => ShortCircuitBounded(p, cx, st, n, true);
    case VarRef(name) =>
      var s := FindLocal(st.locals, name);
      if s >= 0 {
        SnocBounded(cx, [], st, LoadLocal(s), EmitOp(st, LoadLocal(s)));
        assert [] + [LoadLocal(s)] == [LoadLocal(s)];
      }
    case FuncCall(name) => CallBounded(p, cx, st, n, name);
    case Let(name) => LetBounded(p, cx, st, n, name);
    case Assign(name) => AssignBounded(p, cx, st, n, name);
    case Print => PrintBounded(p, cx, st, n);
    case RootOutput => SourceBounded(p, cx, st, n, "value");
    case ReturnNode => ReturnBounded(p, cx, st, n);
    case If(_, _) => IfBounded(p, cx, st, n);
    case While(_) => WhileBounded(p, cx, st, n);
    case Cycle(_) => CycleBounded(p, cx, st, n);
    case _ =>
  }

  /** The code of a connected input. */
  lemma {:induction false} SourceBounded(p: Program, cx: Cx, st: Cst, n: nat, role: string)
    requires WellFormed(p) && ArgsBounded(p.g) && n < |p.g.nodes|
    ensures var s := InputSource(p.g, n, role); s == INVALID || p.rank[s] < p.rank[n]
    ensures var o := CSource(p, cx, st, n, InputSource(p.g, n, role)); Bounded(cx, o.code, o.st)
    ensures var s := RoleSource(p.g, n, role); s == INVALID || p.rank[s] < p.rank[n]
    ensures var o := CSource(p, cx, st, n, RoleSource(p.g, n, role)); Bounded(cx, o.code, o.st)
    decreases p.rank[n], 0, 0
  {
    hide Bounded; hide Size; hide ArgsBounded; hide CNode;
    RoleBelow(p, n, role);
    EmptyBounded(cx, st);
    if InputSource(p.g, n, role) != INVALID {
      NodeBounded(p, cx, st, InputSource(p.g, n, role));
    }
    if RoleSource(p.g, n, role) != INVALID {
      NodeBounded(p, cx, st, RoleSource(p.g, n, role));
    }
  }

  lemma {:induction false} BinaryBounded(p: Program, cx: Cx, st: Cst, n: nat, op: BinOp)
    requires WellFormed(p) && ArgsBounded(p.g) && n < |p.g.nodes|
    ensures var o := CBinary(p, cx, st, n, op); Bounded(cx, o.code, o.st)
    decreases p.rank[n], 1, 0
  {
    hide Bounded; hide Size; hide ArgsBounded; hide CNode; hide EmitConst;
    var ls, rs := CompilerOperand(p.g, n, 0), CompilerOperand(p.g, n, 1);
    OperandBelow(p, n, 0);
    OperandBelow(p, n, 1);
    EmptyBounded(cx, st.(err := true));
    if ls != INVALID && rs != INVALID && !FoldUndefined(p.g, ls, rs, op) {
      var folded := TryFoldBinary(p.g, ls, rs, op);
      if folded.Some? {
        ConstBounded(cx, st, ConstOf(folded.value));
      } else {
        var l := CSource(p, cx, st, n, ls);
        var r := CSource(p, cx, l.st, n, rs);
        NodeBounded(p, cx, st, ls);
        NodeBounded(p, cx, l.st, rs);
        ThenBounded(cx, l.code, l.st, r.code, r.st);
        SnocBounded(cx, l.code + r.code, r.st, Binary(op), EmitOp(r.st, Binary(op)));
      }
    }
  }

  lemma {:induction false} UnaryBounded(p: Program, cx: Cx, st: Cst, n: nat, op: UnOp)
    requires WellFormed(p) && ArgsBounded(p.g) && n < |p.g.nodes|
    ensures var o := CUnary(p, cx, st, n, op); Bounded(cx, o.code, o.st)
    decreases p.rank[n], 1, 0
  {
    hide Bounded; hide Size; hide ArgsBounded; hide CNode; hide EmitConst; hide CSource;
    var s := InputSource(p.g, n, "value");
    SourceBounded(p, cx, st, n, "value");
    EmptyBounded(cx, st.(err := true));
    if s != INVALID {
      var folded := TryFoldUnary(p.g, s, op);
      if folded.Some? {
        ConstBounded(cx, st, ConstOf(folded.value));
      } else {
        var v := CSource(p, cx, st, n, s);
        SnocBounded(cx, v.code, v.st, Unary(op), EmitOp(v.st, Unary(op)));
      }
    }
  }

  lemma {:induction false} ShortCircuitBounded(p: Program, cx: Cx, st: Cst, n: nat, isOr: bool)
    requires WellFormed(p) && ArgsBounded(p.g) && n < |p.g.nodes|
    ensures var o := CShortCircuit(p, cx, st, n, isOr); Bounded(cx, o.code, o.st)
    decreases p.rank[n], 1, 0
  {
    hide Bounded; hide Size; hide ArgsBounded; hide CNode; hide CSource;
    var ls, rs := RoleSource(p.g, n, "lhs"), RoleSource(p.g, n, "rhs");
    SourceBounded(p, cx, st, n, "lhs");
    EmptyBounded(cx, st.(err := true));
    if ls != INVALID && rs != INVALID {
      var l := CSource(p, cx, st, n, ls);
      var st1 := AfterTest(l.st, isOr);
      SourceBounded(p, cx, st1, n, "rhs");
      var r := CSource(p, cx, st1, n, rs);
      DecideBounded(cx, l, isOr, r, r.st);
    }
  }

  lemma {:induction false} DecideBounded(cx: Cx, l: Out, isOr: bool, r: Out, st: Cst)
    requires Bounded(cx, l.code, l.st) && Bounded(cx, r.code, r.st) && st == r.st
    requires |l.st.pool| <= |r.st.pool| && |l.st.locals| <= |r.st.locals|
    ensures Bounded(cx, l.code + [Dup, SkipJump(isOr, 1 + Size(r.code)), Pop] + r.code, st)
  {
    hide Size;
    var skip := SkipJump(isOr, 1 + Size(r.code));
    ShortCircuitSize(l.code, skip, r.code);
    var all := LimitsOf(cx, st, l.code + [Dup, skip, Pop] + r.code);
    assert AllWithin([Dup, skip, Pop], all);
    WithinConcat(l.code, LimitsOf(cx, l.st, l.code), [Dup, skip, Pop], all, all);
    WithinConcat(l.code + [Dup, skip, Pop], all, r.code, LimitsOf(cx, r.st, r.code), all);
  }

  lemma {:induction false} CallBounded(p: Program, cx: Cx, st: Cst, n: nat, name: string)
    requires WellFormed(p) && ArgsBounded(p.g) && n < |p.g.nodes| && p.g.nodes[n].kind == FuncCall(name)
    ensures var o := CCall(p, cx, st, n, name); Bounded(cx, o.code, o.st)
    decreases p.rank[n], 1, 0
  {
    hide Bounded; hide Size; hide CNode; hide CArgs;
    ArgsBelow(p, n);
    ArgCodeBounded(p, cx, st, n, ArgPorts(p.g, n));
    var a := CArgs(p, cx, st, n, ArgPorts(p.g, n));
    SameBounds(cx, a.code, a.st, a.st.(err := true));
    var f := FindName(cx.names, name);
    if f < |cx.names| {
      SnocBounded(cx, a.code, a.st, Call(f, a.argc), EmitCall(a.st, a.argc));
    }
  }

  lemma {:induction false} ArgCodeBounded(p: Program, cx: Cx, st: Cst, n: nat, ports: seq<nat>)
    requires WellFormed(p) && ArgsBounded(p.g) && n < |p.g.nodes|
    requires forall k :: 0 <= k < |ports| ==> SourceBelow(p, n, ports[k])
    ensures var o := CArgs(p, cx, st, n, ports); Bounded(cx, o.code, o.st)
    decreases p.rank[n], 0, |ports|
  {
    hide Bounded; hide Size; hide ArgsBounded; hide CNode;
    if ports == [] {
      EmptyBounded(cx, st);
    } else {
      assert SourceBelow(p, n, ports[0]);
      var s := FindSource(p.g, ports[0]);
      var v := if s == INVALID then Out([], st) else CNode(p, cx, st, s);
      EmptyBounded(cx, st);
      if s != INVALID {
        NodeBounded(p, cx, st, s);
      }
      ArgCodeBounded(p, cx, v.st, n, ports[1..]);
      var rest := CArgs(p, cx, v.st, n, ports[1..]);
      ThenBounded(cx, v.code, v.st, rest.code, rest.st);
    }
  }

  lemma {:induction false} LetBounded(p: Program, cx: Cx, st: Cst, n: nat, name: string)
    requires WellFormed(p) && ArgsBounded(p.g) && n < |p.g.nodes|
    ensures var o := CLet(p, cx, st, n, name); Bounded(cx, o.code, o.st)
    decreases p.rank[n], 1, 0
  {
    hide Bounded; hide Size; hide ArgsBounded; hide CSource;
    SourceBounded(p, cx, st, n, "value");
    var v := CSource(p, cx, st, n, InputSource(p.g, n, "value"));
    var i := StoreLocal(|v.st.locals|);
    SnocBounded(cx, v.code, v.st, i, EmitOp(v.st.(locals := v.st.locals + [name]), i));
  }

  lemma {:induction false} AssignBounded(p: Program, cx: Cx, st: Cst, n: nat, name: string)
    requires WellFormed(p) && ArgsBounded(p.g) && n < |p.g.nodes|
    ensures var o := CAssign(p, cx, st, n, name); Bounded(cx, o.code, o.st)
    decreases p.rank[n], 1, 0
  {
    hide Bounded; hide Size; hide ArgsBounded; hide CSource;
    SourceBounded(p, cx, st, n, "value");
    var v := CSource(p, cx, st, n, InputSource(p.g, n, "value"));
    var s := FindLocal(v.st.locals, name);
    SameBounds(cx, v.code, v.st, v.st.(err := true));
    if s >= 0 {
      SnocBounded(cx, v.code, v.st, StoreLocal(s), EmitOp(v.st, StoreLocal(s)));
    }
  }

  lemma {:induction false} PrintBounded(p: Program, cx: Cx, st: Cst, n: nat)
    requires WellFormed(p) && ArgsBounded(p.g) && n < |p.g.nodes|
    ensures var o := CPrint(p, cx, st, n); Bounded(cx, o.code, o.st)
    decreases p.rank[n], 1, 0
  {
    hide Bounded; hide Size; hide ArgsBounded; hide CSource;
    SourceBounded(p, cx, st, n, "value");
    var v := CSource(p, cx, st, n, InputSource(p.g, n, "value"));
    SnocBounded(cx, v.code, v.st, Intrinsic(INTRINSIC_PRINT, 1), EmitPrint(v.st));
  }

  lemma {:induction false} ReturnBounded(p: Program, cx: Cx, st: Cst, n: nat)
    requires WellFormed(p) && ArgsBounded(p.g) && n < |p.g.nodes|
    ensures var o := CReturn(p, cx, st, n); Bounded(cx, o.code, o.st)
    decreases p.rank[n], 1, 0
  {
    hide Bounded; hide Size; hide ArgsBounded; hide CSource; hide EmitConst;
    SourceBounded(p, cx, st, n, "value");
    ConstBounded(cx, st, NullConst);
    var v := if FindPort(p.g, n, "value") != INVALID then CSource(p, cx, st, n, InputSource(p.g, n, "value"))
             else EmitConst(st, NullConst);
    SnocBounded(cx, v.code, v.st, Return, EmitOp(v.st, Return));
  }

  /** A test, a jump over a body, the body, and a jump. */
  lemma JumpsWithin(a: seq<Instr>, la: Limits, test: Instr, b: seq<Instr>, lb: Limits, jump: Instr, l: Limits)
    requires AllWithin(a, la) && AllWithin(b, lb) && Below(la, l) && Below(lb, l) && Within(test, l) && Within(jump, l)
    ensures AllWithin(a + [test] + b + [jump], l)
  {
    WithinSnoc(a, la, test, l);
    WithinConcat(a + [test], l, b, lb, l);
    WithinSnoc(a + [test] + b, l, jump, l);
  }

  lemma {:induction false} LoopBounded(cx: Cx, c: Out, exit: Instr, b: Out, st: Cst)
    requires Bounded(cx, c.code, c.st) && Bounded(cx, b.code, b.st)
    requires exit == JumpIfFalse(Size(b.code) + 5) || exit == JumpIfTrue(Size(b.code) + 5)
    requires |c.st.pool| <= |b.st.pool| == |st.pool| && |c.st.locals| <= |b.st.locals| == |st.locals|
    ensures Bounded(cx, c.code + [exit] + b.code + [Jump(-(Size(c.code) + Size(b.code) + 10))], st)
  {
    hide Size;
    var back := Jump(-(Size(c.code) + Size(b.code) + 10));
    LoopSize(c.code, exit, b.code, back);
    JumpsWithin(c.code, LimitsOf(cx, c.st, c.code), exit, b.code, LimitsOf(cx, b.st, b.code), back,
                LimitsOf(cx, st, c.code + [exit] + b.code + [back]));
  }

  lemma {:induction false} BranchBounded(cx: Cx, c: Out, t: Out, e: Out)
    requires Bounded(cx, c.code, c.st) && Bounded(cx, t.code, t.st) && Bounded(cx, e.code, e.st)
    requires |c.st.pool| <= |t.st.pool| <= |e.st.pool| && |c.st.locals| <= |t.st.locals| <= |e.st.locals|
    ensures Bounded(cx, c.code + [JumpIfFalse(Size(t.code) + 5)] + t.code + [Jump(Size(e.code))] + e.code, e.st)
  {
    hide Size;
    var test, skip := JumpIfFalse(Size(t.code) + 5), Jump(Size(e.code));
    var front := c.code + [test] + t.code + [skip];
    LoopSize(c.code, test, t.code, skip);
    SizeConcat(front, e.code);
    var l := LimitsOf(cx, e.st, front + e.code);
    JumpsWithin(c.code, LimitsOf(cx, c.st, c.code), test, t.code, LimitsOf(cx, t.st, t.code), skip, l);
    WithinConcat(front, l, e.code, LimitsOf(cx, e.st, e.code), l);
  }

  lemma {:induction false} IfBounded(p: Program, cx: Cx, st: Cst, n: nat)
    requires WellFormed(p) && ArgsBounded(p.g) && n < |p.g.nodes| && p.g.nodes[n].kind.If?
    ensures var o := CIf(p, cx, st, n); Bounded(cx, o.code, o.st)
    decreases p.rank[n], 1, 0
  {
    hide Bounded; hide Size; hide ArgsBounded; hide CSource; hide CRegion;
    ChildrenBelow(p, n);
    SourceBounded(p, cx, st, n, "cond");
    var c := CSource(p, cx, st, n, RoleSource(p.g, n, "cond"));
    var st1 := EmitOp(c.st, JumpIfFalse(0));
    RegionBounded(p, cx, st1, p.g.nodes[n].kind.thenRegion, p.rank[n]);
    var t := CRegion(p, cx, st1, p.g.nodes[n].kind.thenRegion, p.rank[n]);
    var st2 := EmitOp(t.st, Jump(0));
    RegionBounded(p, cx, st2, p.g.nodes[n].kind.elseRegion, p.rank[n]);
    BranchBounded(cx, c, t, CRegion(p, cx, st2, p.g.nodes[n].kind.elseRegion, p.rank[n]));
  }

  lemma {:induction false} WhileBounded(p: Program, cx: Cx, st: Cst, n: nat)
    requires WellFormed(p) && ArgsBounded(p.g) && n < |p.g.nodes| && p.g.nodes[n].kind.While?
    ensures var o := CWhile(p, cx, st, n); Bounded(cx, o.code, o.st)
    decreases p.rank[n], 1, 0
  {
    hide Bounded; hide Size; hide ArgsBounded; hide CSource; hide CRegion;
    ChildrenBelow(p, n);
    SourceBounded(p, cx, st, n, "cond");
    var c := CSource(p, cx, st, n, RoleSource(p.g, n, "cond"));
    var st1 := EmitOp(c.st, JumpIfFalse(0));
    RegionBounded(p, cx, st1, p.g.nodes[n].kind.body, p.rank[n]);
    var b := CRegion(p, cx, st1, p.g.nodes[n].kind.body, p.rank[n]);
    LoopBounded(cx, c, JumpIfFalse(Size(b.code) + 5), b, CWhile(p, cx, st, n).st);
  }

  lemma {:induction false} CycleBounded(p: Program, cx: Cx, st: Cst, n: nat)
    requires WellFormed(p) && ArgsBounded(p.g) && n < |p.g.nodes| && p.g.nodes[n].kind.Cycle?
    ensures var o := CCycle(p, cx, st, n); Bounded(cx, o.code, o.st)
    decreases p.rank[n], 1, 0
  {
    hide Bounded; hide Size; hide ArgsBounded; hide CSource; hide CMembers;
    CycleMembersBelow(p, n);
    var ms := Members(p.g, p.g.nodes[n].kind.body);
    var i := FirstBreak(p.g, ms);
    if i < |ms| {
      assert MemberBelow(p, ms[i], p.rank[n]);
      SourceBounded(p, cx, st, ms[i], "cond");
      var c := CSource(p, cx, st, ms[i], RoleSource(p.g, ms[i], "cond"));
      var st1 := EmitOp(c.st, JumpIfTrue(0));
      MembersBounded(p, cx, st1, ms, p.rank[n]);
      var b := CMembers(p, cx, st1, ms, p.rank[n]);
      assert CCycle(p, cx, st, n) == CBreakCycle(p, cx, st, ms, ms[i], p.rank[n]);
      LoopBounded(cx, c, JumpIfTrue(Size(b.code) + 5), b, CBreakCycle(p, cx, st, ms, ms[i], p.rank[n]).st);
    } else {
      MembersBounded(p, cx, st, ms, p.rank[n]);
      var b := CMembers(p, cx, st, ms, p.rank[n]);
      assert CCycle(p, cx, st, n) == CEndlessCycle(p, cx, st, ms, p.rank[n]);
      SnocBounded(cx, b.code, b.st, Jump(-(Size(b.code) + 5)), CEndlessCycle(p, cx, st, ms, p.rank[n]).st);
    }
  }

  lemma {:induction false} RegionBounded(p: Program, cx: Cx, st: Cst, r: nat, bound: nat)
    requires WellFormed(p) && ArgsBounded(p.g) && RegionBelow(p, r, bound)
    ensures var o := CRegion(p, cx, st, r, bound); Bounded(cx, o.code, o.st)
    decreases bound, 0, |Members(p.g, r)| + 1
  {
    hide Bounded; hide Size; hide ArgsBounded; hide CMembers;
    EmptyBounded(cx, st);
    if r != INVALID {
      MembersBounded(p, cx, st, Members(p.g, r), bound);
    }
  }

  lemma {:induction false} MembersBounded(p: Program, cx: Cx, st: Cst, ms: seq<nat>, bound: nat)
    requires WellFormed(p) && ArgsBounded(p.g)
    requires forall k :: 0 <= k < |ms| ==> MemberBelow(p, ms[k], bound)
    ensures var o := CMembers(p, cx, st, ms, bound); Bounded(cx, o.code, o.st)
    decreases bound, 0, |ms|
  {
    hide Bounded; hide Size; hide ArgsBounded; hide CNode;
    EmptyBounded(cx, st);
    if ms != [] {
      assert MemberBelow(p, ms[0], bound);
      var k := p.g.nodes[ms[0]].kind;
      var m := if k.Param? || IsExprNode(k) then Out([], st) else CNode(p, cx, st, ms[0]);
      NodeBounded(p, cx, st, ms[0]);
      MembersBounded(p, cx, m.st, ms[1..], bound);
      var rest := CMembers(p, cx, m.st, ms[1..], bound);
      ThenBounded(cx, m.code, m.st, rest.code, rest.st);
    }
  }

  lemma {:induction false} RootBounded(p: Program, cx: Cx, st: Cst, ms: seq<nat>)
    requires WellFormed(p) && ArgsBounded(p.g)
    requires forall k :: 0 <= k < |ms| ==> MemberBelow(p, ms[k], p.top)
    ensures var o := CRootMembers(p, cx, st, ms); Bounded(cx, o.code, o.st)
    decreases ms
  {
    hide Bounded; hide Size; hide ArgsBounded; hide CNode;
    EmptyBounded(cx, st);
    if ms != [] {
      assert MemberBelow(p, ms[0], p.top);
      var k := p.g.nodes[ms[0]].kind;
      var m := if k.FuncDef? || k.RootOutput? || IsExprNode(k) then Out([], st) else CNode(p, cx, st, ms[0]);
      NodeBounded(p, cx, st, ms[0]);
      RootBounded(p, cx, m.st, ms[1..]);
      var rest := CRootMembers(p, cx, m.st, ms[1..]);
      ThenBounded(cx, m.code, m.st, rest.code, rest.st);
    }
  }

  lemma {:induction false} MainBounded(p: Program, cx: Cx, st: Cst)
    requires WellFormed(p) && ArgsBounded(p.g)
    ensures var o := CMain(p, cx, st); Bounded(cx, o.code, o.st)
  {
    hide Bounded; hide Size; hide ArgsBounded; hide CNode; hide CRootMembers;
    WholeRegionBelow(p, p.g.root);
    var b := CRootMembers(p, cx, st, Members(p.g, p.g.root));
    RootBounded(p, cx, st, Members(p.g, p.g.root));
    var o := CMain(p, cx, st);
    if HasOutput(p.g) {
      var v := CNode(p, cx, b.st, p.g.output);
      NodeBounded(p, cx, b.st, p.g.output);
      ThenBounded(cx, b.code, b.st, v.code, v.st);
      var all := b.code + v.code;
      SnocBounded(cx, all, v.st, Dup, v.st);
      SnocBounded(cx, all + [Dup], v.st, Intrinsic(INTRINSIC_PRINT, 1), v.st);
      SnocBounded(cx, all + [Dup] + [Intrinsic(INTRINSIC_PRINT, 1)], v.st, Halt, o.st);
      assert all + [Dup] + [Intrinsic(INTRINSIC_PRINT, 1)] + [Halt] == all + [Dup, Intrinsic(INTRINSIC_PRINT, 1), Halt];
    } else {
      SnocBounded(cx, b.code, b.st, Halt, o.st);
    }
  }

  lemma {:induction false} FuncBounded(p: Program, cx: Cx, st: Cst, f: nat)
    requires WellFormed(p) && ArgsBounded(p.g) && f < |p.g.nodes| && p.g.nodes[f].kind.FuncDef?
    ensures var o := CFunc(p, cx, st, f); Bounded(cx, o.code, o.st)
  {
    hide Bounded; hide Size; hide ArgsBounded; hide CRegion; hide EmitConst; hide EncodeAll;
    var body := p.g.nodes[f].kind.body;
    WholeRegionBelow(p, body);
    RegionBounded(p, cx, EnterFunction(p, st, f), body, p.top);
    var b := CBody(p, cx, st, f);
    var k := EmitConst(b.st, NullConst);
    ConstBounded(cx, b.st, NullConst);
    ThenBounded(cx, b.code, b.st, k.code, k.st);
    SnocBounded(cx, b.code + k.code, k.st, Return, EmitOp(k.st, Return));
  }
}
