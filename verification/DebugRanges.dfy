/**
 The debug table: every range lies in the code of the function it names, also after
 main has been put in front of the table, and any two ranges are nested or disjoint.
 */
module DebugRanges {
  import opened Values
  import opened Bytecode
  import opened SemanticGraph
  import opened CodeGen
  import opened Support
  import opened Linking

  predicate Apart(a: DebugEntry, b: DebugEntry) { a.end <= b.start || b.end <= a.start }

  predicate Inside(a: DebugEntry, b: DebugEntry) { b.start <= a.start && a.end <= b.end }

  /** No two ranges overlap without one containing the other. */
  predicate Laminar(ds: seq<DebugEntry>) {
    forall i, j :: 0 <= i < j < |ds| ==> Apart(ds[i], ds[j]) || Inside(ds[i], ds[j]) || Inside(ds[j], ds[i])
  }

  predicate RangeIn(d: DebugEntry, f: nat, from: nat, to: nat) { d.funcIdx == f && from <= d.start < d.end <= to }

  predicate Between(ds: seq<DebugEntry>, f: nat, from: nat, to: nat) {
    forall k :: 0 <= k < |ds| ==> RangeIn(ds[k], f, from, to)
  }

  /** The entries added from one state to the next are for the code added, in function `f`, and laminar. */
  ghost predicate Traced(f: nat, st: Cst, next: Cst) {
    && st.len <= next.len && st.debug <= next.debug
    && Between(next.debug[|st.debug|..], f, st.len, next.len)
    && Laminar(next.debug[|st.debug|..])
  }

  lemma TracedSame(f: nat, st: Cst, next: Cst)
    requires st.len <= next.len && next.debug == st.debug
    ensures Traced(f, st, next)
  {
  }

  predicate Spans(ds: seq<DebugEntry>, from: nat, to: nat) {
    forall k :: 0 <= k < |ds| ==> from <= ds[k].start < ds[k].end <= to
  }

  lemma LaminarConcat(a: seq<DebugEntry>, b: seq<DebugEntry>, from: nat, mid: nat, to: nat)
    requires Laminar(a) && Laminar(b) && from <= mid <= to && Spans(a, from, mid) && Spans(b, mid, to)
    ensures Laminar(a + b) && Spans(a + b, from, to)
  {
    var s := a + b;
    forall i, j | 0 <= i < j < |s| ensures Apart(s[i], s[j]) || Inside(s[i], s[j]) || Inside(s[j], s[i]) {
      if i < |a| <= j {
        assert s[i] == a[i] && s[j] == b[j - |a|];
      }
    }
  }

  lemma BetweenSpans(ds: seq<DebugEntry>, f: nat, from: nat, to: nat)
    requires Between(ds, f, from, to)
    ensures Spans(ds, from, to)
  {
    forall k | 0 <= k < |ds| ensures from <= ds[k].start < ds[k].end <= to {
      assert RangeIn(ds[k], f, from, to);
    }
  }

  lemma TracedThen(f: nat, a: Cst, b: Cst, c: Cst)
    requires Traced(f, a, b) && Traced(f, b, c)
    ensures Traced(f, a, c)
  {
    var x, y := b.debug[|a.debug|..], c.debug[|b.debug|..];
    assert c.debug[|a.debug|..] == x + y;
    BetweenSpans(x, f, a.len, b.len);
    BetweenSpans(y, f, b.len, c.len);
    LaminarConcat(x, y, a.len, b.len, c.len);
  }

  /** A node's own entry covers everything its code added. */
  lemma TracedNode(f: nat, a: Cst, b: Cst, source: nat)
    requires Traced(f, a, b) && a.len < b.len
    ensures Traced(f, a, b.(debug := b.debug + [DebugEntry(f, a.len, b.len, source)]))
  {
    var d := DebugEntry(f, a.len, b.len, source);
    var x, s := b.debug[|a.debug|..], (b.debug + [d])[|a.debug|..];
    assert s == x + [d];
    forall i, j | 0 <= i < j < |s| ensures Apart(s[i], s[j]) || Inside(s[i], s[j]) || Inside(s[j], s[i]) {
      if j == |x| {
        assert RangeIn(x[i], f, a.len, b.len);
      }
    }
  }

  // ----- Nodes -----

  lemma {:induction false} NodeTraced(p: Program, cx: Cx, st: Cst, n: nat)
    requires WellFormed(p) && n < |p.g.nodes|
    ensures Traced(cx.func, st, CNode(p, cx, st, n).st)
    decreases p.rank[n], 3, 0
  {
    hide Traced; hide Size; hide CKind;
    KindTraced(p, cx, st, n);
    var o := CKind(p, cx, st, n);
    if o.st.len > st.len && p.g.nodes[n].source != 0 {
      TracedNode(cx.func, st, o.st, p.g.nodes[n].source);
    }
  }

  lemma {:induction false} KindTraced(p: Program, cx: Cx, st: Cst, n: nat)
    requires WellFormed(p) && n < |p.g.nodes|
    ensures Traced(cx.func, st, CKind(p, cx, st, n).st)
    decreases p.rank[n], 2, 0
  {
    hide Traced; hide Size;
    hide CBinary; hide CUnary; hide CShortCircuit; hide CCall; hide CLet; hide CAssign; hide CPrint; hide CReturn;
    hide CIf; hide CWhile; hide CCycle;
    TracedSame(cx.func, st, st);
    TracedSame(cx.func, st, st.(err := true));
    match p.g.nodes[n].kind
    case ConstInt(i) => TracedSame(cx.func, st, EmitConst(st, IntConst(i)).st);
    case ConstBool(b) => TracedSame(cx.func, st, EmitConst(st, BoolConst(b)).st);
    case ConstNull => TracedSame(cx.func, st, EmitConst(st, NullConst).st);
    case BinaryNode(op) => BinaryTraced(p, cx, st, n, op);
    case UnaryNode(op) => UnaryTraced(p, cx, st, n, op);
    case And => ShortCircuitTraced(p, cx, st, n, false);
    case Or => ShortCircuitTraced(p, cx, st, n, true);
    case VarRef(name) =>
      var s := FindLocal(st.locals, name);
      if s >= 0 {
        TracedSame(cx.func, st, EmitOp(st, LoadLocal(s)));
      }
    case FuncCall(name) => CallTraced(p, cx, st, n, name);
    case Let(name) => ValueTraced(p, cx, st, n);
    case Assign(name) => ValueTraced(p, cx, st, n);
    case Print => ValueTraced(p, cx, st, n);
    case RootOutput => SourceTraced(p, cx, st, n, "value");
    case ReturnNode => ValueTraced(p, cx, st, n);
    case If(_, _) => IfTraced(p, cx, st, n);
    case While(_) => WhileTraced(p, cx, st, n);
    case Cycle(_) => CycleTraced(p, cx, st, n);
    case _ =>
  }

  /** The code of a connected input. */
  lemma {:induction false} SourceTraced(p: Program, cx: Cx, st: Cst, n: nat, role: string)
    requires WellFormed(p) && n < |p.g.nodes|
    ensures var s := InputSource(p.g, n, role);
            (s == INVALID || p.rank[s] < p.rank[n]) && Traced(cx.func, st, CSource(p, cx, st, n, s).st)
    ensures var s := RoleSource(p.g, n, role);
            (s == INVALID || p.rank[s] < p.rank[n]) && Traced(cx.func, st, CSource(p, cx, st, n, s).st)
    decreases p.rank[n], 0, 0
  {
    hide Traced; hide Size; hide CNode;
    RoleBelow(p, n, role);
    TracedSame(cx.func, st, st);
    if InputSource(p.g, n, role) != INVALID {
      NodeTraced(p, cx, st, InputSource(p.g, n, role));
    }
    if RoleSource(p.g, n, role) != INVALID {
      NodeTraced(p, cx, st, RoleSource(p.g, n, role));
    }
  }

  lemma {:induction false} BinaryTraced(p: Program, cx: Cx, st: Cst, n: nat, op: BinOp)
    requires WellFormed(p) && n < |p.g.nodes|
    ensures Traced(cx.func, st, CBinary(p, cx, st, n, op).st)
    decreases p.rank[n], 1, 0
  {
    hide Traced; hide Size; hide CNode;
    var ls, rs := CompilerOperand(p.g, n, 0), CompilerOperand(p.g, n, 1);
    OperandBelow(p, n, 0);
    OperandBelow(p, n, 1);
    TracedSame(cx.func, st, st.(err := true));
    if ls != INVALID && rs != INVALID && !FoldUndefined(p.g, ls, rs, op) {
      var folded := TryFoldBinary(p.g, ls, rs, op);
      if folded.Some? {
        TracedSame(cx.func, st, EmitConst(st, ConstOf(folded.value)).st);
      } else {
        var l := CSource(p, cx, st, n, ls);
        var r := CSource(p, cx, l.st, n, rs);
        NodeTraced(p, cx, st, ls);
        NodeTraced(p, cx, l.st, rs);
        TracedThen(cx.func, st, l.st, r.st);
        TracedSame(cx.func, r.st, EmitOp(r.st, Binary(op)));
        TracedThen(cx.func, st, r.st, EmitOp(r.st, Binary(op)));
      }
    }
  }

  lemma {:induction false} UnaryTraced(p: Program, cx: Cx, st: Cst, n: nat, op: UnOp)
    requires WellFormed(p) && n < |p.g.nodes|
    ensures Traced(cx.func, st, CUnary(p, cx, st, n, op).st)
    decreases p.rank[n], 1, 0
  {
    hide Traced; hide Size; hide CNode; hide CSource;
    var s := InputSource(p.g, n, "value");
    SourceTraced(p, cx, st, n, "value");
    TracedSame(cx.func, st, st.(err := true));
    if s != INVALID {
      var folded := TryFoldUnary(p.g, s, op);
      if folded.Some? {
        TracedSame(cx.func, st, EmitConst(st, ConstOf(folded.value)).st);
      } else {
        var v := CSource(p, cx, st, n, s);
        TracedSame(cx.func, v.st, EmitOp(v.st, Unary(op)));
        TracedThen(cx.func, st, v.st, EmitOp(v.st, Unary(op)));
      }
    }
  }

  lemma {:induction false} ShortCircuitTraced(p: Program, cx: Cx, st: Cst, n: nat, isOr: bool)
    requires WellFormed(p) && n < |p.g.nodes|
    ensures Traced(cx.func, st, CShortCircuit(p, cx, st, n, isOr).st)
    decreases p.rank[n], 1, 0
  {
    hide Traced; hide Size; hide CNode; hide CSource;
    var ls, rs := RoleSource(p.g, n, "lhs"), RoleSource(p.g, n, "rhs");
    SourceTraced(p, cx, st, n, "lhs");
    TracedSame(cx.func, st, st.(err := true));
    if ls != INVALID && rs != INVALID {
      var l := CSource(p, cx, st, n, ls);
      var st1 := AfterTest(l.st, isOr);
      SourceTraced(p, cx, st1, n, "rhs");
      TracedSame(cx.func, l.st, st1);
      TracedThen(cx.func, st, l.st, st1);
      TracedThen(cx.func, st, st1, CSource(p, cx, st1, n, rs).st);
    }
  }

  lemma {:induction false} CallTraced(p: Program, cx: Cx, st: Cst, n: nat, name: string)
    requires WellFormed(p) && n < |p.g.nodes|
    ensures Traced(cx.func, st, CCall(p, cx, st, n, name).st)
    decreases p.rank[n], 1, 0
  {
    hide Traced; hide Size; hide CNode; hide CArgs;
    ArgsBelow(p, n);
    ArgsTraced(p, cx, st, n, ArgPorts(p.g, n));
    var a, o := CArgs(p, cx, st, n, ArgPorts(p.g, n)), CCall(p, cx, st, n, name);
    TracedSame(cx.func, a.st, o.st);
    TracedThen(cx.func, st, a.st, o.st);
  }

  lemma {:induction false} ArgsTraced(p: Program, cx: Cx, st: Cst, n: nat, ports: seq<nat>)
    requires WellFormed(p) && n < |p.g.nodes|
    requires forall k :: 0 <= k < |ports| ==> SourceBelow(p, n, ports[k])
    ensures Traced(cx.func, st, CArgs(p, cx, st, n, ports).st)
    decreases p.rank[n], 0, |ports|
  {
    hide Traced; hide Size; hide CNode;
    TracedSame(cx.func, st, st);
    if ports != [] {
      assert SourceBelow(p, n, ports[0]);
      var s := FindSource(p.g, ports[0]);
      var v := if s == INVALID then Out([], st) else CNode(p, cx, st, s);
      if s != INVALID {
        NodeTraced(p, cx, st, s);
      }
      ArgsTraced(p, cx, v.st, n, ports[1..]);
      TracedThen(cx.func, st, v.st, CArgs(p, cx, v.st, n, ports[1..]).st);
    }
  }

  /** The statements that compile one value and emit one instruction. */
  lemma {:induction false} ValueTraced(p: Program, cx: Cx, st: Cst, n: nat)
    requires WellFormed(p) && n < |p.g.nodes|
    ensures Traced(cx.func, st, CPrint(p, cx, st, n).st) && Traced(cx.func, st, CReturn(p, cx, st, n).st)
    ensures forall name :: Traced(cx.func, st, CLet(p, cx, st, n, name).st)
    ensures forall name :: Traced(cx.func, st, CAssign(p, cx, st, n, name).st)
    decreases p.rank[n], 1, 0
  {
    hide Traced; hide Size; hide CSource;
    SourceTraced(p, cx, st, n, "value");
    var v := CSource(p, cx, st, n, InputSource(p.g, n, "value"));
    ThenSame(cx.func, st, v.st, CPrint(p, cx, st, n).st);
    if FindPort(p.g, n, "value") != INVALID {
      ThenSame(cx.func, st, v.st, CReturn(p, cx, st, n).st);
    } else {
      TracedSame(cx.func, st, CReturn(p, cx, st, n).st);
    }
    forall name ensures Traced(cx.func, st, CLet(p, cx, st, n, name).st) {
      ThenSame(cx.func, st, v.st, CLet(p, cx, st, n, name).st);
    }
    forall name ensures Traced(cx.func, st, CAssign(p, cx, st, n, name).st) {
      ThenSame(cx.func, st, v.st, CAssign(p, cx, st, n, name).st);
    }
  }

  lemma ThenSame(f: nat, st: Cst, a: Cst, b: Cst)
    requires Traced(f, st, a) && a.len <= b.len && b.debug == a.debug
    ensures Traced(f, st, b)
  {
    TracedSame(f, a, b);
    TracedThen(f, st, a, b);
  }

  lemma {:induction false} IfTraced(p: Program, cx: Cx, st: Cst, n: nat)
    requires WellFormed(p) && n < |p.g.nodes| && p.g.nodes[n].kind.If?
    ensures Traced(cx.func, st, CIf(p, cx, st, n).st)
    decreases p.rank[n], 1, 0
  {
    hide Traced; hide Size; hide CSource; hide CRegion;
    ChildrenBelow(p, n);
    SourceTraced(p, cx, st, n, "cond");
    var c := CSource(p, cx, st, n, RoleSource(p.g, n, "cond"));
    var st1 := EmitOp(c.st, JumpIfFalse(0));
    ThenSame(cx.func, st, c.st, st1);
    RegionTraced(p, cx, st1, p.g.nodes[n].kind.thenRegion, p.rank[n]);
    var t := CRegion(p, cx, st1, p.g.nodes[n].kind.thenRegion, p.rank[n]);
    TracedThen(cx.func, st, st1, t.st);
    var st2 := EmitOp(t.st, Jump(0));
    ThenSame(cx.func, st, t.st, st2);
    RegionTraced(p, cx, st2, p.g.nodes[n].kind.elseRegion, p.rank[n]);
    TracedThen(cx.func, st, st2, CRegion(p, cx, st2, p.g.nodes[n].kind.elseRegion, p.rank[n]).st);
  }

  lemma {:induction false} WhileTraced(p: Program, cx: Cx, st: Cst, n: nat)
    requires WellFormed(p) && n < |p.g.nodes| && p.g.nodes[n].kind.While?
    ensures Traced(cx.func, st, CWhile(p, cx, st, n).st)
    decreases p.rank[n], 1, 0
  {
    hide Traced; hide Size; hide CSource; hide CRegion;
    ChildrenBelow(p, n);
    SourceTraced(p, cx, st, n, "cond");
    var c := CSource(p, cx, st, n, RoleSource(p.g, n, "cond"));
    var st1 := EmitOp(c.st, JumpIfFalse(0));
    ThenSame(cx.func, st, c.st, st1);
    RegionTraced(p, cx, st1, p.g.nodes[n].kind.body, p.rank[n]);
    var b := CRegion(p, cx, st1, p.g.nodes[n].kind.body, p.rank[n]);
    TracedThen(cx.func, st, st1, b.st);
    ThenSame(cx.func, st, b.st, CWhile(p, cx, st, n).st);
  }

  lemma {:induction false} CycleTraced(p: Program, cx: Cx, st: Cst, n: nat)
    requires WellFormed(p) && n < |p.g.nodes| && p.g.nodes[n].kind.Cycle?
    ensures Traced(cx.func, st, CCycle(p, cx, st, n).st)
    decreases p.rank[n], 1, 0
  {
    hide Traced; hide Size; hide CSource; hide CMembers;
    CycleMembersBelow(p, n);
    var ms := Members(p.g, p.g.nodes[n].kind.body);
    var i := FirstBreak(p.g, ms);
    if i < |ms| {
      assert MemberBelow(p, ms[i], p.rank[n]);
      SourceTraced(p, cx, st, ms[i], "cond");
      var c := CSource(p, cx, st, ms[i], RoleSource(p.g, ms[i], "cond"));
      var st1 := EmitOp(c.st, JumpIfTrue(0));
      ThenSame(cx.func, st, c.st, st1);
      MembersTraced(p, cx, st1, ms, p.rank[n]);
      var b := CMembers(p, cx, st1, ms, p.rank[n]);
      TracedThen(cx.func, st, st1, b.st);
      ThenSame(cx.func, st, b.st, CBreakCycle(p, cx, st, ms, ms[i], p.rank[n]).st);
      assert CCycle(p, cx, st, n) == CBreakCycle(p, cx, st, ms, ms[i], p.rank[n]);
    } else {
      MembersTraced(p, cx, st, ms, p.rank[n]);
      ThenSame(cx.func, st, CMembers(p, cx, st, ms, p.rank[n]).st, CEndlessCycle(p, cx, st, ms, p.rank[n]).st);
      assert CCycle(p, cx, st, n) == CEndlessCycle(p, cx, st, ms, p.rank[n]);
    }
  }

  lemma {:induction false} RegionTraced(p: Program, cx: Cx, st: Cst, r: nat, bound: nat)
    requires WellFormed(p) && RegionBelow(p, r, bound)
    ensures Traced(cx.func, st, CRegion(p, cx, st, r, bound).st)
    decreases bound, 0, |Members(p.g, r)| + 1
  {
    hide Traced; hide Size; hide CMembers;
    TracedSame(cx.func, st, st);
    if r != INVALID {
      MembersTraced(p, cx, st, Members(p.g, r), bound);
    }
  }

  lemma {:induction false} MembersTraced(p: Program, cx: Cx, st: Cst, ms: seq<nat>, bound: nat)
    requires WellFormed(p)
    requires forall k :: 0 <= k < |ms| ==> MemberBelow(p, ms[k], bound)
    ensures Traced(cx.func, st, CMembers(p, cx, st, ms, bound).st)
    decreases bound, 0, |ms|
  {
    hide Traced; hide Size; hide CNode;
    TracedSame(cx.func, st, st);
    if ms != [] {
      assert MemberBelow(p, ms[0], bound);
      var k := p.g.nodes[ms[0]].kind;
      var m := if k.Param? || IsExprNode(k) then Out([], st) else CNode(p, cx, st, ms[0]);
      NodeTraced(p, cx, st, ms[0]);
      MembersTraced(p, cx, m.st, ms[1..], bound);
      TracedThen(cx.func, st, m.st, CMembers(p, cx, m.st, ms[1..], bound).st);
    }
  }

  lemma {:induction false} RootTraced(p: Program, cx: Cx, st: Cst, ms: seq<nat>)
    requires WellFormed(p)
    requires forall k :: 0 <= k < |ms| ==> MemberBelow(p, ms[k], p.top)
    ensures Traced(cx.func, st, CRootMembers(p, cx, st, ms).st)
    decreases ms
  {
    hide Traced; hide Size; hide CNode;
    TracedSame(cx.func, st, st);
    if ms != [] {
      assert MemberBelow(p, ms[0], p.top);
      var k := p.g.nodes[ms[0]].kind;
      var m := if k.FuncDef? || k.RootOutput? || IsExprNode(k) then Out([], st) else CNode(p, cx, st, ms[0]);
      NodeTraced(p, cx, st, ms[0]);
      RootTraced(p, cx, m.st, ms[1..]);
      TracedThen(cx.func, st, m.st, CRootMembers(p, cx, m.st, ms[1..]).st);
    }
  }

  // ----- Functions and main -----

  lemma {:induction false} FuncTraced(p: Program, cx: Cx, st: Cst, f: nat)
    requires WellFormed(p) && f < |p.g.nodes| && p.g.nodes[f].kind.FuncDef?
    ensures var o := CFunc(p, cx, st, f);
            Traced(cx.func, st, o.st) && o.rec.codeOffset == st.len && o.rec.codeOffset + o.rec.codeLength == o.st.len
  {
    hide Size; hide CRegion; hide CloseFunction; hide Traced;
    WholeRegionBelow(p, p.g.nodes[f].kind.body);
    RegionTraced(p, cx, EnterFunction(p, st, f), p.g.nodes[f].kind.body, p.top);
    TracedSame(cx.func, st, EnterFunction(p, st, f));
    TracedThen(cx.func, st, EnterFunction(p, st, f), CBody(p, cx, st, f).st);
    FuncGrows(p, cx, st, f);
    var o := CFunc(p, cx, st, f);
    CloseGrows(CBody(p, cx, st, f));
    CloseLonger(CBody(p, cx, st, f));
    ThenSame(cx.func, st, CBody(p, cx, st, f).st, o.st);
  }

  lemma CloseLonger(b: Out)
    ensures CloseFunction(b).st.len >= b.st.len
  {
    hide EncodeAll;
  }

  lemma {:induction false} MainTraced(p: Program, cx: Cx, st: Cst)
    requires WellFormed(p)
    ensures Traced(cx.func, st, CMain(p, cx, st).st)
  {
    hide Traced; hide Size; hide CNode; hide CRootMembers;
    WholeRegionBelow(p, p.g.root);
    RootTraced(p, cx, st, Members(p.g, p.g.root));
    var b, o := CRootMembers(p, cx, st, Members(p.g, p.g.root)), CMain(p, cx, st);
    if HasOutput(p.g) {
      NodeTraced(p, cx, b.st, p.g.output);
      TracedThen(cx.func, st, b.st, CNode(p, cx, b.st, p.g.output).st);
      ThenSame(cx.func, st, CNode(p, cx, b.st, p.g.output).st, o.st);
    } else {
      ThenSame(cx.func, st, b.st, o.st);
    }
  }

  // ----- The table -----

  /** Entries for the code so far. */
  ghost predicate Table(st: Cst) { Laminar(st.debug) && Spans(st.debug, 0, st.len) }

  lemma TableGrows(f: nat, st: Cst, next: Cst)
    requires Table(st) && Traced(f, st, next)
    ensures Table(next)
  {
    var more := next.debug[|st.debug|..];
    assert next.debug == st.debug + more;
    BetweenSpans(more, f, st.len, next.len);
    LaminarConcat(st.debug, more, 0, st.len, next.len);
  }

  lemma {:induction false} FunctionsTable(p: Program, names: seq<string>, u: Unit, ids: seq<nat>)
    requires WellFormed(p) && Table(u.st)
    requires forall k :: 0 <= k < |ids| ==> ids[k] < |p.g.nodes| && p.g.nodes[ids[k]].kind.FuncDef?
    ensures Table(AddFunctions(p, names, u, ids).st)
    decreases ids
  {
    hide Table; hide CFunc; hide Traced;
    if ids != [] {
      var i := FindRecord(u.funcs, FindConst(u.st.pool, StrConst(p.g.nodes[ids[0]].kind.name)));
      FuncTraced(p, Cx(names, i), u.st, ids[0]);
      TableGrows(i, u.st, CFunc(p, Cx(names, i), u.st, ids[0]).st);
      FunctionsTable(p, names, AddFunction(p, names, u, ids[0]), ids[1..]);
    }
  }

  lemma RegisterNoDebug(p: Program)
    requires WellFormed(p)
    ensures var u := Register(p.g, EMPTY, FuncIds(p.g, 0)); u.st.debug == [] && u.st.len == 0 && u.code == [] && Table(u.st)
    ensures Registered(Register(p.g, EMPTY, FuncIds(p.g, 0)), Names(p.g, FuncIds(p.g, 0)))
  {
    var ids := FuncIds(p.g, 0);
    assert Registered(EMPTY, []);
    RegisterRegisters(p.g, EMPTY, ids, []);
    assert [] + Names(p.g, ids) == Names(p.g, ids);
  }

  /** Any two ranges of a compiled image are nested or disjoint. */
  lemma {:induction false} RangesNest(p: Program)
    requires WellFormed(p)
    ensures Laminar(Compile(p).image.debug)
  {
    hide CMain; hide AddFunctions; hide Register; hide Table; hide Laminar; hide Traced;
    var ids := FuncIds(p.g, 0);
    RegisterNoDebug(p);
    FunctionsTable(p, Names(p.g, ids), Register(p.g, EMPTY, ids), ids);
    var u, m := Functions(p), MainCode(p);
    MainTraced(p, Cx(Names(p.g, ids), 0), EnterMain(u.st));
    SameTable(u.st, EnterMain(u.st));
    TableGrows(0, EnterMain(u.st), m.st);
    ShiftNests(m.st, u.st.len);
  }

  lemma SameTable(st: Cst, next: Cst)
    requires Table(st) && next.debug == st.debug && next.len == st.len
    ensures Table(next)
  {
  }

  lemma ShiftNests(st: Cst, mainStart: nat)
    requires Table(st)
    ensures Laminar(st.debug) && Laminar(ShiftDebug(st.debug, mainStart))
  {
    var ds := ShiftDebug(st.debug, mainStart);
    forall i, j | 0 <= i < j < |ds| ensures Apart(ds[i], ds[j]) || Inside(ds[i], ds[j]) || Inside(ds[j], ds[i]) {
      var a, b := st.debug[i], st.debug[j];
      assert Apart(a, b) || Inside(a, b) || Inside(b, a);
    }
  }

  // ----- The functions named -----

  /** The entry's range is code of the function it names. */
  predicate InFunction(funcs: seq<FuncRecord>, d: DebugEntry) {
    d.funcIdx < |funcs| && d.start < d.end &&
    funcs[d.funcIdx].codeOffset <= d.start && d.end <= funcs[d.funcIdx].codeOffset + funcs[d.funcIdx].codeLength
  }

  /** Every entry names one of the first `j` functions. */
  predicate AllIn(debug: seq<DebugEntry>, funcs: seq<FuncRecord>, j: nat, len: nat) {
    forall k :: 0 <= k < |debug| ==> debug[k].funcIdx < j && InFunction(funcs, debug[k]) && debug[k].end <= len
  }

  lemma {:induction false} FunctionsNamed(p: Program, names: seq<string>, u: Unit, ids: seq<nat>, j: nat)
    requires WellFormed(p)
    requires forall k :: 0 <= k < |ids| ==> ids[k] < |p.g.nodes| && p.g.nodes[ids[k]].kind.FuncDef?
    requires Registered(u, names) && Distinct(names) && u.st.len == Size(u.code)
    requires j + |ids| == |names| && forall k :: 0 <= k < |ids| ==> names[j + k] == p.g.nodes[ids[k]].kind.name
    requires AllIn(u.st.debug, u.funcs, j, u.st.len)
    ensures var w := AddFunctions(p, names, u, ids); AllIn(w.st.debug, w.funcs, |names|, w.st.len)
    decreases ids
  {
    hide CFunc; hide Size; hide AddFunction; hide Registered; hide AllIn; hide Distinct; hide Ranked; hide Traced;
    if ids != [] {
      assert names[j + 0] == p.g.nodes[ids[0]].kind.name;
      DistinctFirst(names, j);
      AddFunctionStep(p, names, u, ids[0], j);
      FuncTraced(p, Cx(names, j), u.st, ids[0]);
      var o, v := CFunc(p, Cx(names, j), u.st, ids[0]), AddFunction(p, names, u, ids[0]);
      TableCount(u, names);
      OneMore(u.st, o.st, u.funcs, j, o.rec);
      forall k | 0 <= k < |ids[1..]| ensures names[j + 1 + k] == p.g.nodes[ids[1..][k]].kind.name {
        assert names[j + (k + 1)] == p.g.nodes[ids[k + 1]].kind.name;
      }
      FunctionsNamed(p, names, v, ids[1..], j + 1);
    }
  }

  lemma TableCount(u: Unit, names: seq<string>)
    requires Registered(u, names)
    ensures |u.funcs| == |names|
  {
  }

  lemma OneMore(st: Cst, next: Cst, funcs: seq<FuncRecord>, j: nat, rec: FuncRecord)
    requires AllIn(st.debug, funcs, j, st.len) && Traced(j, st, next) && j < |funcs|
    requires rec.codeOffset == st.len && rec.codeOffset + rec.codeLength == next.len
    ensures AllIn(next.debug, funcs[j := rec], j + 1, next.len)
  {
    forall k | 0 <= k < |next.debug|
      ensures next.debug[k].funcIdx < j + 1 && InFunction(funcs[j := rec], next.debug[k]) && next.debug[k].end <= next.len
    {
      if k < |st.debug| {
        assert next.debug[k] == st.debug[k];
      } else {
        assert RangeIn(next.debug[|st.debug|..][k - |st.debug|], j, st.len, next.len);
      }
    }
  }

  /** With distinct function names every range of the image is code of the function it names. */
  lemma {:induction false} RangesNamed(p: Program)
    requires WellFormed(p) && Distinct(Names(p.g, FuncIds(p.g, 0)))
    ensures var img := Compile(p).image; forall k :: 0 <= k < |img.debug| ==> InFunction(img.functions, img.debug[k])
  {
    hide CMain; hide AddFunctions; hide Register; hide Size; hide Traced; hide Registered; hide Distinct; hide Ranked; hide AllIn;
    var ids := FuncIds(p.g, 0);
    var names, start := Names(p.g, ids), Register(p.g, EMPTY, ids);
    RegisterNoDebug(p);
    NothingIn(start);
    FunctionsNamed(p, names, start, ids, 0);
    AddFunctionsPlaces(p, names, start, ids, 0);
    var u, m := Functions(p), MainCode(p);
    TableCount(u, names);
    MainTraced(p, Cx(names, 0), EnterMain(u.st));
    MainNamed(u, EnterMain(u.st), m, Compile(p).image.functions[0]);
    NoFunctionsNoDebug(u);
  }

  lemma NothingIn(u: Unit)
    requires u.st.debug == [] && u.code == [] && u.st.len == 0
    ensures AllIn(u.st.debug, u.funcs, 0, u.st.len) && u.st.len == Size(u.code)
  {
  }

  lemma NoFunctionsNoDebug(u: Unit)
    requires AllIn(u.st.debug, u.funcs, |u.funcs|, u.st.len)
    ensures |u.funcs| == 0 ==> u.st.debug == []
  {
    if u.st.debug != [] {
      assert InFunction(u.funcs, u.st.debug[0]);
    }
  }

  /** Main's entries name function 0, and the entries before main move up with their functions. */
  lemma MainNamed(u: Unit, st: Cst, m: Out, rec: FuncRecord)
    requires AllIn(u.st.debug, u.funcs, |u.funcs|, u.st.len) && Traced(0, st, m.st)
    requires st.debug == u.st.debug && st.len == u.st.len == rec.codeOffset && rec.codeOffset + rec.codeLength == m.st.len
    ensures var ds := ShiftDebug(m.st.debug, u.st.len);
            forall k :: 0 <= k < |ds| ==> InFunction([rec] + u.funcs, ds[k])
    ensures u.st.debug == [] ==> forall k :: 0 <= k < |m.st.debug| ==> InFunction([rec], m.st.debug[k])
  {
    var ds := ShiftDebug(m.st.debug, u.st.len);
    forall k | 0 <= k < |ds| ensures InFunction([rec] + u.funcs, ds[k]) {
      if k < |st.debug| {
        assert m.st.debug[k] == u.st.debug[k] && InFunction(u.funcs, u.st.debug[k]);
      } else {
        assert RangeIn(m.st.debug[|st.debug|..][k - |st.debug|], 0, st.len, m.st.len);
      }
    }
    if u.st.debug == [] {
      forall k | 0 <= k < |m.st.debug| ensures InFunction([rec], m.st.debug[k]) {
        assert RangeIn(m.st.debug[0..][k], 0, st.len, m.st.len);
      }
    }
  }

  // ----- Two functions with one name -----

  /** Two functions `f`, each returning at a node with a source element. */
  const TWINS: Graph := Graph(
    [Node(0, FuncDef("f", 1, 0), 0, 0, [], []), Node(1, FuncDef("f", 2, 0), 0, 0, [], []),
     Node(2, ReturnNode, 1, 7, [], []), Node(3, ReturnNode, 2, 8, [], [])],
    [], [], [Region(0, INVALID, [0, 1]), Region(1, 0, [2]), Region(2, 0, [3])], 0, INVALID)

  const TWIN: Program := Program(TWINS, [0, 0, 0, 0], 1, false)

  lemma TwinWellFormed()
    ensures WellFormed(TWIN)
  {
    forall n | 0 <= n < 4 ensures Ranked(TWIN, n) {
      assert n == 0 || n == 1 || n == 2 || n == 3;
    }
  }

  lemma TwinIds()
    ensures FuncIds(TWINS, 0) == [0, 1] && Names(TWINS, [0, 1]) == ["f", "f"]
  {
    assert FuncIds(TWINS, 4) == [];
    assert FuncIds(TWINS, 3) == [];
    assert FuncIds(TWINS, 2) == [];
    assert FuncIds(TWINS, 1) == [1];
  }

  /** The return node's entry starts where its function does. */
  lemma TwinReturn(cx: Cx, st: Cst)
    requires WellFormed(TWIN)
    ensures var d := CNode(TWIN, cx, st, 2).st.debug;
            |d| > |st.debug| && st.debug <= d && d[|st.debug|].start == st.len && d[|st.debug|].funcIdx == cx.func
  {
    hide Ranked; hide Indexed;
    assert FindPort(TWINS, 2, "value") == INVALID;
    var v := EmitConst(st, NullConst);
    assert v.st.len == st.len + 3 && v.st.debug == st.debug;
    var o := CReturn(TWIN, cx, st, 2);
    assert o.st == EmitOp(v.st, Return);
    assert CKind(TWIN, cx, st, 2) == o;
    assert TWINS.nodes[2].source == 7;
  }

  lemma TwinBody(cx: Cx, st: Cst)
    requires WellFormed(TWIN)
    ensures var d := CFunc(TWIN, cx, st, 0).st.debug;
            |d| > |st.debug| && st.debug <= d && d[|st.debug|].start == st.len && d[|st.debug|].funcIdx == cx.func
  {
    hide Ranked; hide Indexed; hide CloseFunction; hide CNode;
    var p, enter := TWIN, EnterFunction(TWIN, st, 0);
    WholeRegionBelow(p, 1);
    TwinReturn(cx, enter);
    var m := CNode(p, cx, enter, 2);
    assert [2][1..] == [];
    assert CMembers(p, cx, m.st, [], p.top) == Out([], m.st);
    assert CMembers(p, cx, enter, [2], p.top).st == m.st;
    CloseGrows(CBody(p, cx, st, 0));
  }

  lemma TwinTable()
    requires WellFormed(TWIN)
    ensures var u := Register(TWINS, EMPTY, [0, 1]);
            |u.funcs| == 2 && u.funcs[0].nameIdx == 0 && u.st.pool == [StrConst("f")] && u.st.len == 0 && u.st.debug == []
  {
    var u1 := EMPTY.(st := EMPTY.st.(pool := Intern([], StrConst("f"))), funcs := [FuncRecord(0, 0, 0, 0, 0, 0)]);
    assert u1.st.pool == [StrConst("f")];
    assert [0, 1][1..] == [1] && [1][1..] == [];
    assert EMPTY.funcs + [FuncRecord(0, 0, 0, 0, 0, 0)] == u1.funcs;
    var u2 := u1.(funcs := u1.funcs + [FuncRecord(0, 0, 0, 0, 0, 0)]);
    assert FindConst(u1.st.pool, StrConst("f")) == 0 && Intern(u1.st.pool, StrConst("f")) == u1.st.pool;
    assert Register(TWINS, u2, []) == u2;
    assert Register(TWINS, u1, [1]) == u2;
  }

  /** The second `f` takes the record over: the table's first entry names code in front of it. */
  lemma {:induction false} TwinFunctions()
    requires WellFormed(TWIN)
    ensures var u := Functions(TWIN);
            |u.funcs| == 2 && u.st.debug != [] && u.st.debug[0].funcIdx == 0 && u.st.debug[0].start == 0 < u.funcs[0].codeOffset <= u.st.len
  {
    hide CFunc; hide Ranked; hide Indexed; hide Register; hide Traced;
    TwinIds();
    TwinTable();
    var p, names, u0 := TWIN, ["f", "f"], Register(TWINS, EMPTY, [0, 1]);
    var cx := Cx(names, 0);
    assert FindConst(u0.st.pool, StrConst("f")) == 0 && FindRecord(u0.funcs, 0) == 0;
    var o1, u1 := CFunc(p, cx, u0.st, 0), AddFunction(p, names, u0, 0);
    TwinBody(cx, u0.st);
    FuncTraced(p, cx, u0.st, 0);
    TracedStart(0, u0.st, o1.st);
    FuncGrows(p, cx, u0.st, 0);
    TwinName(p, cx, u0.st, 0);
    assert u1.funcs[0].nameIdx == 0 && u1.st.pool[0] == StrConst("f");
    assert FindConst(u1.st.pool, StrConst("f")) == 0 && FindRecord(u1.funcs, 0) == 0;
    var o2, u2 := CFunc(p, cx, u1.st, 1), AddFunction(p, names, u1, 1);
    FuncTraced(p, cx, u1.st, 1);
    TracedStart(0, u1.st, o2.st);
    assert [0, 1][1..] == [1] && [1][1..] == [];
    assert AddFunctions(p, names, u2, []) == u2;
    assert AddFunctions(p, names, u1, [1]) == u2;
    assert AddFunctions(p, names, u0, [0, 1]) == u2;
  }

  lemma TwinName(p: Program, cx: Cx, st: Cst, f: nat)
    requires WellFormed(p) && f < |p.g.nodes| && p.g.nodes[f].kind.FuncDef?
    ensures CFunc(p, cx, st, f).rec.nameIdx == FindConst(st.pool, StrConst(p.g.nodes[f].kind.name))
  {
    hide CBody; hide CloseFunction;
  }

  lemma TracedStart(f: nat, st: Cst, next: Cst)
    requires Traced(f, st, next)
    ensures st.debug <= next.debug && st.len <= next.len && (next.debug != st.debug ==> st.len < next.len)
  {
    if |next.debug| > |st.debug| {
      assert RangeIn(next.debug[|st.debug|..][0], f, st.len, next.len);
    }
  }

  /** Distinct names are needed: an entry of the first `f` does not lie in the function it names. */
  lemma {:induction false} TwinsMisnamed()
    ensures WellFormed(TWIN)
    ensures var img := Compile(TWIN).image; img.debug != [] && !InFunction(img.functions, img.debug[0])
  {
    TwinWellFormed();
    hide Functions; hide Ranked; hide Indexed; hide CMain; hide Traced;
    TwinFunctions();
    var u, m := Functions(TWIN), MainCode(TWIN);
    MainTraced(TWIN, Cx(Names(TWINS, FuncIds(TWINS, 0)), 0), EnterMain(u.st));
    TracedStart(0, EnterMain(u.st), m.st);
    assert m.st.debug[0] == u.st.debug[0];
  }
}
