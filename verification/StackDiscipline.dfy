/** The compiler's code has consistent operand heights, and the height it tracks bounds them. */
module StackDiscipline {
  import opened Values
  import opened Bytecode
  import opened SemanticGraph
  import opened CodeGen
  import opened Support
  import opened RunFacts
  import opened Verifier
  import opened StackFlow
  import opened HeightCertificates
  import opened Compiling

  /** Nothing the verifier has no pop count for: no print statements, and calls without arguments. */
  ghost predicate FixedPops(p: Program)
    requires WellFormed(p)
  {
    forall n :: 0 <= n < |p.g.nodes| ==> NodeFixed(p.g, n)
  }

  predicate NodeFixed(g: Graph, n: nat)
    requires Indexed(g) && n < |g.nodes|
  {
    !g.nodes[n].kind.Print? && (g.nodes[n].kind.FuncCall? ==> ArgPorts(g, n) == [])
  }

  ghost predicate Disciplined(p: Program) {
    WellFormed(p) && ValuesFed(p.g) && NodesSupported(p) && FixedPops(p)
  }

  function Max(a: int, b: int): int { if a < b then b else a }

  /** Compiled from tracked height `d`, the code flows from `d` to `e`, the new tracked height, below the tracked maximum. */
  ghost predicate Tracks(st: Cst, o: Out, hs: seq<int>, d: int, e: int) {
    && Flow(o.code, hs, d, e) && o.st.depth == e && st.max <= o.st.max && e <= o.st.max
    && AtMost(hs, o.st.max)
    && o.st.max <= Max(st.max, d + Size(o.code)) && e <= d + Size(o.code)
  }

  /** The tracked height before some code. */
  ghost predicate AtHeight(st: Cst, d: int) { st.depth == d && 0 <= d <= st.max }

  lemma TracksNothing(st: Cst, d: int)
    requires AtHeight(st, d)
    ensures Tracks(st, Out([], st), [], d, d)
  {
    FlowEmpty(d);
  }

  lemma {:induction false} TracksThen(st: Cst, a: Out, ha: seq<int>, b: Out, hb: seq<int>, d: int, m: int, e: int)
    requires Tracks(st, a, ha, d, m) && Tracks(a.st, b, hb, m, e)
    ensures Tracks(st, Out(a.code + b.code, b.st), ha + hb, d, e)
  {
    FlowThen(a.code, ha, b.code, hb, d, m, e);
    SizeConcat(a.code, b.code);
    hide Size; hide Flow;
  }

  lemma {:induction false} TracksOp(st: Cst, i: Instr, d: int)
    requires AtHeight(st, d) && Falls(i) && !IsJump(i) && i.PopCount() <= d
    ensures Tracks(st, Out([i], EmitOp(st, i)), [d], d, Post(i, d)) && AtHeight(EmitOp(st, i), Post(i, d))
  {
    FlowOne(i, d);
    EncodeOne(i);
    SmallEffect(i);
  }

  /** Code, then one more plain instruction. */
  lemma {:induction false} TracksSnoc(st: Cst, a: Out, ha: seq<int>, i: Instr, d: int, m: int)
    requires Tracks(st, a, ha, d, m) && AtHeight(st, d) && Falls(i) && !IsJump(i) && i.PopCount() <= m && 0 <= m
    ensures Tracks(st, Out(a.code + [i], EmitOp(a.st, i)), ha + [m], d, Post(i, m))
    ensures AtHeight(EmitOp(a.st, i), Post(i, m))
  {
    hide Flow; hide Size; hide EmitOp;
    TracksOp(a.st, i, m);
    TracksThen(st, a, ha, Out([i], EmitOp(a.st, i)), [m], d, m, Post(i, m));
  }

  lemma TracksStart(st: Cst, a: Out, ha: seq<int>, d: int, e: int)
    requires Tracks(st, a, ha, d, e)
    ensures AtHeight(a.st, e) && |ha| == |a.code|
  {
  }

  lemma TracksConst(st: Cst, c: Constant, d: int)
    requires AtHeight(st, d)
    ensures var o := EmitConst(st, c); Tracks(st, o, [d], d, d + 1)
  {
    var i := Const(FindConst(st.pool, c));
    TracksOp(st.(pool := Intern(st.pool, c)), i, d);
  }

  // ----- Expressions -----

  /** An expression leaves exactly one value more. */
  lemma {:induction false} ExprTracks(p: Program, cx: Cx, st: Cst, n: nat, d: int) returns (hs: seq<int>)
    requires Disciplined(p) && n < |p.g.nodes| && IsExprNode(p.g.nodes[n].kind) && AtHeight(st, d)
    requires !CNode(p, cx, st, n).st.err
    ensures Tracks(st, CNode(p, cx, st, n), hs, d, d + 1)
    decreases p.rank[n], 3
  {
    hide CKind; hide Flow; hide Indexed; hide Ranked; hide ValuesFed; hide NodesSupported; hide FixedPops;
    hs := ExprKindTracks(p, cx, st, n, d);
    SameTracks(st, CKind(p, cx, st, n), CNode(p, cx, st, n), hs, d, d + 1);
  }

  lemma SameTracks(st: Cst, a: Out, b: Out, hs: seq<int>, d: int, e: int)
    requires Tracks(st, a, hs, d, e) && b.code == a.code && b.st.depth == a.st.depth && b.st.max == a.st.max
    ensures Tracks(st, b, hs, d, e)
  {
  }

  lemma {:induction false} ExprKindTracks(p: Program, cx: Cx, st: Cst, n: nat, d: int) returns (hs: seq<int>)
    requires Disciplined(p) && n < |p.g.nodes| && IsExprNode(p.g.nodes[n].kind) && AtHeight(st, d)
    requires !CKind(p, cx, st, n).st.err
    ensures Tracks(st, CKind(p, cx, st, n), hs, d, d + 1)
    decreases p.rank[n], 2
  {
    hide CBinary; hide CUnary; hide CShortCircuit; hide CCall; hide Tracks; hide Indexed; hide Ranked; hide ValuesFed;
    hide NodesSupported; hide FixedPops;
    var k := p.g.nodes[n].kind;
    if k.ConstInt? {
      TracksConst(st, IntConst(k.i), d);
      hs := [d];
    } else if k.ConstBool? {
      TracksConst(st, BoolConst(k.b), d);
      hs := [d];
    } else if k.ConstNull? {
      TracksConst(st, NullConst, d);
      hs := [d];
    } else if k.BinaryNode? {
      hs := BinaryTracks(p, cx, st, n, k.bop, d);
    } else if k.UnaryNode? {
      hs := UnaryTracks(p, cx, st, n, k.uop, d);
    } else if k.And? || k.Or? {
      hs := ShortCircuitTracks(p, cx, st, n, k.Or?, d);
    } else if k.VarRef? {
      var s := FindLocal(st.locals, k.name);
      TracksOp(st, LoadLocal(if s < 0 then 0 else s), d);
      hs := [d];
    } else if k.FuncCall? {
      CallTracks(p, cx, st, n, k.name, d);
      hs := [d];
    }
  }

  lemma {:induction false} SourceTracks(p: Program, cx: Cx, st: Cst, n: nat, s: nat, d: int) returns (hs: seq<int>)
    requires Disciplined(p) && n < |p.g.nodes| && AtHeight(st, d)
    requires s < |p.g.nodes| && s != INVALID && p.rank[s] < p.rank[n] && IsExprNode(p.g.nodes[s].kind)
    requires !CSource(p, cx, st, n, s).st.err
    ensures Tracks(st, CSource(p, cx, st, n, s), hs, d, d + 1)
    decreases p.rank[n], 0
  {
    hide CNode; hide Tracks; hide Indexed; hide Ranked; hide ValuesFed; hide NodesSupported; hide FixedPops;
    hs := ExprTracks(p, cx, st, s, d);
  }

  lemma {:induction false} BinaryTracks(p: Program, cx: Cx, st: Cst, n: nat, op: BinOp, d: int) returns (hs: seq<int>)
    requires Disciplined(p) && n < |p.g.nodes| && AtHeight(st, d) && !CBinary(p, cx, st, n, op).st.err
    ensures Tracks(st, CBinary(p, cx, st, n, op), hs, d, d + 1)
    decreases p.rank[n], 1
  {
    hide CSource; hide Tracks; hide Ranked; hide NodesSupported; hide FixedPops; hide CompilerOperand; hide EmitOp; hide CBinary;
    CodeGen.OperandBelow(p, n, 0);
    CodeGen.OperandBelow(p, n, 1);
    OperandFed(p.g, n, 0);
    OperandFed(p.g, n, 1);
    hide Indexed; hide ValuesFed;
    var ls, rs := CompilerOperand(p.g, n, 0), CompilerOperand(p.g, n, 1);
    BinaryShape(p, cx, st, n, op, ls, rs);
    if ls != INVALID && rs != INVALID && !FoldUndefined(p.g, ls, rs, op) {
      var folded := TryFoldBinary(p.g, ls, rs, op);
      if folded.Some? {
        TracksConst(st, ConstOf(folded.value), d);
        hs := [d];
      } else {
        var l := CSource(p, cx, st, n, ls);
        var r := CSource(p, cx, l.st, n, rs);
        ErrLater(r.st, Binary(op));
        var hl := SourceTracks(p, cx, st, n, ls, d);
        TracksStart(st, l, hl, d, d + 1);
        var hr := SourceTracks(p, cx, l.st, n, rs, d + 1);
        TracksThen(st, l, hl, r, hr, d, d + 1, d + 2);
        TracksSnoc(st, Out(l.code + r.code, r.st), hl + hr, Binary(op), d, d + 2);
        hs := hl + hr + [d + 2];
      }
    }
  }

  lemma ErrLater(st: Cst, i: Instr)
    ensures EmitOp(st, i).err == st.err
  {
  }

  lemma {:induction false} UnaryTracks(p: Program, cx: Cx, st: Cst, n: nat, op: UnOp, d: int) returns (hs: seq<int>)
    requires Disciplined(p) && n < |p.g.nodes| && AtHeight(st, d) && !CUnary(p, cx, st, n, op).st.err
    ensures Tracks(st, CUnary(p, cx, st, n, op), hs, d, d + 1)
    decreases p.rank[n], 1
  {
    hide CSource; hide Tracks; hide Ranked; hide NodesSupported; hide FixedPops; hide InputSource; hide EmitOp;
    RoleBelow(p, n, "value");
    RoleFed(p.g, n, "value");
    hide Indexed; hide ValuesFed;
    var s := InputSource(p.g, n, "value");
    if s != INVALID {
      var folded := TryFoldUnary(p.g, s, op);
      if folded.Some? {
        TracksConst(st, ConstOf(folded.value), d);
        hs := [d];
      } else {
        var v := CSource(p, cx, st, n, s);
        ErrLater(v.st, Unary(op));
        var hv := SourceTracks(p, cx, st, n, s, d);
        TracksSnoc(st, v, hv, Unary(op), d, d + 1);
        hs := hv + [d + 1];
      }
    }
  }

  lemma {:induction false} ShortCircuitTracks(p: Program, cx: Cx, st: Cst, n: nat, isOr: bool, d: int) returns (hs: seq<int>)
    requires Disciplined(p) && n < |p.g.nodes| && AtHeight(st, d) && !CShortCircuit(p, cx, st, n, isOr).st.err
    ensures Tracks(st, CShortCircuit(p, cx, st, n, isOr), hs, d, d + 1)
    decreases p.rank[n], 1
  {
    hide CSource; hide Tracks; hide Ranked; hide NodesSupported; hide FixedPops; hide RoleSource; hide CShortCircuit;
    RoleBelow(p, n, "lhs");
    RoleBelow(p, n, "rhs");
    RoleFed(p.g, n, "lhs");
    RoleFed(p.g, n, "rhs");
    hide Indexed; hide ValuesFed;
    var ls, rs := RoleSource(p.g, n, "lhs"), RoleSource(p.g, n, "rhs");
    if ls == INVALID || rs == INVALID {
      ShortCircuitError(p, cx, st, n, isOr);
    } else {
      var l := CSource(p, cx, st, n, ls);
      var mid := AfterTest(l.st, isOr);
      var r := CSource(p, cx, mid, n, rs);
      ShortCircuitShape(p, cx, st, n, isOr, l, r);
      assert mid.err == l.st.err;
      var hl := SourceTracks(p, cx, st, n, ls, d);
      TracksStart(st, l, hl, d, d + 1);
      TestStarts(l.st, isOr, d);
      var hr := SourceTracks(p, cx, mid, n, rs, d);
      hs := DecideTracks(st, l, hl, isOr, r, hr, d);
    }
  }

  lemma TestStarts(st: Cst, isOr: bool, d: int)
    requires AtHeight(st, d + 1) && d >= 0
    ensures AtHeight(AfterTest(st, isOr), d) && AfterTest(st, isOr).max == Max(st.max, d + 2)
  {
  }

  lemma {:induction false} DecideTracks(st: Cst, l: Out, hl: seq<int>, isOr: bool, r: Out, hr: seq<int>, d: int) returns (hs: seq<int>)
    requires AtHeight(st, d) && Tracks(st, l, hl, d, d + 1) && Tracks(AfterTest(l.st, isOr), r, hr, d, d + 1)
    ensures var skip := JumpWith(if isOr then OP_JUMP_IF_TRUE else OP_JUMP_IF_FALSE, 1 + Size(r.code));
            Tracks(st, Out(l.code + [Dup] + [skip] + [Pop] + r.code, r.st), hs, d, d + 1)
  {
    hide Flow; hide Size; hide AfterTest; hide AtMost;
    var skip := JumpWith(if isOr then OP_JUMP_IF_TRUE else OP_JUMP_IF_FALSE, 1 + Size(r.code));
    TracksStart(st, l, hl, d, d + 1);
    TestStarts(l.st, isOr, d);
    DecideFlow(l.code, hl, skip, r.code, hr, d);
    hs := hl + [d + 1] + [d + 2] + [d + 1] + hr;
    SkipSize([], l.code, r.code);
    var code := l.code + [Dup] + [skip] + [Pop] + r.code;
    assert code == l.code + [Dup, skip, Pop] + r.code;
    ShortCircuitSize(l.code, skip, r.code);
    DecideBounded(hl, l.st.max, hr, d, r.st.max);
  }

  lemma DecideBounded(a: seq<int>, inner: int, b: seq<int>, d: int, m: int)
    requires d + 2 <= m && inner <= m && AtMost(a, inner) && AtMost(b, m)
    ensures AtMost(a + [d + 1] + [d + 2] + [d + 1] + b, m)
  {
  }

  lemma {:induction false} DecideFlow(l: seq<Instr>, hl: seq<int>, skip: Instr, r: seq<Instr>, hr: seq<int>, d: int)
    requires skip == JumpIfTrue(1 + Size(r)) || skip == JumpIfFalse(1 + Size(r))
    requires 0 <= d && Flow(l, hl, d, d + 1) && Flow(r, hr, d, d + 1)
    ensures Flow(l + [Dup] + [skip] + [Pop] + r, hl + [d + 1] + [d + 2] + [d + 1] + hr, d, d + 1)
  {
    hide Flow; hide Size;
    FlowOne(Dup, d + 1);
    FlowThen(l, hl, [Dup], [d + 1], d, d + 1, d + 2);
    FlowOne(Pop, d + 1);
    FlowThen([Pop], [d + 1], r, hr, d + 1, d, d + 1);
    SkipSize([], l, r);
    FlowSkip(skip, [Pop] + r, [d + 1] + hr, d + 2, d + 1);
    FlowThen(l + [Dup], hl + [d + 1], [skip] + ([Pop] + r), [d + 2] + ([d + 1] + hr), d, d + 2, d + 1);
    assert l + [Dup] + ([skip] + ([Pop] + r)) == l + [Dup] + [skip] + [Pop] + r;
    assert hl + [d + 1] + ([d + 2] + ([d + 1] + hr)) == hl + [d + 1] + [d + 2] + [d + 1] + hr;
  }

  lemma {:induction false} CallTracks(p: Program, cx: Cx, st: Cst, n: nat, name: string, d: int)
    requires Disciplined(p) && n < |p.g.nodes| && p.g.nodes[n].kind == FuncCall(name) && AtHeight(st, d)
    requires !CCall(p, cx, st, n, name).st.err
    ensures Tracks(st, CCall(p, cx, st, n, name), [d], d, d + 1)
  {
    hide Ranked; hide ValuesFed; hide NodesSupported; hide ArgPorts;
    assert NodeFixed(p.g, n);
    ArgsBelow(p, n);
    NoArgs(p, cx, st, n);
    var f := FindName(cx.names, name);
    FlowOne(Call(f, 0), d);
    EncodeOne(Call(f, 0));
    assert [] + [Call(f, 0)] == [Call(f, 0)];
  }

  // ----- Statements -----

  predicate IsStatement(k: Kind) { !k.Param? && !IsExprNode(k) && !k.RootOutput? }

  /** A statement starts and ends at height zero. */
  lemma {:induction false} StmtTracks(p: Program, cx: Cx, st: Cst, n: nat) returns (hs: seq<int>)
    requires Disciplined(p) && n < |p.g.nodes| && IsStatement(p.g.nodes[n].kind) && AtHeight(st, 0)
    requires !CNode(p, cx, st, n).st.err
    ensures Tracks(st, CNode(p, cx, st, n), hs, 0, 0)
    decreases p.rank[n], 4
  {
    hide CKind; hide Flow; hide Indexed; hide Ranked; hide ValuesFed; hide NodesSupported; hide FixedPops;
    hs := StmtKindTracks(p, cx, st, n);
    SameTracks(st, CKind(p, cx, st, n), CNode(p, cx, st, n), hs, 0, 0);
  }

  lemma {:induction false} StmtKindTracks(p: Program, cx: Cx, st: Cst, n: nat) returns (hs: seq<int>)
    requires Disciplined(p) && n < |p.g.nodes| && IsStatement(p.g.nodes[n].kind) && AtHeight(st, 0)
    requires !CKind(p, cx, st, n).st.err
    ensures Tracks(st, CKind(p, cx, st, n), hs, 0, 0)
    decreases p.rank[n], 3
  {
    hide CLet; hide CAssign; hide CReturn; hide CIf; hide CWhile; hide CCycle; hide Tracks; hide Indexed; hide Ranked; hide ValuesFed;
    hide NodesSupported;
    assert NodeFixed(p.g, n);
    hide FixedPops;
    var k := p.g.nodes[n].kind;
    if k.Let? {
      hs := LetTracks(p, cx, st, n, k.name);
    } else if k.Assign? {
      hs := AssignTracks(p, cx, st, n, k.name);
    } else if k.ReturnNode? {
      hs := ReturnTracks(p, cx, st, n);
    } else if k.If? {
      hs := IfTracks(p, cx, st, n);
    } else if k.While? {
      hs := WhileTracks(p, cx, st, n);
    } else if k.Cycle? {
      hs := CycleTracks(p, cx, st, n);
    } else if k.BreakIf? || k.Sequence? {
      TracksNothing(st, 0);
      hs := [];
    }
  }

  /** The value of a statement, from height zero. */
  lemma {:induction false} ValueTracks(p: Program, cx: Cx, st: Cst, n: nat) returns (hs: seq<int>)
    requires Disciplined(p) && n < |p.g.nodes| && AtHeight(st, 0) && InputSource(p.g, n, "value") != INVALID
    requires !CSourceOf(p, cx, st, n).st.err
    ensures Tracks(st, CSourceOf(p, cx, st, n), hs, 0, 1) && AtHeight(CSourceOf(p, cx, st, n).st, 1)
    decreases p.rank[n], 1
  {
    hide CSource; hide Tracks; hide Ranked; hide NodesSupported; hide FixedPops; hide InputSource;
    RoleBelow(p, n, "value");
    RoleFed(p.g, n, "value");
    hide Indexed; hide ValuesFed;
    hs := SourceTracks(p, cx, st, n, InputSource(p.g, n, "value"), 0);
    TracksStart(st, CSourceOf(p, cx, st, n), hs, 0, 1);
  }

  lemma {:induction false} LetTracks(p: Program, cx: Cx, st: Cst, n: nat, name: string) returns (hs: seq<int>)
    requires Disciplined(p) && n < |p.g.nodes| && p.g.nodes[n].kind.Let? && AtHeight(st, 0) && !CLet(p, cx, st, n, name).st.err
    ensures Tracks(st, CLet(p, cx, st, n, name), hs, 0, 0)
    decreases p.rank[n], 2
  {
    hide CSource; hide Tracks; hide Ranked; hide InputSource; hide EmitOp; hide Indexed; hide ValuesFed; hide FixedPops;
    assert NodeSupported(p, n);
    var v := CSourceOf(p, cx, st, n);
    var i := StoreLocal(|v.st.locals|);
    ErrLater(v.st.(locals := v.st.locals + [name]), i);
    var hv := ValueTracks(p, cx, st, n);
    var w := Out(v.code, v.st.(locals := v.st.locals + [name]));
    assert Tracks(st, w, hv, 0, 1) by { SameTracks(st, v, w, hv, 0, 1); }
    TracksSnoc(st, w, hv, i, 0, 1);
    hs := hv + [1];
  }

  lemma {:induction false} AssignTracks(p: Program, cx: Cx, st: Cst, n: nat, name: string) returns (hs: seq<int>)
    requires Disciplined(p) && n < |p.g.nodes| && p.g.nodes[n].kind.Assign? && AtHeight(st, 0) && !CAssign(p, cx, st, n, name).st.err
    ensures Tracks(st, CAssign(p, cx, st, n, name), hs, 0, 0)
    decreases p.rank[n], 2
  {
    hide CSource; hide Tracks; hide Ranked; hide InputSource; hide EmitOp; hide Indexed; hide ValuesFed; hide FixedPops;
    assert NodeSupported(p, n);
    var v := CSourceOf(p, cx, st, n);
    var s := FindLocal(v.st.locals, name);
    var i := StoreLocal(if s < 0 then 0 else s);
    ErrLater(v.st, i);
    var hv := ValueTracks(p, cx, st, n);
    TracksSnoc(st, v, hv, i, 0, 1);
    hs := hv + [1];
  }

  lemma {:induction false} ReturnTracks(p: Program, cx: Cx, st: Cst, n: nat) returns (hs: seq<int>)
    requires Disciplined(p) && n < |p.g.nodes| && p.g.nodes[n].kind.ReturnNode? && AtHeight(st, 0) && !CReturn(p, cx, st, n).st.err
    ensures Tracks(st, CReturn(p, cx, st, n), hs, 0, 0)
    decreases p.rank[n], 2
  {
    hide CSource; hide Tracks; hide Ranked; hide InputSource; hide FindPort; hide EmitOp; hide Indexed; hide ValuesFed; hide FixedPops;
    assert NodeSupported(p, n);
    if FindPort(p.g, n, "value") != INVALID {
      var v := CSourceOf(p, cx, st, n);
      ErrLater(v.st, Return);
      var hv := ValueTracks(p, cx, st, n);
      hs := ReturnAfter(st, v, hv);
    } else {
      TracksConst(st, NullConst, 0);
      hs := ReturnAfter(st, EmitConst(st, NullConst), [0]);
    }
  }

  /** A value, then the return that takes it. */
  lemma {:induction false} ReturnAfter(st: Cst, v: Out, hv: seq<int>) returns (hs: seq<int>)
    requires AtHeight(st, 0) && Tracks(st, v, hv, 0, 1)
    ensures Tracks(st, Out(v.code + [Return], EmitOp(v.st, Return)), hs, 0, 0)
  {
    TracksStart(st, v, hv, 0, 1);
    FlowStop(Return, 1);
    EncodeOne(Return);
    assert Tracks(v.st, Out([Return], EmitOp(v.st, Return)), [1], 1, 0);
    hide Tracks; hide EmitOp;
    TracksThen(st, v, hv, Out([Return], EmitOp(v.st, Return)), [1], 0, 1, 0);
    hs := hv + [1];
  }

  /** The condition of a control statement, from height zero. */
  lemma {:induction false} CondTracks(p: Program, cx: Cx, st: Cst, n: nat) returns (hs: seq<int>)
    requires Disciplined(p) && n < |p.g.nodes| && AtHeight(st, 0) && Connected(p.g, n, "cond")
    ensures RoleSource(p.g, n, "cond") == INVALID || p.rank[RoleSource(p.g, n, "cond")] < p.rank[n]
    ensures var c := CSource(p, cx, st, n, RoleSource(p.g, n, "cond"));
            !c.st.err ==> Tracks(st, c, hs, 0, 1) && AtHeight(c.st, 1)
    decreases p.rank[n], 1
  {
    hide CSource; hide Tracks; hide Ranked; hide NodesSupported; hide FixedPops; hide RoleSource;
    RoleBelow(p, n, "cond");
    RoleFed(p.g, n, "cond");
    hide Indexed; hide ValuesFed;
    var c := CSource(p, cx, st, n, RoleSource(p.g, n, "cond"));
    hs := [];
    if !c.st.err {
      hs := SourceTracks(p, cx, st, n, RoleSource(p.g, n, "cond"), 0);
      TracksStart(st, c, hs, 0, 1);
    }
  }

  lemma JumpStarts(st: Cst, i: Instr)
    requires IsJump(i) && AtHeight(st, i.PopCount())
    ensures AtHeight(EmitOp(st, i), 0) && EmitOp(st, i).max == st.max && EmitOp(st, i).err == st.err
  {
  }

  lemma {:induction false} IfTracks(p: Program, cx: Cx, st: Cst, n: nat) returns (hs: seq<int>)
    requires Disciplined(p) && n < |p.g.nodes| && p.g.nodes[n].kind.If? && AtHeight(st, 0) && !CIf(p, cx, st, n).st.err
    ensures Tracks(st, CIf(p, cx, st, n), hs, 0, 0)
    decreases p.rank[n], 2
  {
    hide CSource; hide CRegion; hide Tracks; hide Ranked; hide RoleSource; hide EmitOp; hide Indexed; hide ValuesFed; hide FixedPops;
    hide CIf; hide NoOutputIn; hide RegionBelow;
    assert NodeSupported(p, n);
    ChildrenBelow(p, n);
    var hc := CondTracks(p, cx, st, n);
    var c := CSource(p, cx, st, n, RoleSource(p.g, n, "cond"));
    var s1 := EmitOp(c.st, JumpIfFalse(0));
    var t := CRegion(p, cx, s1, p.g.nodes[n].kind.thenRegion, p.rank[n]);
    var s2 := EmitOp(t.st, Jump(0));
    var e := CRegion(p, cx, s2, p.g.nodes[n].kind.elseRegion, p.rank[n]);
    IfShape(p, cx, st, n, c, t, e);
    ErrLater(c.st, JumpIfFalse(0));
    ErrLater(t.st, Jump(0));
    JumpStarts(c.st, JumpIfFalse(0));
    var ht := RegionTracks(p, cx, s1, p.g.nodes[n].kind.thenRegion, p.rank[n]);
    TracksStart(s1, t, ht, 0, 0);
    JumpStarts(t.st, Jump(0));
    var he := RegionTracks(p, cx, s2, p.g.nodes[n].kind.elseRegion, p.rank[n]);
    hs := BranchTracks(st, c, hc, t, ht, e, he);
  }

  lemma {:induction false} BranchTracks(st: Cst, c: Out, hc: seq<int>, t: Out, ht: seq<int>, e: Out, he: seq<int>) returns (hs: seq<int>)
    requires AtHeight(st, 0) && Tracks(st, c, hc, 0, 1) && Tracks(EmitOp(c.st, JumpIfFalse(0)), t, ht, 0, 0)
    requires Tracks(EmitOp(t.st, Jump(0)), e, he, 0, 0)
    ensures Tracks(st, Out(c.code + [JumpIfFalse(Size(t.code) + 5)] + t.code + [Jump(Size(e.code))] + e.code, e.st), hs, 0, 0)
  {
    var test, skip := JumpIfFalse(Size(t.code) + 5), Jump(Size(e.code));
    TracksStart(st, c, hc, 0, 1);
    TracksStart(EmitOp(c.st, JumpIfFalse(0)), t, ht, 0, 0);
    JumpStarts(c.st, JumpIfFalse(0));
    JumpStarts(t.st, Jump(0));
    FlowBranch(t.code, ht, e.code, he);
    var rest := [test] + t.code + [skip] + e.code;
    FlowThen(c.code, hc, rest, [1] + ht + [0] + he, 0, 1, 0);
    assert c.code + rest == c.code + [test] + t.code + [skip] + e.code;
    hs := hc + ([1] + ht + [0] + he);
    LoopSize(c.code, test, t.code, skip);
    SizeConcat(c.code + [test] + t.code + [skip], e.code);
    hide Flow; hide Size; hide EmitOp;
    BoundedBy(hc, ht, he, e.st.max);
  }

  /** Heights of the pieces of a control statement, joined. */
  lemma BoundedBy(a: seq<int>, b: seq<int>, c: seq<int>, m: int)
    requires 1 <= m && AtMost(a, m) && AtMost(b, m) && AtMost(c, m)
    ensures AtMost(a + ([1] + b + [0] + c), m)
  {
  }

  lemma {:induction false} WhileTracks(p: Program, cx: Cx, st: Cst, n: nat) returns (hs: seq<int>)
    requires Disciplined(p) && n < |p.g.nodes| && p.g.nodes[n].kind.While? && AtHeight(st, 0) && !CWhile(p, cx, st, n).st.err
    ensures Tracks(st, CWhile(p, cx, st, n), hs, 0, 0)
    decreases p.rank[n], 2
  {
    hide CSource; hide CRegion; hide Tracks; hide Ranked; hide RoleSource; hide EmitOp; hide Indexed; hide ValuesFed; hide FixedPops;
    hide CWhile; hide NoOutputIn; hide RegionBelow;
    assert NodeSupported(p, n);
    ChildrenBelow(p, n);
    var hc := CondTracks(p, cx, st, n);
    var c := CSource(p, cx, st, n, RoleSource(p.g, n, "cond"));
    var s1 := EmitOp(c.st, JumpIfFalse(0));
    var b := CRegion(p, cx, s1, p.g.nodes[n].kind.body, p.rank[n]);
    WhileShape(p, cx, st, n, c, b);
    ErrLater(c.st, JumpIfFalse(0));
    ErrLater(b.st, Jump(-(Size(c.code) + Size(b.code) + 10)));
    JumpStarts(c.st, JumpIfFalse(0));
    var hb := RegionTracks(p, cx, s1, p.g.nodes[n].kind.body, p.rank[n]);
    hs := LoopTracks(st, c, hc, false, b, hb);
  }

  lemma {:induction false} LoopTracks(st: Cst, c: Out, hc: seq<int>, onTrue: bool, b: Out, hb: seq<int>) returns (hs: seq<int>)
    requires AtHeight(st, 0) && Tracks(st, c, hc, 0, 1)
    requires Tracks(EmitOp(c.st, if onTrue then JumpIfTrue(0) else JumpIfFalse(0)), b, hb, 0, 0)
    ensures var exit := if onTrue then JumpIfTrue(Size(b.code) + 5) else JumpIfFalse(Size(b.code) + 5);
            var back := Jump(-(Size(c.code) + Size(b.code) + 10));
            Tracks(st, Out(c.code + [exit] + b.code + [back], EmitOp(b.st, back)), hs, 0, 0)
  {
    var exit := if onTrue then JumpIfTrue(Size(b.code) + 5) else JumpIfFalse(Size(b.code) + 5);
    var back := Jump(-(Size(c.code) + Size(b.code) + 10));
    TracksStart(st, c, hc, 0, 1);
    JumpStarts(c.st, if onTrue then JumpIfTrue(0) else JumpIfFalse(0));
    TracksStart(EmitOp(c.st, if onTrue then JumpIfTrue(0) else JumpIfFalse(0)), b, hb, 0, 0);
    JumpStarts(b.st, back);
    FlowLoop(c.code, hc, exit, b.code, hb);
    hs := hc + [1] + hb + [0];
    LoopSize(c.code, exit, b.code, back);
    hide Flow; hide Size; hide EmitOp;
    BoundedBy(hc, hb, [], b.st.max);
    assert hs == hc + ([1] + hb + [0] + []);
  }

  lemma {:induction false} CycleTracks(p: Program, cx: Cx, st: Cst, n: nat) returns (hs: seq<int>)
    requires Disciplined(p) && n < |p.g.nodes| && p.g.nodes[n].kind.Cycle? && AtHeight(st, 0) && !CCycle(p, cx, st, n).st.err
    ensures Tracks(st, CCycle(p, cx, st, n), hs, 0, 0)
    decreases p.rank[n], 2
  {
    hide CSource; hide CMembers; hide Tracks; hide Ranked; hide RoleSource; hide EmitOp; hide Indexed; hide ValuesFed; hide FixedPops;
    hide CCycle; hide NoOutputIn; hide CycleSupported;
    CycleMembersBelow(p, n);
    var ms := Members(p.g, p.g.nodes[n].kind.body);
    assert NodeSupported(p, n);
    NoOutputs(p, p.g.nodes[n].kind.body, p.rank[n]);
    var i := FirstBreak(p.g, ms);
    if i < |ms| {
      assert MemberBelow(p, ms[i], p.rank[n]);
      assert NodeSupported(p, ms[i]);
      var hc := CondTracks(p, cx, st, ms[i]);
      var c := CSource(p, cx, st, ms[i], RoleSource(p.g, ms[i], "cond"));
      var s1 := EmitOp(c.st, JumpIfTrue(0));
      var b := CMembers(p, cx, s1, ms, p.rank[n]);
      BreakCycleShape(p, cx, st, n, i, c, b);
      ErrLater(c.st, JumpIfTrue(0));
      ErrLater(b.st, Jump(-(Size(c.code) + Size(b.code) + 10)));
      JumpStarts(c.st, JumpIfTrue(0));
      var hb := MembersTrack(p, cx, s1, ms, p.rank[n]);
      hs := LoopTracks(st, c, hc, true, b, hb);
    } else {
      var b := CMembers(p, cx, st, ms, p.rank[n]);
      EndlessCycleShape(p, cx, st, n, b);
      ErrLater(b.st, Jump(-(Size(b.code) + 5)));
      var hb := MembersTrack(p, cx, st, ms, p.rank[n]);
      hs := EndlessTracks(st, b, hb);
    }
  }

  lemma {:induction false} EndlessTracks(st: Cst, b: Out, hb: seq<int>) returns (hs: seq<int>)
    requires AtHeight(st, 0) && Tracks(st, b, hb, 0, 0)
    ensures var back := Jump(-(Size(b.code) + 5)); Tracks(st, Out(b.code + [back], EmitOp(b.st, back)), hs, 0, 0)
  {
    var back := Jump(-(Size(b.code) + 5));
    TracksStart(st, b, hb, 0, 0);
    JumpStarts(b.st, back);
    FlowEndless(b.code, hb);
    SizeSnoc(b.code, back);
    hs := hb + [0];
    hide Flow; hide Size; hide EmitOp;
  }

  lemma NoOutputs(p: Program, r: nat, bound: nat)
    requires WellFormed(p) && NoOutputIn(p.g, r) && forall k :: 0 <= k < |Members(p.g, r)| ==> MemberBelow(p, Members(p.g, r)[k], bound)
    ensures forall k :: 0 <= k < |Members(p.g, r)| ==>
              MemberBelow(p, Members(p.g, r)[k], bound) && !p.g.nodes[Members(p.g, r)[k]].kind.RootOutput?
  {
  }

  lemma {:induction false} RegionTracks(p: Program, cx: Cx, st: Cst, r: nat, bound: nat) returns (hs: seq<int>)
    requires Disciplined(p) && RegionBelow(p, r, bound) && NoOutputIn(p.g, r) && AtHeight(st, 0)
    requires !CRegion(p, cx, st, r, bound).st.err
    ensures Tracks(st, CRegion(p, cx, st, r, bound), hs, 0, 0)
    decreases bound, 1, |Members(p.g, r)| + 1
  {
    hide CMembers; hide Tracks; hide Indexed; hide Ranked; hide ValuesFed; hide NodesSupported; hide FixedPops;
    if r == INVALID {
      TracksNothing(st, 0);
      hs := [];
    } else {
      NoOutputs(p, r, bound);
      hs := MembersTrack(p, cx, st, Members(p.g, r), bound);
    }
  }

  lemma {:induction false} MembersTrack(p: Program, cx: Cx, st: Cst, ms: seq<nat>, bound: nat) returns (hs: seq<int>)
    requires Disciplined(p) && AtHeight(st, 0)
    requires forall k :: 0 <= k < |ms| ==> MemberBelow(p, ms[k], bound) && !p.g.nodes[ms[k]].kind.RootOutput?
    requires !CMembers(p, cx, st, ms, bound).st.err
    ensures Tracks(st, CMembers(p, cx, st, ms, bound), hs, 0, 0)
    decreases bound, 1, |ms|
  {
    hide CNode; hide Tracks; hide Indexed; hide Ranked; hide ValuesFed; hide NodesSupported; hide FixedPops; hide CMembers;
    if ms == [] {
      NoMembers(p, cx, st, bound);
      TracksNothing(st, 0);
      hs := [];
    } else {
      assert ms[0..] == ms;
      MembersShape(p, cx, st, ms, 0, bound);
      var k := p.g.nodes[ms[0]].kind;
      var m := if k.Param? || IsExprNode(k) then Out([], st) else CNode(p, cx, st, ms[0]);
      var rest := CMembers(p, cx, m.st, ms[1..], bound);
      var hm := [];
      if k.Param? || IsExprNode(k) {
        TracksNothing(st, 0);
      } else {
        hm := StmtTracks(p, cx, st, ms[0]);
      }
      TracksStart(st, m, hm, 0, 0);
      var hr := MembersTrack(p, cx, m.st, ms[1..], bound);
      TracksThen(st, m, hm, rest, hr, 0, 0, 0);
      hs := hm + hr;
    }
  }
}
