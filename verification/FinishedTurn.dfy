/**
 A return in the body of a cycle: the interpreter finishes the turn, evaluating to null
 on the way, before it leaves the function; the machine leaves at once.
 */
module FinishedTurn {
  import opened Values
  import opened Bytecode
  import opened SemanticGraph
  import opened Interpreter
  import opened CodeGen
  import opened Machine
  import opened Support
  import opened OperandBounds
  import opened Compiling
  import opened CompilerCorrectness
  import opened HeightCertificates
  import opened BalancedPrograms
  import opened Linking
  import opened SmallPrograms
  import opened Validation

  /** Function f cycles over a return and a print of one; the root prints a call of f. */
  const TURN: Graph := Graph(
    [Node(0, FuncDef("f", 1, 0), 0, 0, [], []), Node(1, Cycle(2), 1, 0, [], []), Node(2, ReturnNode, 2, 0, [], []),
     Node(3, Kind.Print, 2, 0, [0], []), Node(4, ConstInt(1), 2, 0, [1], []),
     Node(5, FuncCall("f"), 0, 0, [2], []), Node(6, Kind.Print, 0, 0, [3], [])],
    [Port(0, 3, Dir.Input, Some("value")), Port(1, 4, Output, None), Port(2, 5, Output, None), Port(3, 6, Dir.Input, Some("value"))],
    [Edge(0, 1, 0), Edge(1, 2, 3)],
    [Region(0, INVALID, [0, 5, 6]), Region(1, 0, [1]), Region(2, 1, [2, 4, 3])], 0, INVALID)

  const TURNING: Program := Program(TURN, [0, 2, 0, 1, 0, 0, 1], 3, false)

  // ----- The graph -----

  lemma TurnIndexed()
    ensures Indexed(TURN)
  {
  }

  lemma TurnValid()
    ensures ValidGraph(TURN)
  {
    assert Up(TURN, 0, 0) == 0 && Up(TURN, 0, 1) == INVALID;
    assert EndsWithin(TURN, 0, 1);
    EndingIsNoCycle(TURN, 0);
    assert Up(TURN, 1, 0) == 1 && Up(TURN, 1, 1) == 0 && Up(TURN, 1, 2) == INVALID;
    assert EndsWithin(TURN, 1, 2);
    EndingIsNoCycle(TURN, 1);
    assert Up(TURN, 2, 0) == 2 && Up(TURN, 2, 1) == 1 && Up(TURN, 2, 2) == 0 && Up(TURN, 2, 3) == INVALID;
    assert EndsWithin(TURN, 2, 3);
    EndingIsNoCycle(TURN, 2);
  }

  lemma {:induction false} TurnSources()
    ensures Indexed(TURN)
    ensures forall port: nat :: FindSource(TURN, port) == if port == 0 then 4 else if port == 3 then 5 else INVALID
  {
    TurnIndexed();
    hide Indexed;
    forall port: nat ensures SourceFrom(TURN, port, 2) == INVALID {
    }
    forall port: nat ensures SourceFrom(TURN, port, 1) == if port == 3 then 5 else INVALID {
    }
    forall port: nat ensures SourceFrom(TURN, port, 0) == if port == 0 then 4 else if port == 3 then 5 else INVALID {
    }
  }

  lemma TurnInputs()
    ensures Indexed(TURN)
    ensures InputSource(TURN, 2, "value") == INVALID && FindPort(TURN, 2, "value") == INVALID
    ensures InputSource(TURN, 3, "value") == 4 && InputSource(TURN, 6, "value") == 5 && ArgPorts(TURN, 5) == []
  {
    TurnSources();
    hide FindSource; hide Indexed;
    assert FindPort(TURN, 3, "value") == PortFrom(TURN, [0], "value", 0) == 0;
    assert FindPort(TURN, 6, "value") == PortFrom(TURN, [3], "value", 0) == 3;
    assert FindPort(TURN, 2, "value") == INVALID && FindPort(TURN, 2, "in") == INVALID;
    assert [2][1..] == [] && InputPorts(TURN, []) == [] && InputPorts(TURN, [2]) == [];
  }

  lemma TurnWellFormed()
    ensures WellFormed(TURNING)
  {
    TurnSources();
    hide FindSource; hide Indexed;
    assert Ranked(TURNING, 0) && Ranked(TURNING, 2) && Ranked(TURNING, 3) && Ranked(TURNING, 4) && Ranked(TURNING, 5) && Ranked(TURNING, 6);
    assert RegionBelow(TURNING, 2, 2);
    assert Ranked(TURNING, 1);
    forall n | 0 <= n < 7 ensures Ranked(TURNING, n) {
      hide Ranked;
      assert n == 0 || n == 1 || n == 2 || n == 3 || n == 4 || n == 5 || n == 6;
    }
  }

  lemma TurnFunctions()
    ensures FuncIds(TURN, 0) == [0] && FindFunc(TURN, "f") == 0
  {
    assert FuncIds(TURN, 7) == [];
    assert FuncIds(TURN, 6) == [];
    assert FuncIds(TURN, 5) == [];
    assert FuncIds(TURN, 4) == [];
    assert FuncIds(TURN, 3) == [];
    assert FuncIds(TURN, 2) == [];
    assert FuncIds(TURN, 1) == [];
  }

  lemma TurnMembers()
    ensures Members(TURN, 0) == [0, 5, 6] && Members(TURN, 1) == [1] && Members(TURN, 2) == [2, 4, 3]
    ensures [0, 5, 6][1..] == [5, 6] && [5, 6][1..] == [6] && [6][1..] == [] && [1][1..] == []
    ensures [2, 4, 3][1..] == [4, 3] && [4, 3][1..] == [3] && [3][1..] == []
  {
  }

  // ----- Interpreted -----

  const CALLED: Io := Io(Null, false, false, [])
  const RETURNED: Io := Io(Null, false, true, [])
  const FINISHED: Io := Io(Null, false, true, [Null])

  /** The turn goes on after the return and prints null for one. */
  lemma {:induction false} TurnFinished()
    requires WellFormed(TURNING) && RegionBelow(TURNING, 2, 2)
    ensures ExecCycleBody(TURNING, Ctx(1, 0), State([], CALLED), [2, 4, 3], 2) == BodyRes(State([], FINISHED), false)
  {
    TurnInputs();
    TurnMembers();
    hide Indexed; hide Ranked; hide InputSource;
    var p, c := TURNING, Ctx(1, 0);
    RoleBelow(p, 2, "value");
    RoleBelow(p, 3, "value");
    assert EvalSource(p, c, [], CALLED, 2, INVALID) == Res(Null, CALLED);
    assert ExecStmt(p, c, State([], CALLED), 2) == State([], RETURNED);
    assert EvalSource(p, c, [], RETURNED, 3, 4) == Res(Null, RETURNED);
    assert ExecStmt(p, c, State([], RETURNED), 3) == State([], FINISHED) by { assert [] + [Null] == [Null]; }
    var end := BodyRes(State([], FINISHED), false);
    assert ExecCycleBody(p, c, State([], FINISHED), [], 2) == end;
    assert ExecCycleBody(p, c, State([], RETURNED), [3], 2) == end;
    assert ExecCycleBody(p, c, State([], RETURNED), [4, 3], 2) == end;
  }

  lemma {:induction false} OneTurn(left: nat)
    requires WellFormed(TURNING) && left >= 3
    ensures ExecCycle(TURNING, Ctx(1, 0), State([], CALLED), 1, left) == State([], FINISHED)
  {
    var p, c := TURNING, Ctx(1, 0);
    TurnMembers();
    ChildrenBelow(p, 1);
    TurnFinished();
    hide Indexed; hide Ranked; hide ExecCycleBody;
    assert ExecCycle(p, c, State([], FINISHED), 1, left - 1) == State([], FINISHED);
  }

  lemma {:induction false} CycleFinished()
    requires WellFormed(TURNING)
    ensures ExecStmt(TURNING, Ctx(1, 0), State([], CALLED), 1) == State([], FINISHED)
  {
    hide WellFormed; hide ExecCycle; hide EvalNode; hide ExecRegion; hide ExecWhile;
    OneTurn(LOOP_LIMIT);
  }

  lemma {:induction false} BodyFinished()
    requires WellFormed(TURNING)
    ensures EvalBody(TURNING, Ctx(1, 0), CALLED, 0, []) == State([], FINISHED)
  {
    var p, c := TURNING, Ctx(1, 0);
    TurnMembers();
    CycleFinished();
    hide Indexed; hide Ranked; hide ExecStmt;
    WholeRegionBelow(p, 1);
    assert ExecMembers(p, c, State([], FINISHED), [], 3) == State([], FINISHED);
    assert ExecMembers(p, c, State([], CALLED), [1], 3) == State([], FINISHED);
    assert ExecRegion(p, c, State([], CALLED), 1, 3) == State([], FINISHED);
  }

  lemma {:induction false} CallFinished()
    requires WellFormed(TURNING)
    ensures EvalNode(TURNING, Ctx(0, 0), [], CALLED, 5) == Res(Null, FINISHED.(returned := false))
  {
    var p := TURNING;
    TurnFunctions();
    TurnInputs();
    BodyFinished();
    hide Indexed; hide Ranked; hide FindFunc; hide ArgPorts; hide EvalBody;
    ArgsBelow(p, 5);
    assert EvalArgs(p, Ctx(0, 0), [], CALLED, 5, []) == ArgsRes([], CALLED);
    assert EvalCall(p, Ctx(0, 0), [], CALLED, 5, "f") == Res(Null, FINISHED.(returned := false));
  }

  lemma {:induction false} TurnInterpreted()
    requires WellFormed(TURNING)
    ensures Interpret(TURNING) == Interpreter.Outcome(true, Null, [Null, Null])
  {
    CallFinished();
    TurnInputs();
    TurnMembers();
    hide Indexed; hide Ranked; hide InputSource; hide EvalNode;
    var p, c, end := TURNING, Ctx(0, 0), State([], Io(Null, false, false, [Null, Null]));
    WholeRegionBelow(p, 0);
    RoleBelow(p, 6, "value");
    assert EvalSource(p, c, [], CALLED, 6, 5) == EvalNode(p, c, [], CALLED, 5);
    assert ExecStmt(p, c, START, 6) == end by { assert [Null] + [Null] == [Null, Null]; }
    assert ExecRoot(p, end, []) == end;
    assert ExecRoot(p, START, [6]) == end;
    assert ExecRoot(p, START, [5, 6]) == end;
    assert ExecRoot(p, START, [0, 5, 6]) == end;
  }

  // ----- Compiled -----

  lemma {:induction false} ReturnCode(cx: Cx, st: Cst)
    requires WellFormed(TURNING)
    ensures var v := EmitConst(st, NullConst); CNode(TURNING, cx, st, 2) == Out(v.code + [Return], EmitOp(v.st, Return))
  {
    TurnInputs();
    hide Indexed; hide Ranked; hide InputSource; hide FindPort; hide Size; hide EmitConst; hide EmitOp;
    var p := TURNING;
    var v := EmitConst(st, NullConst);
    RoleBelow(p, 2, "value");
    assert CReturn(p, cx, st, 2) == Out(v.code + [Return], EmitOp(v.st, Return));
    assert CKind(p, cx, st, 2) == CReturn(p, cx, st, 2);
  }

  lemma {:induction false} PrintCode(cx: Cx, st: Cst)
    requires WellFormed(TURNING)
    ensures var v := EmitConst(st, IntConst(1)); CNode(TURNING, cx, st, 3) == Out(v.code + [Intrinsic(INTRINSIC_PRINT, 1)], EmitPrint(v.st))
  {
    TurnInputs();
    hide Indexed; hide Ranked; hide InputSource; hide Size; hide EmitConst; hide EmitPrint;
    var p := TURNING;
    RoleBelow(p, 3, "value");
    var v := EmitConst(st, IntConst(1));
    assert CSource(p, cx, st, 3, 4) == CNode(p, cx, st, 4) == v;
    assert CPrint(p, cx, st, 3) == Out(v.code + [Intrinsic(INTRINSIC_PRINT, 1)], EmitPrint(v.st));
    assert CKind(p, cx, st, 3) == CPrint(p, cx, st, 3);
  }

  /** The pool when the body of f is compiled, and after it. */
  const NAMED: Pool := [StrConst("f")]
  const FILLED: Pool := [StrConst("f"), NullConst, IntConst(1)]

  const CYCLE: seq<Instr> := [Const(1), Return, Const(2), Intrinsic(INTRINSIC_PRINT, 1), Jump(-17)]

  lemma FillPool()
    ensures FindConst(NAMED, NullConst) == 1 && Intern(NAMED, NullConst) == [StrConst("f"), NullConst]
    ensures FindConst([StrConst("f"), NullConst], IntConst(1)) == 2 && Intern([StrConst("f"), NullConst], IntConst(1)) == FILLED
    ensures FindConst(FILLED, NullConst) == 1 && Intern(FILLED, NullConst) == FILLED && Intern(NAMED, StrConst("f")) == NAMED
  {
    assert FindConst([NullConst], NullConst) == 0;
    assert FindConst([IntConst(1)], IntConst(1)) == 0;
    assert NAMED[1..] == [];
  }

  lemma CycleSize()
    ensures Size(CYCLE[..4]) == 12 && Size(CYCLE) == 17
  {
    SpreadSize(CYCLE, 0);
    SpreadSize(CYCLE, 1);
    SpreadSize(CYCLE, 2);
    SpreadSize(CYCLE, 3);
    SpreadSize(CYCLE, 4);
    assert CYCLE[..5] == CYCLE && CYCLE[..0] == [];
  }

  /** The code of two statements with a value between them. */
  lemma {:induction false} AroundValue(p: Program, cx: Cx, st: Cst, a: nat, v: nat, b: nat, bound: nat)
    requires WellFormed(p) && MemberBelow(p, a, bound) && MemberBelow(p, v, bound) && MemberBelow(p, b, bound)
    requires !IsExprNode(p.g.nodes[a].kind) && IsExprNode(p.g.nodes[v].kind) && !IsExprNode(p.g.nodes[b].kind)
    requires !p.g.nodes[a].kind.Param? && !p.g.nodes[b].kind.Param?
    ensures var r := CNode(p, cx, st, a); var q := CNode(p, cx, r.st, b);
            CMembers(p, cx, st, [a, v, b], bound) == Out(r.code + q.code, q.st)
  {
    hide Indexed; hide Ranked; hide CNode; hide CMembers;
    var r := CNode(p, cx, st, a);
    var q := CNode(p, cx, r.st, b);
    assert [a] + [v, b] == [a, v, b] && [v] + [b] == [v, b] && [b] + [] == [b];
    MemberCompiled(p, cx, st, a, [v, b], bound);
    MemberSkipped(p, cx, r.st, v, [b], bound);
    MemberCompiled(p, cx, r.st, b, [], bound);
    NoMembers(p, cx, q.st, bound);
    assert q.code + [] == q.code;
  }

  /** A cycle without a break test and without a source element. */
  lemma {:induction false} EndlessNode(p: Program, cx: Cx, st: Cst, n: nat, b: Out)
    requires WellFormed(p) && n < |p.g.nodes| && p.g.nodes[n].kind.Cycle? && p.g.nodes[n].source == 0
    requires var ms := Members(p.g, p.g.nodes[n].kind.body);
             && (forall k :: 0 <= k < |ms| ==> MemberBelow(p, ms[k], p.rank[n]))
             && FirstBreak(p.g, ms) == |ms| && b == CMembers(p, cx, st, ms, p.rank[n])
    ensures var back := Jump(-(Size(b.code) + 5)); CNode(p, cx, st, n) == Out(b.code + [back], EmitOp(b.st, back))
  {
    hide Indexed; hide Ranked; hide CMembers; hide Size; hide FirstBreak; hide CCycle; hide EmitOp;
    EndlessCycleShape(p, cx, st, n, b);
  }

  lemma {:induction false} TurnCode(cx: Cx, st: Cst)
    requires WellFormed(TURNING) && st.pool == NAMED && !st.err && st.locals == []
    ensures MemberBelow(TURNING, 2, 2) && MemberBelow(TURNING, 3, 2) && MemberBelow(TURNING, 4, 2)
    ensures var b := CMembers(TURNING, cx, st, [2, 4, 3], 2);
            b.code == CYCLE[..4] && b.st.pool == FILLED && !b.st.err && b.st.locals == []
  {
    hide WellFormed; hide CNode; hide CMembers; hide FindConst; hide Intern;
    ReturnCode(cx, st);
    PrintCode(cx, CNode(TURNING, cx, st, 2).st);
    AroundValue(TURNING, cx, st, 2, 4, 3, 2);
    FillPool();
    TurnList();
  }

  lemma TurnList()
    ensures CYCLE[..4] == [Const(1)] + [Return] + ([Const(2)] + [Intrinsic(INTRINSIC_PRINT, 1)])
    ensures CYCLE[..4] + [Jump(-17)] == CYCLE
  {
  }

  lemma {:induction false} CycleCode(cx: Cx, st: Cst)
    requires WellFormed(TURNING) && st.pool == NAMED && !st.err && st.locals == []
    ensures var o := CNode(TURNING, cx, st, 1); o.code == CYCLE && o.st.pool == FILLED && !o.st.err && o.st.locals == []
  {
    hide WellFormed; hide CNode; hide CMembers; hide Size; hide FirstBreak;
    TurnCode(cx, st);
    TurnMembers();
    CycleSize();
    NoBreak();
    TurnList();
    EndlessNode(TURNING, cx, st, 1, CMembers(TURNING, cx, st, [2, 4, 3], 2));
  }

  lemma NoBreak()
    ensures FirstBreak(TURN, [2, 4, 3]) == 3
  {
    assert FirstBreak(TURN, []) == 0;
    assert FirstBreak(TURN, [3]) == 1;
    assert FirstBreak(TURN, [4, 3]) == 2;
  }

  lemma {:induction false} BodyCode(cx: Cx)
    requires WellFormed(TURNING)
    ensures var b := CBody(TURNING, cx, EMPTY.st.(pool := NAMED), 0);
            b.code == CYCLE && b.st.pool == FILLED && !b.st.err && b.st.locals == []
  {
    TurnMembers();
    FillPool();
    var p := TURNING;
    var st := EnterFunction(p, EMPTY.st.(pool := NAMED), 0);
    assert st.locals == [] by { assert Params(TURN, [1]) == []; }
    CycleCode(cx, st);
    hide Indexed; hide Ranked; hide CNode; hide CMembers; hide FuncParams;
    WholeRegionBelow(p, 1);
    var o := CNode(p, cx, st, 1);
    assert [1] + [] == [1] && o.code + [] == o.code;
    MemberCompiled(p, cx, st, 1, [], 3);
    NoMembers(p, cx, o.st, 3);
  }

  lemma {:induction false} FuncCode(cx: Cx)
    requires WellFormed(TURNING)
    ensures var o := CFunc(TURNING, cx, EMPTY.st.(pool := NAMED), 0);
            && o.code == CYCLE + [Const(1), Return] && o.st.pool == FILLED && !o.st.err
            && o.rec.arity == o.rec.localCount == o.rec.codeOffset == 0
  {
    BodyCode(cx);
    FillPool();
    CycleSize();
    LastByte(CYCLE, Limits(0, 0, 0, 17));
    var p, st := TURNING, EMPTY.st.(pool := NAMED);
    hide Indexed; hide Ranked; hide CBody; hide EncodeAll; hide Size;
    FunctionShape(p, cx, st, 0);
    assert CYCLE + [Const(1)] + [Return] == CYCLE + [Const(1), Return];
  }

  lemma {:induction false} CallCode(cx: Cx, st: Cst)
    requires WellFormed(TURNING) && cx.names == ["f"]
    ensures CNode(TURNING, cx, st, 5) == Out([Call(0, 0)], EmitCall(st, 0))
  {
    TurnInputs();
    hide Indexed; hide Ranked; hide ArgPorts; hide Size;
    var p := TURNING;
    ArgsBelow(p, 5);
    NoArgs(p, cx, st, 5);
    assert [] + [Call(0, 0)] == [Call(0, 0)];
    assert CCall(p, cx, st, 5, "f") == Out([Call(0, 0)], EmitCall(st, 0));
    assert CKind(p, cx, st, 5) == CCall(p, cx, st, 5, "f");
  }

  lemma {:induction false} ShowCode(cx: Cx, st: Cst)
    requires WellFormed(TURNING) && cx.names == ["f"]
    ensures CNode(TURNING, cx, st, 6) == Out([Call(0, 0), Intrinsic(INTRINSIC_PRINT, 1)], EmitPrint(EmitCall(st, 0)))
  {
    CallCode(cx, st);
    TurnInputs();
    hide Indexed; hide Ranked; hide InputSource; hide Size; hide CCall;
    var p := TURNING;
    RoleBelow(p, 6, "value");
    assert CSource(p, cx, st, 6, 5) == CNode(p, cx, st, 5);
    assert CPrint(p, cx, st, 6) == Out([Call(0, 0)] + [Intrinsic(INTRINSIC_PRINT, 1)], EmitPrint(EmitCall(st, 0)));
    assert CKind(p, cx, st, 6) == CPrint(p, cx, st, 6);
  }

  lemma {:induction false} MainCodeOf(cx: Cx, st: Cst)
    requires WellFormed(TURNING) && cx.names == ["f"]
    ensures var o := CMain(TURNING, cx, st);
            o.code == [Call(0, 0), Intrinsic(INTRINSIC_PRINT, 1), Halt] && o.st.err == st.err && o.st.pool == st.pool && o.st.locals == st.locals
  {
    hide WellFormed; hide CNode; hide CMain;
    ShowCode(cx, st);
    AfterCall(TURNING, cx, st, 0, 5, 6);
    assert [Call(0, 0), Intrinsic(INTRINSIC_PRINT, 1)] + [Halt] == [Call(0, 0), Intrinsic(INTRINSIC_PRINT, 1), Halt];
  }

  /** Main of a program whose root has a function, a value and one statement, and no output. */
  lemma {:induction false} AfterCall(p: Program, cx: Cx, st: Cst, f: nat, v: nat, n: nat)
    requires WellFormed(p) && MemberBelow(p, f, p.top) && MemberBelow(p, v, p.top) && MemberBelow(p, n, p.top)
    requires Members(p.g, p.g.root) == [f, v, n] && !HasOutput(p.g) && p.g.nodes[f].kind.FuncDef? && IsExprNode(p.g.nodes[v].kind)
    requires var k := p.g.nodes[n].kind; !k.FuncDef? && !k.RootOutput? && !IsExprNode(k)
    ensures var o := CNode(p, cx, st, n); CMain(p, cx, st) == Out(o.code + [Halt], EmitOp(o.st, Halt))
  {
    hide Indexed; hide Ranked; hide CNode; hide CRootMembers; hide CMain; hide EmitOp;
    MainShape(p, cx, st);
    var o := CNode(p, cx, st, n);
    assert [f] + [v, n] == [f, v, n] && [v] + [n] == [v, n] && [n] + [] == [n];
    RootSkipped(p, cx, st, f, [v, n]);
    RootSkipped(p, cx, st, v, [n]);
    RootCompiled(p, cx, st, n, []);
    NoRootMembers(p, cx, o.st);
    assert o.code + [] == o.code;
  }

  // ----- Run -----

  const WHOLE: seq<Instr> :=
    [Const(1), Return, Const(2), Intrinsic(INTRINSIC_PRINT, 1), Jump(-17), Const(1), Return, Call(1, 0), Intrinsic(INTRINSIC_PRINT, 1), Halt]

  /** What matters of the image: the records and the instructions that are executed. */
  ghost predicate Turned(img: Image) {
    && |img.functions| == 2 && img.functions[0].codeOffset == 21 && img.functions[0].localCount == 0
    && img.functions[1].codeOffset == 0 && img.functions[1].localCount == 0 && img.functions[1].arity == 0
    && |img.constants| > 1 && img.constants[1] == NullConst && |img.code| == 32
    && Decode(img.code, 0) == Some(Const(1)) && Decode(img.code, 3) == Some(Return)
    && Decode(img.code, 21) == Some(Call(1, 0)) && Decode(img.code, 26) == Some(Intrinsic(INTRINSIC_PRINT, 1)) && Decode(img.code, 31) == Some(Halt)
  }

  lemma {:induction false} WholeSizes()
    ensures Size(WHOLE[..0]) == 0 && Size(WHOLE[..1]) == 3 && Size(WHOLE[..7]) == 21 && Size(WHOLE[..8]) == 26 && Size(WHOLE[..9]) == 31 && Size(WHOLE) == 32
  {
    hide Size;
    SpreadSize(WHOLE, 0);
    SpreadSize(WHOLE, 1);
    SpreadSize(WHOLE, 2);
    SpreadSize(WHOLE, 3);
    SpreadSize(WHOLE, 4);
    SpreadSize(WHOLE, 5);
    SpreadSize(WHOLE, 6);
    SpreadSize(WHOLE, 7);
    SpreadSize(WHOLE, 8);
    SpreadSize(WHOLE, 9);
    assert WHOLE[..10] == WHOLE;
    NoSize(WHOLE);
  }

  lemma {:induction false} WholeDecodes(code: seq<Byte>)
    requires code == EncodeAll(WHOLE)
    ensures |code| == 32 && Decode(code, 0) == Some(Const(1)) && Decode(code, 3) == Some(Return)
    ensures Decode(code, 21) == Some(Call(1, 0)) && Decode(code, 26) == Some(Intrinsic(INTRINSIC_PRINT, 1)) && Decode(code, 31) == Some(Halt)
  {
    hide Decode; hide EncodeAll; hide Size; hide At;
    WholeSizes();
    WholeIn(code);
    DecodesTo(code, 0, WHOLE, 0);
    DecodesTo(code, 0, WHOLE, 1);
    DecodesTo(code, 0, WHOLE, 7);
    DecodesTo(code, 0, WHOLE, 8);
    DecodesTo(code, 0, WHOLE, 9);
  }

  lemma WholeIn(code: seq<Byte>)
    requires code == EncodeAll(WHOLE)
    ensures At(code, 0, WHOLE) && |code| == Size(WHOLE)
  {
    hide EncodeAll; hide Size;
    WholeCode(WHOLE);
  }

  lemma {:induction false} TurnCompiled()
    requires WellFormed(TURNING)
    ensures Compile(TURNING).success && Turned(Compile(TURNING).image)
  {
    TurnFunctions();
    var p, cx, st := TURNING, Cx(["f"], 0), EMPTY.st.(pool := NAMED);
    FuncCode(cx);
    FuncGrows(p, cx, st, 0);
    CycleSize();
    hide WellFormed; hide CFunc; hide CMain; hide Compile; hide Size; hide EncodeAll; hide Decode; hide Functions; hide MainCode; hide FuncIds;
    OneFunction(p, 0);
    var o := CFunc(p, cx, st, 0);
    MainCodeOf(cx, EnterMain(o.st));
    var m := CMain(p, cx, EnterMain(o.st));
    WithFunctions(p, Unit(o.code, o.st, [o.rec]), m);
    WholeIs();
    WholeDecodes(Compile(p).image.code);
    EnterMainKeeps(o.st);
    ClosedSize();
  }

  lemma WholeIs()
    ensures Relocate(1, CYCLE + [Const(1), Return] + [Call(0, 0), Intrinsic(INTRINSIC_PRINT, 1), Halt]) == WHOLE
  {
  }

  lemma ClosedSize()
    ensures Size(CYCLE + [Const(1), Return]) == 21
  {
    CycleSize();
    assert CYCLE + [Const(1), Return] == CYCLE + [Const(1)] + [Return];
    SizeSnoc(CYCLE, Const(1));
    SizeSnoc(CYCLE + [Const(1)], Return);
  }

  /** The call and the return. */
  lemma {:induction false} TurnCalls(img: Image, a: Vm)
    requires Turned(img) && a == Vm([], [Frame(0, 0, 0)], 21, false, [])
    ensures Run(img, Next(a), 5) == Run(img, Next(Vm([Null], [Frame(0, 0, 0)], 26, false, [])), 2)
  {
    hide Decode; hide Step;
    StepDecoded(img, a, Call(1, 0));
    var b := Vm([], [Frame(0, 0, 0), Frame(1, 26, 0)], 0, false, []);
    assert Step(img, a) == Next(b);
    StepDecoded(img, b, Const(1));
    var c := b.(stack := [Null], ip := 3);
    assert Step(img, b) == Next(c);
    StepDecoded(img, c, Return);
    assert Step(img, c) == Next(Vm([Null], [Frame(0, 0, 0)], 26, false, []));
    hide Run;
    RunOne(img, a, 4);
    RunOne(img, b, 3);
    RunOne(img, c, 2);
  }

  /** Five steps: call, constant, return, print, halt. */
  lemma {:induction false} TurnRun(img: Image)
    requires Turned(img)
    ensures Run(img, Next(Boot(img)), 5) == Next(Vm([], [Frame(0, 0, 0)], 32, true, [Null]))
  {
    hide Decode; hide Step;
    var a := Boot(img);
    assert a == Vm([], [Frame(0, 0, 0)], 21, false, []);
    TurnCalls(img, a);
    var d := Vm([Null], [Frame(0, 0, 0)], 26, false, []);
    StepDecoded(img, d, Intrinsic(INTRINSIC_PRINT, 1));
    var e := Vm([], [Frame(0, 0, 0)], 31, false, [Null]);
    assert Step(img, d) == Next(e);
    StepDecoded(img, e, Halt);
    RunOne(img, d, 1);
    RunOne(img, e, 0);
  }

  /** On a valid graph: the interpreter prints null twice, the machine once. */
  lemma {:induction false} FinishedTurnDiffers()
    ensures WellFormed(TURNING) && ValidGraph(TURN) && Interpret(TURNING) == Interpreter.Outcome(true, Null, [Null, Null])
    ensures Compile(TURNING).success && Compile(TURNING).image.functions != []
    ensures var img := Compile(TURNING).image;
            Run(img, Next(Boot(img)), 5) == Next(Vm([], [Frame(0, 0, 0)], 32, true, [Null])) && !Delivers(img, [Null, Null], None)
  {
    TurnWellFormed();
    TurnValid();
    TurnInterpreted();
    TurnCompiled();
    hide WellFormed; hide ValidGraph; hide Interpret; hide Compile; hide Delivers; hide Turned;
    TurnedHas(Compile(TURNING).image);
    TurnRun(Compile(TURNING).image);
    EndsOnce(Compile(TURNING).image, 5, [Null, Null]);
  }

  lemma TurnedHas(img: Image)
    requires Turned(img)
    ensures img.functions != []
  {
  }
}
