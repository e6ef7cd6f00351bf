/**
 A function that ends without a return: to the interpreter a call of it yields the last
 result any function returned, to the machine null.
 */
module StaleResult {
  import opened Values
  import opened Bytecode
  import opened SemanticGraph
  import opened Interpreter
  import opened CodeGen
  import opened Machine
  import opened Support
  import opened OperandBounds
  import opened Compiling
  import opened CompilerCorrectness
  import opened HeightCertificates
  import opened BalancedPrograms
  import opened Linking
  import opened SmallPrograms
  import opened Validation

  /** Function g returns seven, function f is empty; the root prints a call of each. */
  const STALE: Graph := Graph(
    [Node(0, FuncDef("g", 1, 0), 0, 0, [], []), Node(1, FuncDef("f", 2, 0), 0, 0, [], []),
     Node(2, ReturnNode, 1, 0, [0], []), Node(3, ConstInt(7), 1, 0, [1], []),
     Node(4, FuncCall("g"), 0, 0, [2], []), Node(5, Kind.Print, 0, 0, [3], []),
     Node(6, FuncCall("f"), 0, 0, [4], []), Node(7, Kind.Print, 0, 0, [5], [])],
    [Port(0, 2, Dir.Input, Some("value")), Port(1, 3, Output, None), Port(2, 4, Output, None), Port(3, 5, Dir.Input, Some("value")),
     Port(4, 6, Output, None), Port(5, 7, Dir.Input, Some("value"))],
    [Edge(0, 1, 0), Edge(1, 2, 3), Edge(2, 4, 5)],
    [Region(0, INVALID, [0, 1, 4, 5, 6, 7]), Region(1, 0, [3, 2]), Region(2, 0, [])], 0, INVALID)

  const STALED: Program := Program(STALE, [0, 0, 1, 0, 0, 1, 0, 1], 2, false)

  // ----- The graph -----

  lemma StaleIndexed()
    ensures Indexed(STALE)
  {
  }

  lemma StaleValid()
    ensures ValidGraph(STALE)
  {
    assert Up(STALE, 0, 0) == 0 && Up(STALE, 0, 1) == INVALID;
    assert EndsWithin(STALE, 0, 1);
    EndingIsNoCycle(STALE, 0);
    assert Up(STALE, 1, 0) == 1 && Up(STALE, 1, 1) == 0 && Up(STALE, 1, 2) == INVALID;
    assert EndsWithin(STALE, 1, 2);
    EndingIsNoCycle(STALE, 1);
    assert Up(STALE, 2, 0) == 2 && Up(STALE, 2, 1) == 0 && Up(STALE, 2, 2) == INVALID;
    assert EndsWithin(STALE, 2, 2);
    EndingIsNoCycle(STALE, 2);
  }

  lemma {:induction false} StaleSources()
    ensures Indexed(STALE)
    ensures forall port: nat :: FindSource(STALE, port) == if port == 0 then 3 else if port == 3 then 4 else if port == 5 then 6 else INVALID
  {
    StaleIndexed();
    hide Indexed;
    forall port: nat ensures SourceFrom(STALE, port, 3) == INVALID {
    }
    forall port: nat ensures SourceFrom(STALE, port, 2) == if port == 5 then 6 else INVALID {
    }
    forall port: nat ensures SourceFrom(STALE, port, 1) == if port == 3 then 4 else if port == 5 then 6 else INVALID {
    }
    forall port: nat ensures SourceFrom(STALE, port, 0) == if port == 0 then 3 else if port == 3 then 4 else if port == 5 then 6 else INVALID {
    }
  }

  lemma StaleInputs()
    ensures Indexed(STALE)
    ensures InputSource(STALE, 2, "value") == 3 && FindPort(STALE, 2, "value") == 0
    ensures InputSource(STALE, 5, "value") == 4 && InputSource(STALE, 7, "value") == 6 && ArgPorts(STALE, 4) == ArgPorts(STALE, 6) == []
  {
    StaleSources();
    hide FindSource; hide Indexed;
    assert FindPort(STALE, 2, "value") == PortFrom(STALE, [0], "value", 0) == 0;
    assert FindPort(STALE, 5, "value") == PortFrom(STALE, [3], "value", 0) == 3;
    assert FindPort(STALE, 7, "value") == PortFrom(STALE, [5], "value", 0) == 5;
    assert [2][1..] == [] && [4][1..] == [] && InputPorts(STALE, []) == [] && InputPorts(STALE, [2]) == [] && InputPorts(STALE, [4]) == [];
  }

  lemma StaleRanked()
    ensures Indexed(STALE) && Ranked(STALED, 0) && Ranked(STALED, 1) && Ranked(STALED, 2) && Ranked(STALED, 3)
  {
    StaleSources();
    hide FindSource; hide Indexed;
  }

  lemma StaleRankedRoot()
    ensures Indexed(STALE) && Ranked(STALED, 4) && Ranked(STALED, 5) && Ranked(STALED, 6) && Ranked(STALED, 7)
  {
    StaleSources();
    hide FindSource; hide Indexed;
  }

  lemma StaleWellFormed()
    ensures WellFormed(STALED)
  {
    StaleRanked();
    StaleRankedRoot();
    hide Indexed; hide Ranked;
    forall n | 0 <= n < 8 ensures Ranked(STALED, n) {
      assert n == 0 || n == 1 || n == 2 || n == 3 || n == 4 || n == 5 || n == 6 || n == 7;
    }
  }

  lemma StaleFunctions()
    ensures FuncIds(STALE, 0) == [0, 1]
  {
    assert FuncIds(STALE, 8) == [];
    assert FuncIds(STALE, 7) == [];
    assert FuncIds(STALE, 6) == [];
    assert FuncIds(STALE, 5) == [];
    assert FuncIds(STALE, 4) == [];
    assert FuncIds(STALE, 3) == [];
    assert FuncIds(STALE, 2) == [];
    assert FuncIds(STALE, 1) == [1];
  }

  lemma StaleFound()
    ensures FindFunc(STALE, "g") == 0 && FindFunc(STALE, "f") == 1
  {
    assert FuncFrom(STALE, "f", 1) == 1;
  }

  lemma StaleMembers()
    ensures Members(STALE, 0) == [0, 1, 4, 5, 6, 7] && Members(STALE, 1) == [3, 2] && Members(STALE, 2) == []
    ensures [3, 2][1..] == [2] && [2][1..] == []
  {
  }

  // ----- Interpreted -----

  const FIRST: Io := Io(Null, false, false, [])
  const SEVEN: Io := Io(I64(7), false, false, [])
  const ONCE: Io := Io(I64(7), false, false, [I64(7)])
  const TWICE: Io := Io(I64(7), false, false, [I64(7), I64(7)])

  /** The body of g returns seven. */
  lemma {:induction false} GivenSeven()
    requires WellFormed(STALED)
    ensures EvalBody(STALED, Ctx(1, 0), FIRST, 0, []) == State([], SEVEN.(returned := true))
  {
    StaleInputs();
    StaleMembers();
    hide Indexed; hide Ranked; hide InputSource;
    var p, c, end := STALED, Ctx(1, 0), State([], SEVEN.(returned := true));
    WholeRegionBelow(p, 1);
    RoleBelow(p, 2, "value");
    assert EvalSource(p, c, [], FIRST, 2, 3) == Res(I64(7), FIRST);
    assert ExecStmt(p, c, State([], FIRST), 2) == end;
    assert ExecMembers(p, c, end, [], 2) == end;
    assert ExecMembers(p, c, State([], FIRST), [2], 2) == end;
    assert ExecMembers(p, c, State([], FIRST), [3, 2], 2) == end;
    assert ExecRegion(p, c, State([], FIRST), 1, 2) == end;
  }

  /** The body of f leaves the result there was. */
  lemma {:induction false} LeftSeven()
    requires WellFormed(STALED)
    ensures EvalBody(STALED, Ctx(1, 0), ONCE, 1, []) == State([], ONCE)
  {
    StaleMembers();
    hide Indexed; hide Ranked;
    var p, c := STALED, Ctx(1, 0);
    WholeRegionBelow(p, 2);
    assert ExecMembers(p, c, State([], ONCE), [], 2) == State([], ONCE);
    assert ExecRegion(p, c, State([], ONCE), 2, 2) == State([], ONCE);
  }

  lemma {:induction false} CallsYield()
    requires WellFormed(STALED)
    ensures EvalNode(STALED, Ctx(0, 0), [], FIRST, 4) == Res(I64(7), SEVEN)
    ensures EvalNode(STALED, Ctx(0, 0), [], ONCE, 6) == Res(I64(7), ONCE)
  {
    var p, c := STALED, Ctx(0, 0);
    StaleFound();
    StaleInputs();
    GivenSeven();
    LeftSeven();
    hide Indexed; hide Ranked; hide FindFunc; hide ArgPorts; hide EvalBody;
    ArgsBelow(p, 4);
    ArgsBelow(p, 6);
    assert EvalArgs(p, c, [], FIRST, 4, []) == ArgsRes([], FIRST);
    assert EvalCall(p, c, [], FIRST, 4, "g") == Res(I64(7), SEVEN);
    assert EvalArgs(p, c, [], ONCE, 6, []) == ArgsRes([], ONCE);
    assert EvalCall(p, c, [], ONCE, 6, "f") == Res(I64(7), ONCE);
  }

  lemma {:induction false} PrintsSeven()
    requires WellFormed(STALED)
    ensures ExecStmt(STALED, Ctx(0, 0), State([], FIRST), 5) == State([], ONCE)
    ensures ExecStmt(STALED, Ctx(0, 0), State([], ONCE), 7) == State([], TWICE)
  {
    CallsYield();
    StaleInputs();
    hide Indexed; hide Ranked; hide InputSource; hide EvalNode;
    var p, c := STALED, Ctx(0, 0);
    RoleBelow(p, 5, "value");
    RoleBelow(p, 7, "value");
    assert EvalSource(p, c, [], FIRST, 5, 4) == Res(I64(7), SEVEN);
    assert EvalSource(p, c, [], ONCE, 7, 6) == Res(I64(7), ONCE);
    assert [] + [I64(7)] == [I64(7)] && [I64(7)] + [I64(7)] == [I64(7), I64(7)];
  }

  lemma {:induction false} RootPrints()
    requires WellFormed(STALED)
    ensures ExecRoot(STALED, State([], FIRST), [4, 5, 6, 7]) == State([], TWICE)
  {
    PrintsSeven();
    hide Indexed; hide Ranked; hide ExecStmt;
    var p, a, b, end := STALED, State([], FIRST), State([], ONCE), State([], TWICE);
    assert [4, 5, 6, 7][1..] == [5, 6, 7] && [5, 6, 7][1..] == [6, 7] && [6, 7][1..] == [7] && [7][1..] == [];
    assert ExecRoot(p, end, []) == end;
    assert ExecRoot(p, b, [7]) == end;
    assert ExecRoot(p, b, [6, 7]) == end;
    assert ExecRoot(p, a, [5, 6, 7]) == end;
  }

  lemma {:induction false} StaleInterpreted()
    requires WellFormed(STALED)
    ensures Interpret(STALED) == Interpreter.Outcome(true, I64(7), [I64(7), I64(7)])
  {
    StaleMembers();
    hide Indexed; hide Ranked; hide ExecStmt;
    var p, a, end := STALED, State([], FIRST), State([], TWICE);
    WholeRegionBelow(p, 0);
    var ms := [0, 1, 4, 5, 6, 7];
    assert ms[1..] == [1, 4, 5, 6, 7] && [1, 4, 5, 6, 7][1..] == [4, 5, 6, 7];
    RootPrints();
    assert ExecRoot(p, a, [1, 4, 5, 6, 7]) == end;
    assert ExecRoot(p, a, ms) == end;
  }

  // ----- Compiled -----

  const NAMED: Pool := [StrConst("g"), StrConst("f")]
  const FILLED: Pool := [StrConst("g"), StrConst("f"), IntConst(7)]
  const ENDED: Pool := [StrConst("g"), StrConst("f"), IntConst(7), NullConst]

  lemma FillPool()
    ensures Intern(NAMED, StrConst("g")) == NAMED && FindConst(NAMED, IntConst(7)) == 2 && Intern(NAMED, IntConst(7)) == FILLED
  {
    assert NAMED[1..] == [StrConst("f")] && [StrConst("f")][1..] == [];
    assert FindConst([StrConst("f")], IntConst(7)) == 1;
  }

  lemma EndPool()
    ensures Intern(FILLED, StrConst("f")) == FILLED && FindConst(FILLED, NullConst) == 3 && Intern(FILLED, NullConst) == ENDED
  {
    assert FILLED[1..] == [StrConst("f"), IntConst(7)] && [StrConst("f"), IntConst(7)][1..] == [IntConst(7)] && [IntConst(7)][1..] == [];
    assert FindConst([IntConst(7)], NullConst) == 1;
    assert FindConst([StrConst("f"), IntConst(7)], NullConst) == 2;
    assert FindConst([StrConst("f"), IntConst(7)], StrConst("f")) == 0;
  }

  lemma {:induction false} ReturnCode(cx: Cx, st: Cst)
    requires WellFormed(STALED)
    ensures var v := EmitConst(st, IntConst(7)); CNode(STALED, cx, st, 2) == Out(v.code + [Return], EmitOp(v.st, Return))
  {
    StaleInputs();
    hide Indexed; hide Ranked; hide InputSource; hide FindPort; hide Size; hide EmitConst; hide EmitOp;
    var p := STALED;
    var v := EmitConst(st, IntConst(7));
    RoleBelow(p, 2, "value");
    assert CSource(p, cx, st, 2, 3) == CNode(p, cx, st, 3) == v;
    assert CReturn(p, cx, st, 2) == Out(v.code + [Return], EmitOp(v.st, Return));
    assert CKind(p, cx, st, 2) == CReturn(p, cx, st, 2);
  }

  lemma {:induction false} SevenMembers(cx: Cx, st: Cst)
    requires WellFormed(STALED) && RegionBelow(STALED, 1, 2)
    ensures CRegion(STALED, cx, st, 1, 2) == CNode(STALED, cx, st, 2)
  {
    StaleMembers();
    hide Indexed; hide Ranked; hide CNode; hide CMembers;
    var p, o := STALED, CNode(STALED, cx, st, 2);
    assert MemberBelow(p, 2, 2) && MemberBelow(p, 3, 2) && [3] + [2] == [3, 2] && [2] + [] == [2];
    MemberSkipped(p, cx, st, 3, [2], 2);
    MemberCompiled(p, cx, st, 2, [], 2);
    NoMembers(p, cx, o.st, 2);
    assert o.code + [] == o.code;
  }

  lemma {:induction false} SevenEntered(st: Cst)
    requires WellFormed(STALED) && st.pool == NAMED && !st.err
    ensures var e := EnterFunction(STALED, st, 0); e.pool == NAMED && e.locals == [] && !e.err
  {
    FillPool();
    StaleMembers();
    hide WellFormed; hide FindConst;
    assert Params(STALE, []) == [];
    assert Params(STALE, [2]) == [];
    assert Params(STALE, [3, 2]) == [];
  }

  lemma {:induction false} SevenBody(cx: Cx, st: Cst)
    requires WellFormed(STALED) && st.pool == NAMED && !st.err
    ensures var b := CBody(STALED, cx, st, 0); b.code == [Const(2), Return] && b.st.pool == FILLED && !b.st.err && b.st.locals == []
  {
    hide Indexed; hide Ranked; hide CNode; hide CRegion; hide FuncParams; hide FindConst; hide EnterFunction; hide Intern;
    FillPool();
    SevenEntered(st);
    var enter := EnterFunction(STALED, st, 0);
    WholeRegionBelow(STALED, 1);
    SevenMembers(cx, enter);
    ReturnCode(cx, enter);
    assert CNode(STALED, cx, enter, 2).code == [Const(2), Return];
  }

  lemma {:induction false} SevenCode(cx: Cx, st: Cst)
    requires WellFormed(STALED) && st.pool == NAMED && !st.err && st.len == 0
    ensures var o := CFunc(STALED, cx, st, 0);
            && o.code == [Const(2), Return] && o.st.pool == FILLED && !o.st.err && o.st.len == 4
            && o.rec.arity == o.rec.localCount == o.rec.codeOffset == 0
  {
    SevenBody(cx, st);
    LastByte([Const(2), Return], Limits(0, 0, 0, 0));
    FuncGrows(STALED, cx, st, 0);
    TwoSize(2);
    hide Indexed; hide Ranked; hide CBody; hide EncodeAll; hide Size;
    FunctionShape(STALED, cx, st, 0);
  }

  lemma TwoSize(k: nat)
    ensures Size([Const(k), Return]) == 4
  {
    assert [Const(k), Return][1..] == [Return] && [Return][1..] == [];
  }

  lemma {:induction false} EmptyBody(cx: Cx, st: Cst)
    requires WellFormed(STALED) && st.pool == FILLED && !st.err
    ensures var b := CBody(STALED, cx, st, 1); b.code == [] && b.st.pool == FILLED && !b.st.err && b.st.locals == []
  {
    StaleMembers();
    EndPool();
    var p, enter := STALED, EnterFunction(STALED, st, 1);
    assert enter.locals == [] by { assert Params(STALE, []) == []; }
    hide Indexed; hide Ranked; hide CMembers; hide FuncParams;
    WholeRegionBelow(p, 2);
    NoMembers(p, cx, enter, 2);
  }

  lemma {:induction false} EmptyFunction(cx: Cx, st: Cst)
    requires WellFormed(STALED) && st.pool == FILLED && !st.err && st.len == 4
    ensures var o := CFunc(STALED, cx, st, 1);
            && o.code == [Const(3), Return] && o.st.pool == ENDED && !o.st.err && o.st.len == 8
            && o.rec.arity == o.rec.localCount == 0 && o.rec.codeOffset == 4
  {
    EmptyBody(cx, st);
    EndPool();
    FuncGrows(STALED, cx, st, 1);
    TwoSize(3);
    Compiling.EmptyCode();
    hide Indexed; hide Ranked; hide CBody; hide EncodeAll; hide Size; hide FindConst;
    FunctionShape(STALED, cx, st, 1);
    assert [] + [Const(3)] + [Return] == [Const(3), Return];
  }

  /** A print of a call of function `k` without arguments. */
  function PrintCall(k: nat): seq<Instr> { [Call(k, 0), Intrinsic(INTRINSIC_PRINT, 1)] }

  lemma {:induction false} PrintCode(p: Program, cx: Cx, st: Cst, n: nat, v: nat, name: string, k: nat)
    requires WellFormed(p) && n < |p.g.nodes| && v < |p.g.nodes| && v != INVALID && p.g.nodes[n].kind.Print? && p.g.nodes[v].kind == FuncCall(name)
    requires InputSource(p.g, n, "value") == v && ArgPorts(p.g, v) == [] && p.g.nodes[n].source == p.g.nodes[v].source == 0
    requires k == FindName(cx.names, name) < |cx.names|
    ensures CNode(p, cx, st, n) == Out(PrintCall(k), EmitPrint(EmitCall(st, 0)))
  {
    hide Indexed; hide Ranked; hide ArgPorts; hide InputSource; hide Size; hide FindName;
    ArgsBelow(p, v);
    NoArgs(p, cx, st, v);
    RoleBelow(p, n, "value");
    assert [] + [Call(k, 0)] == [Call(k, 0)];
    assert CCall(p, cx, st, v, name) == Out([Call(k, 0)], EmitCall(st, 0));
    assert CSource(p, cx, st, n, v) == CNode(p, cx, st, v) == Out([Call(k, 0)], EmitCall(st, 0));
    assert [Call(k, 0)] + [Intrinsic(INTRINSIC_PRINT, 1)] == PrintCall(k);
    assert CPrint(p, cx, st, n) == Out(PrintCall(k), EmitPrint(EmitCall(st, 0)));
    assert CKind(p, cx, st, n) == CPrint(p, cx, st, n);
  }

  /** A statement after a value. */
  lemma {:induction false} RootPair(p: Program, cx: Cx, st: Cst, v: nat, n: nat, ms: seq<nat>)
    requires WellFormed(p) && MemberBelow(p, v, p.top) && MemberBelow(p, n, p.top) && (forall k :: 0 <= k < |ms| ==> MemberBelow(p, ms[k], p.top))
    requires IsExprNode(p.g.nodes[v].kind) && p.g.nodes[n].kind.Print?
    ensures var o := CNode(p, cx, st, n); var rest := CRootMembers(p, cx, o.st, ms);
            CRootMembers(p, cx, st, [v] + ([n] + ms)) == Out(o.code + rest.code, rest.st)
  {
    hide Indexed; hide Ranked; hide CNode; hide CRootMembers;
    RootSkipped(p, cx, st, v, [n] + ms);
    RootCompiled(p, cx, st, n, ms);
  }

  /** Main of a program whose root has two functions and two statements, each after its value, and no output. */
  lemma {:induction false} MainOfTwo(p: Program, cx: Cx, st: Cst, f: nat, g: nat, v: nat, a: nat, w: nat, b: nat)
    requires WellFormed(p) && Members(p.g, p.g.root) == [f, g, v, a, w, b] && !HasOutput(p.g)
    requires MemberBelow(p, f, p.top) && MemberBelow(p, g, p.top) && p.g.nodes[f].kind.FuncDef? && p.g.nodes[g].kind.FuncDef?
    requires MemberBelow(p, v, p.top) && MemberBelow(p, a, p.top) && IsExprNode(p.g.nodes[v].kind) && p.g.nodes[a].kind.Print?
    requires MemberBelow(p, w, p.top) && MemberBelow(p, b, p.top) && IsExprNode(p.g.nodes[w].kind) && p.g.nodes[b].kind.Print?
    ensures var x := CNode(p, cx, st, a); var y := CNode(p, cx, x.st, b);
            CMain(p, cx, st) == Out(x.code + y.code + [Halt], EmitOp(y.st, Halt))
  {
    hide Indexed; hide Ranked; hide CNode; hide CRootMembers; hide CMain; hide EmitOp;
    MainShape(p, cx, st);
    var x := CNode(p, cx, st, a);
    var y := CNode(p, cx, x.st, b);
    var last := [w] + ([b] + []);
    var rest := [v] + ([a] + last);
    assert [f] + ([g] + rest) == [f, g, v, a, w, b];
    RootSkipped(p, cx, st, f, [g] + rest);
    RootSkipped(p, cx, st, g, rest);
    RootPair(p, cx, st, v, a, last);
    RootPair(p, cx, x.st, w, b, []);
    NoRootMembers(p, cx, y.st);
    assert x.code + (y.code + []) == x.code + y.code;
  }

  lemma {:induction false} PrintCodes(cx: Cx, st: Cst)
    requires WellFormed(STALED) && cx.names == ["g", "f"]
    ensures CNode(STALED, cx, st, 5) == Out(PrintCall(0), EmitPrint(EmitCall(st, 0)))
    ensures CNode(STALED, cx, st, 7) == Out(PrintCall(1), EmitPrint(EmitCall(st, 0)))
  {
    StaleInputs();
    NamesFound();
    hide WellFormed; hide CNode; hide InputSource; hide ArgPorts; hide FindName; hide PrintCall;
    PrintCode(STALED, cx, st, 5, 4, "g", 0);
    PrintCode(STALED, cx, st, 7, 6, "f", 1);
  }

  lemma {:induction false} MainCodeOf(cx: Cx, st: Cst)
    requires WellFormed(STALED) && cx.names == ["g", "f"]
    ensures var o := CMain(STALED, cx, st);
            o.code == PrintCall(0) + PrintCall(1) + [Halt] && o.st.err == st.err && o.st.pool == st.pool && o.st.locals == st.locals
  {
    hide WellFormed; hide CNode; hide CMain; hide PrintCall;
    StaleMembers();
    PrintCodes(cx, st);
    PrintCodes(cx, EmitPrint(EmitCall(st, 0)));
    MainOfTwo(STALED, cx, st, 0, 1, 4, 5, 6, 7);
  }

  lemma NamesFound()
    ensures FindName(["g", "f"], "g") == 0 && FindName(["g", "f"], "f") == 1
  {
    assert ["g", "f"][1..] == ["f"];
  }

  // ----- Run -----

  const WHOLE: seq<Instr> :=
    [Const(2), Return, Const(3), Return, Call(1, 0), Intrinsic(INTRINSIC_PRINT, 1), Call(2, 0), Intrinsic(INTRINSIC_PRINT, 1), Halt]

  /** What matters of the image. */
  ghost predicate Staled(img: Image) { TablesStaled(img) && CodeStaled(img.code) }

  predicate TablesStaled(img: Image) {
    && |img.functions| == 3 && img.functions[0].codeOffset == 8 && img.functions[0].localCount == 0
    && img.functions[1].codeOffset == 0 && img.functions[1].localCount == 0 && img.functions[1].arity == 0
    && img.functions[2].codeOffset == 4 && img.functions[2].localCount == 0 && img.functions[2].arity == 0
    && |img.constants| > 3 && img.constants[2] == IntConst(7) && img.constants[3] == NullConst
  }

  predicate CodeStaled(code: seq<Byte>) {
    && |code| == 29 && Decode(code, 0) == Some(Const(2)) && Decode(code, 3) == Some(Return)
    && Decode(code, 4) == Some(Const(3)) && Decode(code, 7) == Some(Return) && Decode(code, 8) == Some(Call(1, 0))
    && Decode(code, 13) == Some(Intrinsic(INTRINSIC_PRINT, 1)) && Decode(code, 18) == Some(Call(2, 0))
    && Decode(code, 23) == Some(Intrinsic(INTRINSIC_PRINT, 1)) && Decode(code, 28) == Some(Halt)
  }

  lemma {:induction false} WholeSizes()
    ensures Size(WHOLE[..0]) == 0 && Size(WHOLE[..1]) == 3 && Size(WHOLE[..2]) == 4 && Size(WHOLE[..3]) == 7 && Size(WHOLE[..4]) == 8
    ensures Size(WHOLE[..5]) == 13 && Size(WHOLE[..6]) == 18 && Size(WHOLE[..7]) == 23 && Size(WHOLE[..8]) == 28 && Size(WHOLE) == 29
  {
    hide Size;
    SpreadSize(WHOLE, 0);
    SpreadSize(WHOLE, 1);
    SpreadSize(WHOLE, 2);
    SpreadSize(WHOLE, 3);
    SpreadSize(WHOLE, 4);
    SpreadSize(WHOLE, 5);
    SpreadSize(WHOLE, 6);
    SpreadSize(WHOLE, 7);
    SpreadSize(WHOLE, 8);
    assert WHOLE[..9] == WHOLE;
    NoSize(WHOLE);
  }

  lemma {:induction false} WholeDecodes(code: seq<Byte>)
    requires code == EncodeAll(WHOLE)
    ensures CodeStaled(code)
  {
    hide Decode; hide EncodeAll; hide Size; hide At;
    FunctionsDecode(code);
    MainDecodes(code);
  }

  lemma {:induction false} FunctionsDecode(code: seq<Byte>)
    requires code == EncodeAll(WHOLE)
    ensures |code| == 29 && Decode(code, 0) == Some(Const(2)) && Decode(code, 3) == Some(Return)
    ensures Decode(code, 4) == Some(Const(3)) && Decode(code, 7) == Some(Return)
  {
    hide Decode; hide EncodeAll; hide Size; hide At;
    WholeSizes();
    WholeIn(code);
    DecodesTo(code, 0, WHOLE, 0);
    DecodesTo(code, 0, WHOLE, 1);
    DecodesTo(code, 0, WHOLE, 2);
    DecodesTo(code, 0, WHOLE, 3);
  }

  lemma {:induction false} MainDecodes(code: seq<Byte>)
    requires code == EncodeAll(WHOLE)
    ensures |code| == 29 && Decode(code, 8) == Some(Call(1, 0)) && Decode(code, 13) == Some(Intrinsic(INTRINSIC_PRINT, 1))
    ensures Decode(code, 18) == Some(Call(2, 0)) && Decode(code, 23) == Some(Intrinsic(INTRINSIC_PRINT, 1)) && Decode(code, 28) == Some(Halt)
  {
    hide Decode; hide EncodeAll; hide Size; hide At;
    WholeSizes();
    WholeIn(code);
    DecodesTo(code, 0, WHOLE, 4);
    DecodesTo(code, 0, WHOLE, 5);
    DecodesTo(code, 0, WHOLE, 6);
    DecodesTo(code, 0, WHOLE, 7);
    DecodesTo(code, 0, WHOLE, 8);
  }

  lemma WholeIn(code: seq<Byte>)
    requires code == EncodeAll(WHOLE)
    ensures At(code, 0, WHOLE) && |code| == Size(WHOLE)
  {
    hide EncodeAll; hide Size;
    WholeCode(WHOLE);
  }

  lemma WholeIs()
    ensures Relocate(1, [Const(2), Return] + [Const(3), Return] + (PrintCall(0) + PrintCall(1) + [Halt])) == WHOLE
  {
  }

  /** What matters of the compiled functions. */
  ghost predicate UnitStaled(u: Unit) {
    && u.code == [Const(2), Return] + [Const(3), Return] && u.st.pool == ENDED && !u.st.err && u.st.len == 8 && |u.funcs| == 2
    && u.funcs[0].codeOffset == 0 && u.funcs[0].localCount == 0 && u.funcs[0].arity == 0
    && u.funcs[1].codeOffset == 4 && u.funcs[1].localCount == 0 && u.funcs[1].arity == 0
  }

  lemma {:induction false} StaleTwo()
    requires WellFormed(STALED)
    ensures var cx := Cx(["g", "f"], 0);
            var g := CFunc(STALED, cx, EMPTY.st.(pool := NAMED), 0);
            var f := CFunc(STALED, Cx(["g", "f"], 1), g.st, 1);
            Functions(STALED) == Unit(g.code + f.code, f.st, [g.rec, f.rec]) && MainCode(STALED) == CMain(STALED, cx, EnterMain(f.st))
  {
    StaleFunctions();
    hide WellFormed; hide CFunc; hide CMain; hide Functions; hide MainCode; hide FuncIds; hide EnterMain;
    TwoFunctions(STALED, 0, 1);
  }

  lemma {:induction false} StaleUnit()
    requires WellFormed(STALED)
    ensures UnitStaled(Functions(STALED)) && MainCode(STALED) == CMain(STALED, Cx(["g", "f"], 0), EnterMain(Functions(STALED).st))
  {
    hide WellFormed; hide CFunc; hide CMain; hide Functions; hide MainCode; hide UnitStaled; hide EnterMain;
    var st := EMPTY.st.(pool := NAMED);
    StaleTwo();
    SevenCode(Cx(["g", "f"], 0), st);
    var g := CFunc(STALED, Cx(["g", "f"], 0), st, 0);
    EmptyFunction(Cx(["g", "f"], 1), g.st);
    PartsStaled(g, CFunc(STALED, Cx(["g", "f"], 1), g.st, 1));
  }

  lemma PartsStaled(g: FuncOut, f: FuncOut)
    requires g.code == [Const(2), Return] && g.rec.arity == g.rec.localCount == g.rec.codeOffset == 0
    requires f.code == [Const(3), Return] && f.st.pool == ENDED && !f.st.err && f.st.len == 8
    requires f.rec.arity == f.rec.localCount == 0 && f.rec.codeOffset == 4
    ensures UnitStaled(Unit(g.code + f.code, f.st, [g.rec, f.rec]))
  {
  }

  /** The image of such functions and a main that calls both. */
  lemma {:induction false} ImageStaled(p: Program)
    requires WellFormed(p) && UnitStaled(Functions(p))
    requires var m := MainCode(p); m.code == PrintCall(0) + PrintCall(1) + [Halt] && !m.st.err && ENDED <= m.st.pool && m.st.locals == []
    ensures Compile(p).success && Staled(Compile(p).image)
  {
    hide WellFormed; hide Compile; hide EncodeAll; hide Functions; hide MainCode; hide CodeStaled; hide Relocate; hide PrintCall;
    WithFunctions(p, Functions(p), MainCode(p));
    WholeIs();
    WholeDecodes(Compile(p).image.code);
  }

  lemma {:induction false} StaleCompiled()
    requires WellFormed(STALED)
    ensures Compile(STALED).success && Staled(Compile(STALED).image)
  {
    hide WellFormed; hide CMain; hide Compile; hide Functions; hide MainCode; hide Staled; hide EnterMain; hide PrintCall;
    StaleUnit();
    UnitFacts(Functions(STALED));
    hide UnitStaled;
    MainCodeOf(Cx(["g", "f"], 0), EnterMain(Functions(STALED).st));
    EnterMainKeeps(Functions(STALED).st);
    ImageStaled(STALED);
  }

  lemma UnitFacts(u: Unit)
    requires UnitStaled(u)
    ensures u.st.pool == ENDED && !u.st.err
  {
  }

  /** A call of a function that is one constant and a return, and the print of its result. */
  lemma {:induction false} CallAndPrint(img: Image, a: Vm, k: nat, c: nat, v: Value, left: nat)
    requires a.stack == [] && a.frames == [Frame(0, 0, 0)] && !a.halted && a.ip + 10 < |img.code|
    requires Decode(img.code, a.ip) == Some(Call(k, 0)) && Decode(img.code, a.ip + 5) == Some(Intrinsic(INTRINSIC_PRINT, 1))
    requires k < |img.functions| && img.functions[k].arity == img.functions[k].localCount == 0
    requires var at := img.functions[k].codeOffset; at + 3 < |img.code| && Decode(img.code, at) == Some(Const(c)) && Decode(img.code, at + 3) == Some(Return)
    requires c < |img.constants| && ConstValue(img.constants[c]) == Some(v)
    ensures Run(img, Next(a), left + 4) == Run(img, Next(a.(ip := a.ip + 10, out := a.out + [v])), left)
  {
    hide Decode; hide Step;
    StepDecoded(img, a, Call(k, 0));
    var b := Vm([], [Frame(0, 0, 0), Frame(k, a.ip + 5, 0)], img.functions[k].codeOffset, false, a.out);
    assert Step(img, a) == Next(b);
    StepDecoded(img, b, Const(c));
    var d := b.(stack := [v], ip := b.ip + 3);
    assert Step(img, b) == Next(d);
    StepDecoded(img, d, Return);
    var e := Vm([v], [Frame(0, 0, 0)], a.ip + 5, false, a.out);
    assert Step(img, d) == Next(e);
    StepDecoded(img, e, Intrinsic(INTRINSIC_PRINT, 1));
    assert Step(img, e) == Next(a.(ip := a.ip + 10, out := a.out + [v]));
    hide Run;
    RunOne(img, a, left + 3);
    RunOne(img, b, left + 2);
    RunOne(img, d, left + 1);
    RunOne(img, e, left);
  }

  lemma {:induction false} StaleRun(img: Image)
    requires Staled(img)
    ensures Run(img, Next(Boot(img)), 9) == Next(Vm([], [Frame(0, 0, 0)], 29, true, [I64(7), Null]))
  {
    hide Decode; hide Step;
    var a := Boot(img);
    assert a == Vm([], [Frame(0, 0, 0)], 8, false, []);
    CallAndPrint(img, a, 1, 2, I64(7), 5);
    var b := Vm([], [Frame(0, 0, 0)], 18, false, [I64(7)]);
    assert [] + [I64(7)] == [I64(7)] && [I64(7)] + [Null] == [I64(7), Null];
    CallAndPrint(img, b, 2, 3, Null, 1);
    var c := Vm([], [Frame(0, 0, 0)], 28, false, [I64(7), Null]);
    StepDecoded(img, c, Halt);
    RunOne(img, c, 0);
  }

  /** On a valid graph: the interpreter prints seven twice, the machine seven and null. */
  lemma {:induction false} StaleResultDiffers()
    ensures WellFormed(STALED) && ValidGraph(STALE) && Interpret(STALED) == Interpreter.Outcome(true, I64(7), [I64(7), I64(7)])
    ensures Compile(STALED).success && Compile(STALED).image.functions != []
    ensures var img := Compile(STALED).image;
            Run(img, Next(Boot(img)), 9) == Next(Vm([], [Frame(0, 0, 0)], 29, true, [I64(7), Null])) && !Delivers(img, [I64(7), I64(7)], None)
  {
    StaleWellFormed();
    StaleValid();
    StaleInterpreted();
    StaleCompiled();
    hide WellFormed; hide ValidGraph; hide Interpret; hide Compile; hide Delivers; hide Staled;
    StaledHas(Compile(STALED).image);
    StaleRun(Compile(STALED).image);
    EndsOnce(Compile(STALED).image, 9, [I64(7), I64(7)]);
  }

  lemma StaledHas(img: Image)
    requires Staled(img)
    ensures img.functions != []
  {
  }
}
