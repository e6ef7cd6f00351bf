/**
 A program the compiler gets right and the bytecode verifier rejects: it prints in one
 branch of a test and does nothing in the other, so two heights meet after the test.
 */
module PrintingBranch {
  import opened Values
  import opened Bytecode
  import opened SemanticGraph
  import opened Interpreter
  import opened CodeGen
  import opened Machine
  import opened Support
  import opened Compiling
  import opened CompilerCorrectness
  import opened Verifier
  import opened HeightFlow
  import opened Balance
  import opened StatementBalance
  import opened BalancedPrograms
  import opened SmallPrograms
  import opened Validation

  /** If true, print one. */
  const BRANCH: Graph := Graph(
    [Node(0, ConstBool(true), 0, 0, [0], []), Node(1, If(1, INVALID), 0, 0, [1], []),
     Node(2, ConstInt(1), 1, 0, [2], []), Node(3, Kind.Print, 1, 0, [3], [])],
    [Port(0, 0, Output, None), Port(1, 1, Dir.Input, Some("cond")), Port(2, 2, Output, None), Port(3, 3, Dir.Input, Some("value"))],
    [Edge(0, 0, 1), Edge(1, 2, 3)],
    [Region(0, INVALID, [0, 1]), Region(1, 0, [2, 3])], 0, INVALID)

  const PRINTING: Program := Program(BRANCH, [0, 2, 0, 1], 3, false)

  lemma BranchIndexed()
    ensures Indexed(BRANCH)
  {
  }

  lemma BranchValid()
    ensures ValidGraph(BRANCH)
  {
    assert Up(BRANCH, 0, 0) == 0 && Up(BRANCH, 0, 1) == INVALID;
    assert EndsWithin(BRANCH, 0, 1);
    EndingIsNoCycle(BRANCH, 0);
    assert Up(BRANCH, 1, 0) == 1 && Up(BRANCH, 1, 1) == 0 && Up(BRANCH, 1, 2) == INVALID;
    assert EndsWithin(BRANCH, 1, 2);
    EndingIsNoCycle(BRANCH, 1);
  }

  lemma {:induction false} BranchSources()
    ensures Indexed(BRANCH)
    ensures FindSource(BRANCH, 0) == INVALID && FindSource(BRANCH, 1) == 0 && FindSource(BRANCH, 2) == INVALID && FindSource(BRANCH, 3) == 2
  {
    BranchIndexed();
    hide Indexed;
    forall port: nat ensures SourceFrom(BRANCH, port, 2) == INVALID {
    }
    forall port: nat ensures SourceFrom(BRANCH, port, 1) == if port == 3 then 2 else INVALID {
    }
    forall port: nat ensures SourceFrom(BRANCH, port, 0) == if port == 1 then 0 else if port == 3 then 2 else INVALID {
    }
  }

  lemma BranchInputs()
    ensures Indexed(BRANCH)
    ensures RoleSource(BRANCH, 1, "cond") == 0 && InputSource(BRANCH, 1, "cond") == 0 && InputSource(BRANCH, 3, "value") == 2
  {
    BranchSources();
    hide FindSource; hide Indexed;
    assert FindPort(BRANCH, 1, "cond") == PortFrom(BRANCH, [1], "cond", 0) == 1;
    assert FindPort(BRANCH, 3, "value") == PortFrom(BRANCH, [3], "value", 0) == 3;
  }

  lemma BranchWellFormed()
    ensures WellFormed(PRINTING)
  {
    BranchSources();
    hide FindSource; hide Indexed;
    assert Ranked(PRINTING, 0) && Ranked(PRINTING, 2) && Ranked(PRINTING, 3);
    assert RegionBelow(PRINTING, 1, 2) && RegionBelow(PRINTING, INVALID, 2);
    assert Ranked(PRINTING, 1);
    forall n | 0 <= n < 4 ensures Ranked(PRINTING, n) {
      assert n == 0 || n == 1 || n == 2 || n == 3;
      hide Ranked;
    }
  }

  lemma BranchMembers()
    ensures Members(BRANCH, 0) == [0, 1] && Members(BRANCH, 1) == [2, 3] && Members(BRANCH, INVALID) == []
    ensures [0, 1][1..] == [1] && [1][1..] == [] && [2, 3][1..] == [3] && [3][1..] == []
  {
  }

  // ----- Supported -----

  lemma NoFunctions()
    ensures FuncIds(BRANCH, 0) == []
  {
    assert FuncIds(BRANCH, 4) == [];
    assert FuncIds(BRANCH, 3) == [];
    assert FuncIds(BRANCH, 2) == [];
    assert FuncIds(BRANCH, 1) == [];
  }

  lemma {:induction false} BranchSupported()
    requires WellFormed(PRINTING)
    ensures Supported(PRINTING)
  {
    BranchSources();
    BranchInputs();
    BranchMembers();
    NoFunctions();
    hide Indexed; hide Ranked; hide FindSource; hide RoleSource; hide InputSource;
    var p := PRINTING;
    forall n | 0 <= n < 4 ensures NodeSupported(p, n) && PortsFed(BRANCH, BRANCH.nodes[n]) {
      assert n == 0 || n == 1 || n == 2 || n == 3;
    }
    BranchBinds();
    BranchStays();
  }

  lemma {:induction false} BranchBinds()
    requires WellFormed(PRINTING)
    ensures RegionBelow(PRINTING, 0, 3) && BindRegion(PRINTING, [], 0, 3) == []
  {
    hide Indexed; hide Ranked;
    BranchMembers();
    var p := PRINTING;
    WholeRegionBelow(p, 0);
    ChildrenBelow(p, 1);
    assert BindAll(p, [], [], 2) == [];
    assert BindAll(p, [], [3], 2) == [];
    assert BindAll(p, [], [2, 3], 2) == [];
    assert Bind(p, [], 1) == BindRegion(p, BindRegion(p, [], 1, 2), INVALID, 2) == [];
    assert BindAll(p, [], [], 3) == [];
    assert BindAll(p, [], [1], 3) == [];
    assert BindAll(p, [], [0, 1], 3) == [];
  }

  lemma {:induction false} BranchStays()
    requires WellFormed(PRINTING)
    ensures RegionBelow(PRINTING, 0, 3) && !MayReturnIn(PRINTING, 0, 3)
  {
    hide Indexed; hide Ranked;
    BranchMembers();
    var p := PRINTING;
    WholeRegionBelow(p, 0);
    ChildrenBelow(p, 1);
    assert !MayReturn(p, 2) && !MayReturn(p, 3);
    assert !MayReturnIn(p, 1, 2) && !MayReturnIn(p, INVALID, 2);
    assert !MayReturn(p, 0) && !MayReturn(p, 1);
  }

  // ----- Interpreted -----

  lemma {:induction false} BranchInterpreted()
    requires WellFormed(PRINTING)
    ensures Interpret(PRINTING) == Interpreter.Outcome(true, Null, [I64(1)])
  {
    BranchInputs();
    BranchMembers();
    hide Indexed; hide Ranked; hide InputSource;
    var p, c := PRINTING, Ctx(0, 0);
    WholeRegionBelow(p, 0);
    ChildrenBelow(p, 1);
    RoleBelow(p, 1, "cond");
    RoleBelow(p, 3, "value");
    var end := State([], Io(Null, false, false, [I64(1)]));
    assert EvalSource(p, c, [], START.io, 3, 2) == EvalNode(p, c, [], START.io, 2) == Res(I64(1), START.io);
    assert ExecStmt(p, c, START, 3) == end by { assert [] + [I64(1)] == [I64(1)]; }
    assert ExecMembers(p, c, end, [], 2) == end;
    assert ExecMembers(p, c, START, [3], 2) == end;
    assert ExecMembers(p, c, START, [2, 3], 2) == end;
    assert ExecRegion(p, c, START, 1, 2) == end;
    assert EvalSource(p, c, [], START.io, 1, 0) == EvalNode(p, c, [], START.io, 0) == Res(Bool(true), START.io);
    assert ExecStmt(p, c, START, 1) == end;
    assert ExecRoot(p, end, []) == end;
    assert ExecRoot(p, START, [1]) == end;
    assert ExecRoot(p, START, [0, 1]) == end;
  }

  // ----- Unbalanced -----

  lemma {:induction false} BranchUnbalanced()
    requires WellFormed(PRINTING)
    ensures !Balanced(PRINTING)
  {
    BranchInputs();
    BranchMembers();
    hide Indexed; hide Ranked; hide InputSource; hide RoleSource;
    var p := PRINTING;
    WholeRegionBelow(p, 0);
    ChildrenBelow(p, 1);
    assert Gain(p, 0) == Some(1) && Gain(p, 2) == Some(1);
    assert Under(Level(0), GainTest(p, 1)) == Level(0);
    assert StmtExit(p, 3, Level(0)) == Some(Level(1));
    assert MembersExit(p, [], Level(1), 2) == Some(Level(1));
    assert MembersExit(p, [3], Level(0), 2) == Some(Level(1));
    assert MembersExit(p, [2, 3], Level(0), 2) == Some(Level(1));
    assert MembersExit(p, [], Level(0), 2) == Some(Level(0));
    assert StmtExit(p, 1, Level(0)) == None;
    assert MembersExit(p, [1], Level(0), 3) == None;
    assert MembersExit(p, [0, 1], Level(0), 3) == None;
  }

  // ----- Compiled -----

  lemma {:induction false} PrintCode(cx: Cx, st: Cst)
    requires WellFormed(PRINTING)
    ensures var o := CNode(PRINTING, cx, st, 3);
            |o.code| == 2 && o.st.err == st.err && o.st.locals == st.locals && |o.st.pool| <= |st.pool| + 1 && Size(o.code) == 8
  {
    BranchInputs();
    hide Indexed; hide Ranked; hide InputSource; hide Size;
    var p := PRINTING;
    RoleBelow(p, 3, "value");
    var v := EmitConst(st, IntConst(1));
    assert CSource(p, cx, st, 3, 2) == CNode(p, cx, st, 2) == v;
    var o := CPrint(p, cx, st, 3);
    SizeSnoc(v.code, Intrinsic(INTRINSIC_PRINT, 1));
    EncodeOne(v.code[0]);
    assert v.code == [v.code[0]];
  }

  lemma {:induction false} ThenCode(cx: Cx, st: Cst)
    requires WellFormed(PRINTING) && RegionBelow(PRINTING, 1, 2)
    ensures var o := CRegion(PRINTING, cx, st, 1, 2);
            o.st.err == st.err && o.st.locals == st.locals && |o.st.pool| <= |st.pool| + 1 && Size(o.code) == 8
  {
    PrintCode(cx, st);
    BranchMembers();
    hide WellFormed; hide Size; hide CMembers; hide CNode;
    var p, o := PRINTING, CNode(PRINTING, cx, st, 3);
    assert MemberBelow(p, 2, 2) && MemberBelow(p, 3, 2) && [2] + [3] == [2, 3] && [3] + [] == [3];
    MemberSkipped(p, cx, st, 2, [3], 2);
    MemberCompiled(p, cx, st, 3, [], 2);
    NoMembers(p, cx, o.st, 2);
    assert o.code + [] == o.code;
  }

  lemma {:induction false} TestCode(cx: Cx, st: Cst)
    requires WellFormed(PRINTING)
    ensures var o := CNode(PRINTING, cx, st, 1);
            o.st.err == st.err && o.st.locals == st.locals && |o.st.pool| <= |st.pool| + 2 && Size(o.code) == 21
  {
    BranchInputs();
    hide Indexed; hide Ranked; hide RoleSource; hide Size; hide CMembers;
    var p := PRINTING;
    ChildrenBelow(p, 1);
    var c := EmitConst(st, BoolConst(true));
    assert CSource(p, cx, st, 1, 0) == CNode(p, cx, st, 0) == c;
    var s1 := EmitOp(c.st, JumpIfFalse(0));
    ThenCode(cx, s1);
    hide CRegion;
    var t := CRegion(p, cx, s1, 1, 2);
    var s2 := EmitOp(t.st, Jump(0));
    assert CRegion(p, cx, s2, INVALID, 2) == Out([], s2) by { NothingThere(cx, s2); }
    IfShape(p, cx, st, 1, c, t, Out([], s2));
    TestSize(c.code[0], t.code);
    assert c.code == [c.code[0]];
  }

  lemma NothingThere(cx: Cx, st: Cst)
    requires WellFormed(PRINTING) && RegionBelow(PRINTING, INVALID, 2)
    ensures CRegion(PRINTING, cx, st, INVALID, 2) == Out([], st)
  {
  }

  lemma TestSize(i: Instr, t: seq<Instr>)
    ensures Size([i] + [JumpIfFalse(Size(t) + 5)] + t + [Jump(Size([]))] + []) == i.Size() + Size(t) + 10
  {
    LoopSize([i], JumpIfFalse(Size(t) + 5), t, Jump(Size([])));
    EncodeOne(i);
    var code := [i] + [JumpIfFalse(Size(t) + 5)] + t + [Jump(Size([]))];
    assert code + [] == code;
  }

  lemma {:induction false} MainSmall()
    requires WellFormed(PRINTING)
    ensures var m := CMain(PRINTING, Cx([], 0), MAIN_START);
            !m.st.err && m.st.locals == [] && |m.st.pool| <= 3 && Size(m.code) == 22
  {
    var p, cx, st := PRINTING, Cx([], 0), MAIN_START;
    TestCode(cx, st);
    hide WellFormed; hide CNode; hide Size; hide CMain;
    MainOfOne(p, cx, st, 0, 1);
    SizeSnoc(CNode(p, cx, st, 1).code, Halt);
  }

  lemma {:induction false} BranchCompiled()
    requires WellFormed(PRINTING)
    ensures var c := Compile(PRINTING);
            c.success && Fits(c.image) && |c.image.functions| == 1 && c.image.functions[0].codeLength == |c.image.code| == 22
  {
    MainSmall();
    NoFunctions();
    hide WellFormed; hide CMain; hide Compile; hide Size; hide EncodeAll; hide FuncIds;
    OnlyMain(PRINTING);
  }

  lemma {:induction false} BranchRuns()
    requires WellFormed(PRINTING) && Supported(PRINTING) && Interpret(PRINTING) == Interpreter.Outcome(true, Null, [I64(1)])
    ensures Compile(PRINTING).image.functions != [] && Delivers(Compile(PRINTING).image, [I64(1)], None)
  {
    BranchCompiled();
    hide WellFormed; hide Supported; hide Interpret; hide Compile; hide Delivers; hide Fits;
    assert !HasOutput(PRINTING.g);
    CompilerCorrect(PRINTING);
  }

  lemma {:induction false} UnbalancedRejected(p: Program)
    requires WellFormed(p) && Supported(p) && Compile(p).success && Fits(Compile(p).image) && !Balanced(p)
    requires |Compile(p).image.functions| == 1 && Compile(p).image.functions[0].codeLength <= 32767
    ensures var img := Compile(p).image;
            |img.code| < TWO_32 && (forall k :: 0 <= k < |img.functions| ==> Fields(img.functions[k])) && !AllAccepted(img)
  {
    hide WellFormed; hide Supported; hide Compile; hide AllAccepted; hide Fits; hide Balanced;
    AcceptedIffBalanced(p);
  }

  lemma {:induction false} BranchRejected()
    requires WellFormed(PRINTING) && Supported(PRINTING)
    ensures var img := Compile(PRINTING).image;
            |img.code| < TWO_32 && (forall k :: 0 <= k < |img.functions| ==> Fields(img.functions[k])) && !AllAccepted(img)
  {
    hide WellFormed; hide Supported; hide Compile; hide AllAccepted; hide Fits; hide Balanced; hide Fields;
    BranchCompiled();
    BranchUnbalanced();
    UnbalancedRejected(PRINTING);
  }

  /** A supported program the interpreter runs: the machine run of its image is the interpreter's, and the verifier rejects it. */
  lemma {:induction false} GoodProgramRejected()
    ensures WellFormed(PRINTING) && ValidGraph(BRANCH) && Supported(PRINTING)
    ensures Interpret(PRINTING) == Interpreter.Outcome(true, Null, [I64(1)])
    ensures Compile(PRINTING).success && Fits(Compile(PRINTING).image)
    ensures Compile(PRINTING).image.functions != [] && Delivers(Compile(PRINTING).image, [I64(1)], None)
    ensures var img := Compile(PRINTING).image;
            |img.code| == 22 && (forall k :: 0 <= k < |img.functions| ==> Fields(img.functions[k])) && !AllAccepted(img)
  {
    hide WellFormed; hide ValidGraph; hide Supported; hide Interpret; hide Compile; hide Delivers; hide AllAccepted; hide Fits;
    BranchWellFormed();
    BranchValid();
    BranchSupported();
    BranchInterpreted();
    BranchCompiled();
    BranchRuns();
    BranchRejected();
  }
}
