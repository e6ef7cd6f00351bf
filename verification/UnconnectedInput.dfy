/** A print whose input is not connected: null to the interpreter, and no operand at all to the machine. */
module UnconnectedInput {
  import opened Values
  import opened Bytecode
  import opened SemanticGraph
  import opened Interpreter
  import opened CodeGen
  import opened Machine
  import opened Support
  import opened Compiling
  import opened CompilerCorrectness
  import opened SmallPrograms
  import opened Validation

  const LOOSE: Graph := Graph(
    [Node(0, Kind.Print, 0, 0, [0], [])], [Port(0, 0, Dir.Input, Some("value"))], [], [Region(0, INVALID, [0])], 0, INVALID)

  const LOOSE_PRINT: Program := Program(LOOSE, [0], 1, false)

  lemma LooseValid()
    ensures ValidGraph(LOOSE)
  {
    assert Up(LOOSE, 0, 0) == 0 && Up(LOOSE, 0, 1) == INVALID;
    assert EndsWithin(LOOSE, 0, 1);
    EndingIsNoCycle(LOOSE, 0);
  }

  lemma LooseWellFormed()
    ensures WellFormed(LOOSE_PRINT) && InputSource(LOOSE, 0, "value") == INVALID && FuncIds(LOOSE, 0) == []
  {
    assert FindPort(LOOSE, 0, "value") == PortFrom(LOOSE, [0], "value", 0) == 0;
    assert Ranked(LOOSE_PRINT, 0);
    assert FuncIds(LOOSE, 1) == [];
  }

  lemma {:induction false} LooseInterpreted()
    requires WellFormed(LOOSE_PRINT)
    ensures Interpret(LOOSE_PRINT) == Interpreter.Outcome(true, Null, [Null])
  {
    LooseWellFormed();
    hide Indexed; hide Ranked; hide InputSource;
    var p, end := LOOSE_PRINT, State([], Io(Null, false, false, [Null]));
    WholeRegionBelow(p, 0);
    RoleBelow(p, 0, "value");
    assert EvalSource(p, Ctx(0, 0), [], START.io, 0, INVALID) == Res(Null, START.io);
    assert ExecStmt(p, Ctx(0, 0), START, 0) == end by { assert [] + [Null] == [Null]; }
    assert [0][1..] == [];
    assert ExecRoot(p, end, []) == end;
    assert ExecRoot(p, START, [0]) == end;
  }

  lemma {:induction false} LoosePrint(cx: Cx, st: Cst)
    requires WellFormed(LOOSE_PRINT)
    ensures CNode(LOOSE_PRINT, cx, st, 0) == Out([Intrinsic(INTRINSIC_PRINT, 1)], EmitPrint(st))
  {
    LooseWellFormed();
    hide Indexed; hide Ranked; hide InputSource; hide Size;
    var p, show := LOOSE_PRINT, Intrinsic(INTRINSIC_PRINT, 1);
    RoleBelow(p, 0, "value");
    assert CSource(p, cx, st, 0, INVALID) == Out([], st);
    assert [] + [show] == [show];
    assert CPrint(p, cx, st, 0) == Out([show], EmitPrint(st));
    assert CKind(p, cx, st, 0) == CPrint(p, cx, st, 0);
  }

  lemma {:induction false} LooseCompiled()
    requires WellFormed(LOOSE_PRINT)
    ensures var c := Compile(LOOSE_PRINT);
            c.success && |c.image.functions| == 1 && c.image.functions[0].codeOffset == c.image.functions[0].localCount == 0 &&
            c.image.code == EncodeAll([Intrinsic(INTRINSIC_PRINT, 1), Halt])
  {
    LooseWellFormed();
    var p, cx, st := LOOSE_PRINT, Cx([], 0), MAIN_START;
    var show := Intrinsic(INTRINSIC_PRINT, 1);
    LoosePrint(cx, st);
    hide WellFormed; hide CNode; hide CMain; hide CRootMembers; hide Compile; hide EncodeAll; hide FuncIds;
    MainShape(p, cx, st);
    assert [0] + [] == [0];
    RootCompiled(p, cx, st, 0, []);
    NoRootMembers(p, cx, EmitPrint(st));
    assert [show] + [] + [Halt] == [show, Halt];
    OnlyMain(p);
  }

  /** On a valid graph: the interpreter prints null and succeeds, and the machine takes a value off an empty stack. */
  lemma {:induction false} UnconnectedDiffers()
    ensures WellFormed(LOOSE_PRINT) && ValidGraph(LOOSE) && Interpret(LOOSE_PRINT) == Interpreter.Outcome(true, Null, [Null])
    ensures Compile(LOOSE_PRINT).success && Compile(LOOSE_PRINT).image.functions != []
    ensures var img := Compile(LOOSE_PRINT).image;
            (forall k: nat :: k > 0 ==> Run(img, Next(Boot(img)), k) == Machine.Fail(Wild)) && !Delivers(img, [Null], None)
  {
    LooseWellFormed();
    LooseValid();
    LooseInterpreted();
    LooseCompiled();
    hide WellFormed; hide ValidGraph; hide Interpret; hide Compile;
    LooseRun(Compile(LOOSE_PRINT).image);
  }

  lemma {:induction false} LooseRun(img: Image)
    requires img.functions != [] && img.functions[0].codeOffset == img.functions[0].localCount == 0
    requires img.code == EncodeAll([Intrinsic(INTRINSIC_PRINT, 1), Halt])
    ensures forall k: nat :: k > 0 ==> Run(img, Next(Boot(img)), k) == Machine.Fail(Wild)
    ensures !Delivers(img, [Null], None)
  {
    var ins := [Intrinsic(INTRINSIC_PRINT, 1), Halt];
    WholeCode(ins);
    AtDecode(img.code, 0, ins);
    hide EncodeAll; hide Decode; hide Step;
    var vm := Boot(img);
    StepDecoded(img, vm, ins[0]);
    forall k: nat | k > 0 ensures Run(img, Next(vm), k) == Machine.Fail(Wild) {
      RunOne(img, vm, k - 1);
      RunEnded(img, Machine.Fail(Wild), k - 1);
    }
  }
}
