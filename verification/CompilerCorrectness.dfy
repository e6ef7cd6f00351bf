/** Whole-program correctness of the compiler against the reference interpreter. */
module CompilerCorrectness {
  import opened Values
  import opened Bytecode
  import opened SemanticGraph
  import opened Interpreter
  import opened CodeGen
  import opened Machine
  import opened Support
  import opened RunFacts
  import opened SimulationBase
  import opened Simulation
  import opened Linking
  import opened OperandBounds

  // ----- The image -----

  /** The image's tables fit the fields that index them and the compiler's local table. */
  predicate Fits(img: Image) {
    && |img.code| < TWO_31
    && |img.constants| <= TABLE_MAX
    && |img.functions| <= TABLE_MAX
    && forall k :: 0 <= k < |img.functions| ==> img.functions[k].localCount <= 256
  }

  function LinkOf(p: Program): Link
    requires WellFormed(p)
  {
    var ids := FuncIds(p.g, 0);
    var names := Names(p.g, ids);
    Link(Compile(p).image, 1, names, ids, Starts(p, names, Register(p.g, EMPTY, ids), ids))
  }

  /** Bytes of a segment of relocated code are found at the segment's offset. */
  lemma {:induction false} SegmentAt(d: nat, pre: seq<Instr>, code: seq<Instr>, post: seq<Instr>)
    ensures Holds(EncodeAll(Relocate(d, pre + code + post)), Size(pre), EncodeAll(Relocate(d, code)))
  {
    hide EncodeAll; hide Size;
    RelocateConcat(d, pre + code, post);
    RelocateConcat(d, pre, code);
    var a, b, c := Relocate(d, pre), Relocate(d, code), Relocate(d, post);
    EncodeConcat(a + b, c);
    EncodeConcat(a, b);
    RelocateSize(d, pre);
    var ea, eb, ec := EncodeAll(a), EncodeAll(b), EncodeAll(c);
    assert (ea + eb + ec)[|ea|..|ea| + |eb|] == eb;
  }

  /** Bounded operands of a fitting image fit their fields after relocation. */
  lemma BoundedFits(l: Limits, code: seq<Instr>)
    requires AllWithin(code, l) && l.pool <= 65536 && l.locals <= 256 && l.funcs < 65536 && l.size < TWO_31
    ensures AllFit(Relocate(1, code))
  {
    forall k | 0 <= k < |code| ensures RelocateOne(1, code[k]).Fits() {
      assert Within(code[k], l);
    }
  }

  /** Code without calls is its own relocation. */
  lemma NoCallsNoRelocation(l: Limits, code: seq<Instr>)
    requires AllWithin(code, l) && l.funcs == 0
    ensures Relocate(1, code) == code
  {
    forall k | 0 <= k < |code| ensures RelocateOne(1, code[k]) == code[k] {
      assert Within(code[k], l);
    }
  }

  lemma {:induction false} RegisteredStart(p: Program)
    requires WellFormed(p)
    ensures var ids := FuncIds(p.g, 0); var u := Register(p.g, EMPTY, ids);
            Registered(u, Names(p.g, ids)) && u.st.len == Size(u.code) && !u.st.err
  {
    var ids := FuncIds(p.g, 0);
    assert Registered(EMPTY, []);
    RegisterRegisters(p.g, EMPTY, ids, []);
    assert [] + Names(p.g, ids) == Names(p.g, ids);
  }

  /** Functions and main, laid out one after the other. */
  lemma {:induction false} Layout(p: Program)
    requires WellFormed(p) && Supported(p)
    ensures var u := Functions(p); var m := MainCode(p); var l := LinkOf(p);
            && u.st.len == Size(u.code) && |u.funcs| == |l.ids| == |l.starts| == |l.names|
            && u.st.pool <= m.st.pool && (u.st.err ==> m.st.err)
            && m.st.len == u.st.len + Size(m.code)
            && (forall k :: 0 <= k < |l.ids| ==> l.ids[k] < |p.g.nodes| && p.g.nodes[l.ids[k]].kind.FuncDef?)
            && (forall k :: 0 <= k < |l.ids| ==> Placed(p, l.names, u, l.starts[k], k, l.ids[k]))
            && |l.img.functions| == |l.ids| + 1 && l.img.functions[1..] == u.funcs
            && l.img.constants == m.st.pool
            && l.img.functions[0].codeOffset == u.st.len && l.img.functions[0].localCount == |m.st.locals|
            && l.img.code == EncodeAll(Relocate(1, u.code + m.code))
  {
    hide Size; hide Placed; hide CMain; hide EncodeAll; hide AddFunctions; hide Registered; hide Supported;
    var ids := FuncIds(p.g, 0);
    var names := Names(p.g, ids);
    var start := Register(p.g, EMPTY, ids);
    RegisteredStart(p);
    SupportedFacts(p);
    AddFunctionsPlaces(p, names, start, ids, 0);
    TableSize(AddFunctions(p, names, start, ids), names);
    var u := Functions(p);
    var m := MainCode(p);
    if |u.funcs| == 0 {
      AddFunctionsNone(p, names, start, ids);
      MainBounded(p, Cx(names, 0), EnterMain(u.st));
      NoCallsNoRelocation(LimitsOf(Cx(names, 0), m.st, m.code), m.code);
      assert u.code + m.code == m.code;
    }
  }

  lemma TableSize(u: Unit, names: seq<string>)
    requires Registered(u, names)
    ensures |u.funcs| == |names|
  {
  }

  lemma SupportedFacts(p: Program)
    requires WellFormed(p) && Supported(p)
    ensures Distinct(Names(p.g, FuncIds(p.g, 0))) && NodesSupported(p) && ValuesFed(p.g) && ArgsBounded(p.g)
  {
    SupportedArgsBounded(p);
  }

  lemma AddFunctionsNone(p: Program, names: seq<string>, u: Unit, ids: seq<nat>)
    requires WellFormed(p) && ids == []
    ensures AddFunctions(p, names, u, ids) == u
    ensures u == Register(p.g, EMPTY, ids) ==> u.code == []
  {
  }

  lemma {:induction false} FunctionsLinked(p: Program, k: nat)
    requires WellFormed(p) && Supported(p) && Compile(p).success && Fits(Compile(p).image)
    requires k < |LinkOf(p).ids|
    ensures var l := LinkOf(p); |l.starts| == |l.ids| && k + 1 < |l.img.functions| && l.ids[k] < |p.g.nodes| && p.g.nodes[l.ids[k]].kind.FuncDef?
    ensures FuncLinked(p, LinkOf(p), k)
  {
    hide Size; hide CMain; hide EncodeAll; hide AddFunctions; hide Registered; hide Supported; hide CBody;
    hide Compile; hide Functions; hide MainCode; hide Starts; hide AllFit; hide Bounded; hide ArgsBounded; hide NodesSupported;
    hide ValuesFed; hide Distinct; hide Relocate; hide Ranked; hide Indexed;
    Layout(p);
    SuccessMeans(p);
    SupportedFacts(p);
    var l, u, m := LinkOf(p), Functions(p), MainCode(p);
    var f, st := l.ids[k], l.starts[k];
    assert Placed(p, l.names, u, st, k, f);
    var cx := Cx(l.names, k);
    var o := CFunc(p, cx, st, f);
    var b := CBody(p, cx, st, f);
    FuncGrows(p, cx, st, f);
    FuncBounded(p, cx, st, f);
    assert l.img.functions[k + 1] == u.funcs[k] == o.rec;
    var pre, post :| u.code == pre + o.code + post && Size(pre) == st.len;
    var tail := o.code[|b.code|..] + post + m.code;
    assert u.code + m.code == pre + b.code + tail;
    SegmentAt(1, pre, b.code, tail);
    SizeThree(pre, o.code, post, m.code);
    CodeLength(p);
    BodyFits(cx, o, b, l.img);
  }

  lemma {:induction false} SizeThree(a: seq<Instr>, b: seq<Instr>, c: seq<Instr>, d: seq<Instr>)
    ensures Size(a + b + c + d) == Size(a) + Size(b) + Size(c) + Size(d)
  {
    hide Size;
    SizeConcat(a + b + c, d);
    SizeConcat(a + b, c);
    SizeConcat(a, b);
  }

  lemma {:induction false} CodeLength(p: Program)
    requires WellFormed(p) && Supported(p)
    ensures |Compile(p).image.code| == Size(Functions(p).code + MainCode(p).code)
  {
    hide Size; hide EncodeAll; hide Functions; hide MainCode; hide Supported; hide Compile; hide LinkOf;
    Layout(p);
    RelocateSize(1, Functions(p).code + MainCode(p).code);
    LinkImage(p);
  }

  lemma LinkImage(p: Program)
    requires WellFormed(p)
    ensures LinkOf(p).img == Compile(p).image && LinkOf(p).d == 1
  {
  }

  lemma SuccessMeans(p: Program)
    requires WellFormed(p)
    ensures Compile(p).success <==> !MainCode(p).st.err
    ensures LinkOf(p).img == Compile(p).image && LinkOf(p).d == 1
  {
  }

  /** A prefix of a function's code fits the image. */
  lemma {:induction false} BodyFits(cx: Cx, o: FuncOut, b: Out, img: Image)
    requires Bounded(cx, o.code, o.st) && b.code <= o.code && Fits(img)
    requires o.st.pool <= img.constants && |o.st.locals| <= 256 && |cx.names| < 65536 && Size(o.code) <= |img.code|
    ensures AllFit(Relocate(1, b.code))
  {
    hide Size;
    var l := LimitsOf(cx, o.st, o.code);
    forall k | 0 <= k < |b.code| ensures Within(b.code[k], l) {
      assert b.code[k] == o.code[k];
    }
    BoundedFits(l, b.code);
  }

  lemma {:induction false} ImageLinked(p: Program)
    requires WellFormed(p) && Supported(p) && Compile(p).success && Fits(Compile(p).image)
    ensures Linked(p, LinkOf(p))
    ensures CodeAt(LinkOf(p), Functions(p).st.len, MainCode(p).code)
  {
    hide Size; hide CMain; hide EncodeAll; hide AddFunctions; hide Registered; hide Supported; hide FuncLinked;
    hide Compile; hide Functions; hide Starts; hide AllFit; hide Placed;
    Layout(p);
    SuccessMeans(p);
    SupportedFacts(p);
    var l, u, m := LinkOf(p), Functions(p), MainCode(p);
    forall k | 0 <= k < |l.ids| ensures FuncLinked(p, l, k) {
      FunctionsLinked(p, k);
    }
    assert u.code + m.code + [] == u.code + m.code;
    SegmentAt(1, u.code, m.code, []);
    MainBounded(p, Cx(l.names, 0), EnterMain(u.st));
    CodeLength(p);
    SizeConcat(u.code, m.code);
    BoundedFits(LimitsOf(Cx(l.names, 0), m.st, m.code), m.code);
  }

  // ----- The root region -----

  function RootMember(p: Program, cx: Cx, st: Cst, m: nat): Out
    requires WellFormed(p) && m < |p.g.nodes|
  {
    var k := p.g.nodes[m].kind;
    if k.FuncDef? || k.RootOutput? || IsExprNode(k) then Out([], st) else CNode(p, cx, st, m)
  }

  function ExecRootMember(p: Program, S: State, m: nat): State
    requires WellFormed(p) && m < |p.g.nodes|
  {
    var k := p.g.nodes[m].kind;
    if k.FuncDef? || k.RootOutput? || IsExprNode(k) then S
    else if k.Assign? then AssignRoot(p, S, m)
    else ExecStmt(p, Ctx(0, 0), S, m)
  }

  lemma {:induction false} RootShape(p: Program, cx: Cx, st: Cst, ms: seq<nat>, S: State)
    requires WellFormed(p) && ms != [] && (forall k :: 0 <= k < |ms| ==> MemberBelow(p, ms[k], p.top))
    requires !S.io.err && !ExecRoot(p, S, ms).io.err
    ensures ms[0] < |p.g.nodes|
    ensures var m := RootMember(p, cx, st, ms[0]); var rest := CRootMembers(p, cx, m.st, ms[1..]);
            var next := ExecRootMember(p, S, ms[0]);
            && CRootMembers(p, cx, st, ms) == Out(m.code + rest.code, rest.st)
            && !next.io.err
            && ExecRoot(p, S, ms) == ExecRoot(p, next, ms[1..])
  {
    assert MemberBelow(p, ms[0], p.top);
    InertStmt(p, Ctx(0, 0), S, ms[0]);
  }

  lemma AssignRootAgrees(p: Program, S: State, n: nat)
    requires WellFormed(p) && n < |p.g.nodes| && p.g.nodes[n].kind.Assign? && !AssignRoot(p, S, n).io.err
    ensures AssignRoot(p, S, n) == ExecStmt(p, Ctx(0, 0), S, n)
  {
    RoleBelow(p, n, "value");
  }

  lemma {:induction false} SimRootMember(p: Program, s: Scope, st: Cst, m: nat, S: State, vm: Vm) returns (vm': Vm)
    requires Good(p, s) && s.c == Ctx(0, 0) && m < |p.g.nodes| && !MayReturn(p, m)
    requires var o := RootMember(p, s.cx, st, m); Ready(s, o.code, o.st, vm)
    requires Level(s, vm, S) && !ExecRootMember(p, S, m).io.err
    ensures !ExecRootMember(p, S, m).io.returned
    ensures Ran(s, vm, vm', Size(RootMember(p, s.cx, st, m).code), ExecRootMember(p, S, m))
  {
    hide CodeAt; hide Reaches; hide Env; hide NodesSupported; hide ValuesFed; hide Linked; hide Size; hide MayReturn;
    hide ExecStmt; hide AssignRoot;
    var k := p.g.nodes[m].kind;
    if k.FuncDef? || k.RootOutput? || IsExprNode(k) {
      ReachesSelf(s.l.img, vm);
      EmptySize();
      vm' := vm;
    } else if k.Param? {
      InertStmt(p, s.c, S, m);
      assert CKind(p, s.cx, st, m) == Out([], st);
      ReachesSelf(s.l.img, vm);
      EmptySize();
      vm' := vm;
    } else {
      if k.Assign? {
        AssignRootAgrees(p, S, m);
      }
      NoReturnStmt(p, s.c, S, m);
      vm' := SimStmt(p, s, st, m, S, vm);
    }
  }

  lemma {:induction false} SimRoot(p: Program, s: Scope, st: Cst, ms: seq<nat>, S: State, vm: Vm) returns (vm': Vm)
    requires Good(p, s) && s.c == Ctx(0, 0)
    requires forall k :: 0 <= k < |ms| ==> MemberBelow(p, ms[k], p.top) && !MayReturn(p, ms[k])
    requires var o := CRootMembers(p, s.cx, st, ms); Ready(s, o.code, o.st, vm)
    requires Level(s, vm, S) && !ExecRoot(p, S, ms).io.err
    ensures !ExecRoot(p, S, ms).io.returned
    ensures Ran(s, vm, vm', Size(CRootMembers(p, s.cx, st, ms).code), ExecRoot(p, S, ms))
    decreases ms
  {
    hide CodeAt; hide Reaches; hide Env; hide NodesSupported; hide ValuesFed; hide Linked; hide MayReturn;
    hide CNode; hide ExecStmt;
    if ms == [] {
      ReachesSelf(s.l.img, vm);
      vm' := vm;
    } else {
      vm' := SimRootCons(p, s, st, ms, S, vm);
    }
  }

  lemma {:induction false} SimRootCons(p: Program, s: Scope, st: Cst, ms: seq<nat>, S: State, vm: Vm) returns (vm': Vm)
    requires Good(p, s) && s.c == Ctx(0, 0) && ms != []
    requires forall k :: 0 <= k < |ms| ==> MemberBelow(p, ms[k], p.top) && !MayReturn(p, ms[k])
    requires var o := CRootMembers(p, s.cx, st, ms); Ready(s, o.code, o.st, vm)
    requires Level(s, vm, S) && !ExecRoot(p, S, ms).io.err
    ensures !ExecRoot(p, S, ms).io.returned
    ensures Ran(s, vm, vm', Size(CRootMembers(p, s.cx, st, ms).code), ExecRoot(p, S, ms))
    decreases ms, 0
  {
    hide CodeAt; hide Reaches; hide Env; hide NodesSupported; hide ValuesFed; hide Linked; hide Size; hide MayReturn;
    hide CRootMembers; hide ExecRoot; hide ExecRootMember; hide CNode;
    RootShape(p, s.cx, st, ms, S);
    var m := RootMember(p, s.cx, st, ms[0]);
    var rest := CRootMembers(p, s.cx, m.st, ms[1..]);
    var next := ExecRootMember(p, S, ms[0]);
    CodeSplit(s.l, vm.ip, m.code, rest.code);
    var vm1 := SimRootMember(p, s, st, ms[0], S, vm);
    vm' := SimRoot(p, s, m.st, ms[1..], next, vm1);
    RanThen(s, vm, vm1, vm', Size(m.code), Size(rest.code), next, ExecRoot(p, next, ms[1..]));
  }

  // ----- The theorem -----

  /** The run ends by reporting stack overflow, or halts having printed `out` with `result` on top (if any). */
  ghost predicate Delivers(img: Image, out: seq<Value>, result: Option<Value>)
    requires img.functions != []
  {
    exists k: nat ::
      var end := Run(img, Next(Boot(img)), k);
      end == Machine.Fail(StackOverflow) ||
      (end.Next? && end.vm.halted && end.vm.out == out &&
       (result.Some? ==> end.vm.stack != [] && end.vm.stack[|end.vm.stack| - 1] == result.value))
  }

  lemma DeliversFrom(img: Image, vm: Vm, result: Option<Value>)
    requires img.functions != [] && Reaches(img, Boot(img), vm) && vm.halted
    requires result.Some? ==> vm.stack != [] && vm.stack[|vm.stack| - 1] == result.value
    ensures Delivers(img, vm.out, result)
  {
    var k: nat :| Run(img, Next(Boot(img)), k) == Next(vm) || Run(img, Next(Boot(img)), k) == Machine.Fail(StackOverflow);
  }

  /** Main's frame at the start: all locals null, no variables yet. */
  lemma BootEnv(img: Image, locals: seq<string>)
    requires img.functions != [] && img.functions[0].localCount == |locals|
    ensures Env(Boot(img), locals, []) && Base(Boot(img)) == 0 && |Boot(img).stack| == |locals|
  {
  }

  /** Output code: the value is printed and left on the stack, and the machine halts. */
  lemma {:induction false} SimFinish(l: Link, a: Vm, vm: Vm, k: nat, v: Value, out: seq<Value>) returns (end: Vm)
    requires Alive(a) && Alive(vm) && Reaches(l.img, a, vm) && Reaches(l.img, vm, Pushed(vm, k, v, out))
    requires CodeAt(l, vm.ip + k, [Dup, Intrinsic(INTRINSIC_PRINT, 1), Halt])
    ensures Reaches(l.img, a, end) && end.halted && end.out == out + [v] && end.stack == vm.stack + [v]
  {
    hide CodeAt; hide Reaches;
    ThreeLayout(l, vm.ip + k, Dup, Intrinsic(INTRINSIC_PRINT, 1), Halt);
    var vm1 := Pushed(vm, k, v, out);
    StepDup(l, vm1, v);
    var vm2 := Pushed(vm1, 1, v, out);
    StepPrint(l, vm1.(ip := vm1.ip + 1), v);
    var vm3 := vm1.(ip := vm1.ip + 6, out := out + [v]);
    end := SimHalt(l, vm3);
    ReachesTrans(l.img, a, vm, vm1);
    ReachesTrans(l.img, a, vm1, vm2);
    ReachesTrans(l.img, a, vm2, vm3);
    ReachesTrans(l.img, a, vm3, end);
  }

  lemma {:induction false} SimHalt(l: Link, vm: Vm) returns (end: Vm)
    requires Alive(vm) && CodeAt(l, vm.ip, [Halt])
    ensures Reaches(l.img, vm, end) && end.halted && end.out == vm.out && end.stack == vm.stack
  {
    end := vm.(ip := vm.ip + 1, halted := true);
    StepOne(l, vm, Halt, end);
  }

  /** Main's code, run from the boot state, does what the interpreter does at the top level. */
  lemma {:induction false} SimMain(p: Program, s: Scope, st: Cst)
    requires Good(p, s) && RootSupported(p) && s.c == Ctx(0, 0) && s.l.img.functions != []
    requires var o := CMain(p, s.cx, st);
             Ready(s, o.code, o.st, Boot(s.l.img)) && s.l.img.functions[0].localCount == |s.locals|
    requires Interpret(p).success
    ensures var r := Interpret(p);
            if HasOutput(p.g) then Delivers(s.l.img, r.out + [r.result], Some(r.result))
            else Delivers(s.l.img, r.out, None)
  {
    hide CodeAt; hide Reaches; hide Env; hide NodesSupported; hide ValuesFed; hide Linked; hide Size; hide MayReturn;
    hide CRootMembers; hide ExecRoot; hide CNode; hide EvalNode; hide BindRegion; hide Delivers;
    var vm := Boot(s.l.img);
    var ms := Members(p.g, p.g.root);
    WholeRegionBelow(p, p.g.root);
    RootNeverReturns(p, ms);
    BootEnv(s.l.img, s.locals);
    var b := CRootMembers(p, s.cx, st, ms);
    var S := ExecRoot(p, START, ms);
    if HasOutput(p.g) {
      var v := CNode(p, s.cx, b.st, p.g.output);
      var tail := [Dup, Intrinsic(INTRINSIC_PRINT, 1), Halt];
      var r := EvalNode(p, Ctx(0, 0), S.vars, S.io, p.g.output);
      CodeSplit3(s.l, vm.ip, b.code, v.code, tail);
      var vm1 := SimRoot(p, s, st, ms, START, vm);
      SimNode(p, s, b.st, p.g.output, S.vars, S.io, vm1);
      var end := SimFinish(s.l, vm, vm1, Size(v.code), r.v, r.io.out);
      DeliversFrom(s.l.img, end, Some(r.v));
    } else {
      CodeSplit(s.l, vm.ip, b.code, [Halt]);
      var vm1 := SimRoot(p, s, st, ms, START, vm);
      var end := SimHalt(s.l, vm1);
      ReachesTrans(s.l.img, vm, vm1, end);
      DeliversFrom(s.l.img, end, None);
    }
  }

  lemma RootNeverReturns(p: Program, ms: seq<nat>)
    requires WellFormed(p) && RootSupported(p) && ms == Members(p.g, p.g.root)
    requires RegionBelow(p, p.g.root, p.top)
    ensures forall k :: 0 <= k < |ms| ==> MemberBelow(p, ms[k], p.top) && !MayReturn(p, ms[k])
  {
  }

  /**
   If the interpreter succeeds on a supported program that compiles to an image
   whose tables fit, the machine run of that image reports stack overflow or halts
   with the interpreter's prints and result; main prints its output once more.
   */
  lemma {:induction false} CompilerCorrect(p: Program)
    requires WellFormed(p) && Supported(p)
    requires Compile(p).success && Fits(Compile(p).image)
    requires Interpret(p).success
    ensures Compile(p).image.functions != []
    ensures var r := Interpret(p);
            if HasOutput(p.g) then Delivers(Compile(p).image, r.out + [r.result], Some(r.result))
            else Delivers(Compile(p).image, r.out, None)
  {
    hide Size; hide CMain; hide EncodeAll; hide AddFunctions; hide Registered; hide Linked; hide CodeAt; hide Interpret;
    hide Compile; hide Functions; hide Starts; hide Placed; hide NodesSupported; hide ValuesFed; hide RootSupported;
    hide Delivers;
    Layout(p);
    SuccessMeans(p);
    ImageLinked(p);
    MainDistinct(p);
    var l := LinkOf(p);
    var m := MainCode(p);
    var s := Scope(l, Cx(l.names, 0), m.st.locals, Ctx(0, 0));
    SimMain(p, s, EnterMain(Functions(p).st));
  }

  lemma {:induction false} MainDistinct(p: Program)
    requires WellFormed(p) && Supported(p)
    ensures Distinct(MainCode(p).st.locals)
  {
    hide CNode; hide Functions; hide Size; hide NodesSupported; hide BindAll; hide MayReturnIn;
    var ms := Members(p.g, p.g.root);
    WholeRegionBelow(p, p.g.root);
    var cx, st := Cx(Names(p.g, FuncIds(p.g, 0)), 0), EnterMain(Functions(p).st);
    RootLocals(p, cx, st, ms);
    if HasOutput(p.g) {
      var b := CRootMembers(p, cx, st, ms);
      OutputLocals(p, cx, b.st);
    }
  }

  lemma {:induction false} OutputLocals(p: Program, cx: Cx, st: Cst)
    requires WellFormed(p) && ValuesFed(p.g) && HasOutput(p.g)
    ensures CNode(p, cx, st, p.g.output).st.locals == st.locals
  {
    SimpleLocals(p, cx, st, p.g.output);
  }

  lemma {:induction false} RootLocals(p: Program, cx: Cx, st: Cst, ms: seq<nat>)
    requires WellFormed(p) && ValuesFed(p.g)
    requires forall k :: 0 <= k < |ms| ==> MemberBelow(p, ms[k], p.top)
    ensures CRootMembers(p, cx, st, ms).st.locals == BindAll(p, st.locals, ms, p.top)
    decreases ms
  {
    if ms != [] {
      assert MemberBelow(p, ms[0], p.top);
      var m := RootMember(p, cx, st, ms[0]);
      var k := p.g.nodes[ms[0]].kind;
      if k.Param? {
        assert CKind(p, cx, st, ms[0]) == Out([], st);
      } else if !(k.FuncDef? || k.RootOutput? || IsExprNode(k)) {
        StmtLocals(p, cx, st, ms[0]);
      }
      RootLocals(p, cx, m.st, ms[1..]);
    }
  }
}
