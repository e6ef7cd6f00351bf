/** Facts for following single programs through the compiler and the machine step by step. */
module SmallPrograms {
  import opened Values
  import opened Bytecode
  import opened SemanticGraph
  import opened CodeGen
  import opened Machine
  import opened HeightCertificates
  import opened Compiling
  import opened Linking
  import opened CompilerCorrectness
  import opened Pipeline

  const MAIN_START: Cst := Cst([StrConst("main")], [], false, 0, 0, 0, [])

  /** A program without functions is its main. */
  lemma {:induction false} OnlyMain(p: Program)
    requires WellFormed(p) && FuncIds(p.g, 0) == []
    ensures var m := CMain(p, Cx([], 0), MAIN_START);
            MainCode(p) == m && Functions(p) == EMPTY &&
            Compile(p) == Compiled(Image(m.st.pool, [FuncRecord(0, 0, |m.st.locals|, Truncate16(m.st.max), 0, Size(m.code))],
                                         EncodeAll(m.code), m.st.debug), !m.st.err)
  {
    hide CMain; hide FuncIds; hide Size; hide EncodeAll; hide Relocate; hide ShiftDebug;
    assert Names(p.g, []) == [];
    assert Register(p.g, EMPTY, []) == EMPTY;
    assert AddFunctions(p, [], EMPTY, []) == EMPTY;
    assert Intern([], StrConst("main")) == [StrConst("main")];
    assert EnterMain(EMPTY.st) == MAIN_START;
    var m := MainCode(p);
    assert EMPTY.code + m.code == m.code;
  }

  lemma EnterMainKeeps(st: Cst)
    ensures EnterMain(st).err == st.err && st.pool <= EnterMain(st).pool && EnterMain(st).locals == []
  {
  }

  /** A program with functions: main goes to the front of the table. */
  lemma {:induction false} WithFunctions(p: Program, u: Unit, m: Out)
    requires WellFormed(p) && u == Functions(p) && m == MainCode(p) && u.funcs != []
    ensures var c := Compile(p);
            && c.success == !m.st.err && c.image.constants == m.st.pool && c.image.code == EncodeAll(Relocate(1, u.code + m.code))
            && |c.image.functions| == |u.funcs| + 1 && c.image.functions[1..] == u.funcs
            && c.image.functions[0].codeOffset == u.st.len && c.image.functions[0].localCount == |m.st.locals|
  {
    hide Functions; hide MainCode; hide EncodeAll; hide Relocate; hide FindConst; hide ShiftDebug;
    CompileShape(p);
    hide Compile;
  }

  function NameOf(p: Program, f: nat): string
    requires f < |p.g.nodes| && p.g.nodes[f].kind.FuncDef?
  {
    p.g.nodes[f].kind.name
  }

  lemma NamesOne(p: Program, f: nat)
    requires f < |p.g.nodes| && p.g.nodes[f].kind.FuncDef?
    ensures Names(p.g, [f]) == [NameOf(p, f)]
  {
  }

  lemma NamesTwo(p: Program, f: nat, g: nat)
    requires f < |p.g.nodes| && p.g.nodes[f].kind.FuncDef? && g < |p.g.nodes| && p.g.nodes[g].kind.FuncDef?
    ensures Names(p.g, [f, g]) == [NameOf(p, f), NameOf(p, g)]
  {
  }

  lemma {:induction false} RegisterOne(p: Program, f: nat)
    requires f < |p.g.nodes| && p.g.nodes[f].kind.FuncDef?
    ensures Register(p.g, EMPTY, [f]).st == EMPTY.st.(pool := [StrConst(NameOf(p, f))])
  {
    assert Intern([], StrConst(NameOf(p, f))) == [StrConst(NameOf(p, f))];
    assert [f][1..] == [];
  }

  lemma {:induction false} RegisterTwo(p: Program, f: nat, g: nat)
    requires f < |p.g.nodes| && p.g.nodes[f].kind.FuncDef? && g < |p.g.nodes| && p.g.nodes[g].kind.FuncDef?
    requires NameOf(p, f) != NameOf(p, g)
    ensures Register(p.g, EMPTY, [f, g]).st == EMPTY.st.(pool := [StrConst(NameOf(p, f)), StrConst(NameOf(p, g))])
  {
    var a, b := StrConst(NameOf(p, f)), StrConst(NameOf(p, g));
    assert Intern([], a) == [a] && Intern([a], b) == [a, b];
    assert [f, g][1..] == [g] && [g][1..] == [];
    var u := EMPTY.(st := EMPTY.st.(pool := [a]), funcs := [FuncRecord(0, p.g.nodes[f].kind.arity, 0, 0, 0, 0)]);
    assert EMPTY.funcs + [FuncRecord(0, p.g.nodes[f].kind.arity, 0, 0, 0, 0)] == u.funcs;
    assert FindConst([], a) == 0;
    assert Register(p.g, EMPTY, [f, g]) == Register(p.g, u, [g]);
    var v := u.(st := u.st.(pool := [a, b]), funcs := u.funcs + [FuncRecord(FindConst([a], b), p.g.nodes[g].kind.arity, 0, 0, 0, 0)]);
    assert Register(p.g, u, [g]) == Register(p.g, v, []);
  }

  /** The functions of a program with one. */
  lemma {:induction false} OneFunction(p: Program, f: nat)
    requires WellFormed(p) && FuncIds(p.g, 0) == [f] && f < |p.g.nodes| && p.g.nodes[f].kind.FuncDef?
    ensures var cx := Cx([NameOf(p, f)], 0); var o := CFunc(p, cx, EMPTY.st.(pool := [StrConst(NameOf(p, f))]), f);
            Functions(p) == Unit(o.code, o.st, [o.rec]) && MainCode(p) == CMain(p, cx, EnterMain(o.st))
  {
    hide CFunc; hide CMain; hide Indexed; hide Ranked; hide AddFunction; hide Register; hide EnterMain;
    var u0, names := Register(p.g, EMPTY, [f]), [NameOf(p, f)];
    RegisteredFrom(p);
    NamesOne(p, f);
    RegisterOne(p, f);
    AddFunctionStep(p, names, u0, f, 0);
    var w := AddFunction(p, names, u0, f);
    assert [f][1..] == [];
    assert AddFunctions(p, names, w, []) == w;
    assert AddFunctions(p, names, u0, [f]) == w;
    var o := CFunc(p, Cx(names, 0), u0.st, f);
    assert [] + o.code == o.code;
    assert w.funcs == [o.rec];
  }

  lemma RegisteredFrom(p: Program)
    requires WellFormed(p)
    ensures var ids := FuncIds(p.g, 0); var u := Register(p.g, EMPTY, ids);
            Registered(u, Names(p.g, ids)) && u.code == [] && u.st.len == Size(u.code) == 0
  {
    var ids := FuncIds(p.g, 0);
    assert Registered(EMPTY, []);
    RegisterRegisters(p.g, EMPTY, ids, []);
    assert [] + Names(p.g, ids) == Names(p.g, ids);
  }

  lemma {:induction false} AddTwo(p: Program, names: seq<string>, u: Unit, f: nat, g: nat)
    requires WellFormed(p)
    requires f < |p.g.nodes| && p.g.nodes[f].kind.FuncDef? && g < |p.g.nodes| && p.g.nodes[g].kind.FuncDef?
    ensures AddFunctions(p, names, u, [f, g]) == AddFunction(p, names, AddFunction(p, names, u, f), g)
  {
    hide Indexed; hide Ranked; hide AddFunction;
    var u1 := AddFunction(p, names, u, f);
    var u2 := AddFunction(p, names, u1, g);
    assert [f, g][1..] == [g] && [g][1..] == [];
    assert AddFunctions(p, names, u2, []) == u2;
    assert AddFunctions(p, names, u1, [g]) == u2;
  }

  lemma TwoRecords(funcs: seq<FuncRecord>, a: FuncRecord, b: FuncRecord)
    requires |funcs| == 2
    ensures funcs[0 := a][1 := b] == [a, b]
  {
  }

  /** The functions of a program with two. */
  lemma {:induction false} TwoFunctions(p: Program, f: nat, g: nat)
    requires WellFormed(p) && FuncIds(p.g, 0) == [f, g]
    requires f < |p.g.nodes| && p.g.nodes[f].kind.FuncDef? && g < |p.g.nodes| && p.g.nodes[g].kind.FuncDef? && NameOf(p, f) != NameOf(p, g)
    ensures var names := [NameOf(p, f), NameOf(p, g)];
            var of := CFunc(p, Cx(names, 0), EMPTY.st.(pool := [StrConst(names[0]), StrConst(names[1])]), f);
            var og := CFunc(p, Cx(names, 1), of.st, g);
            Functions(p) == Unit(of.code + og.code, og.st, [of.rec, og.rec]) && MainCode(p) == CMain(p, Cx(names, 0), EnterMain(og.st))
  {
    hide CFunc; hide CMain; hide Indexed; hide Ranked; hide AddFunction; hide Register; hide EnterMain; hide Registered;
    var u0, names := Register(p.g, EMPTY, [f, g]), [NameOf(p, f), NameOf(p, g)];
    RegisteredFrom(p);
    NamesTwo(p, f, g);
    RegisterTwo(p, f, g);
    AddFunctionStep(p, names, u0, f, 0);
    var u1 := AddFunction(p, names, u0, f);
    AddFunctionStep(p, names, u1, g, 1);
    AddTwo(p, names, u0, f, g);
    hide FuncIds; hide Names; hide AddFunctions; hide FindConst;
    var of := CFunc(p, Cx(names, 0), u0.st, f);
    var og := CFunc(p, Cx(names, 1), of.st, g);
    assert [] + of.code == of.code && u1.st == of.st;
    TwoRecords(u0.funcs, of.rec, og.rec);
  }

  // ----- Member lists -----

  lemma {:induction false} MemberSkipped(p: Program, cx: Cx, st: Cst, n: nat, ms: seq<nat>, bound: nat)
    requires WellFormed(p) && MemberBelow(p, n, bound) && (forall k :: 0 <= k < |ms| ==> MemberBelow(p, ms[k], bound))
    requires p.g.nodes[n].kind.Param? || IsExprNode(p.g.nodes[n].kind)
    ensures CMembers(p, cx, st, [n] + ms, bound) == CMembers(p, cx, st, ms, bound)
  {
    hide CNode; hide Indexed; hide Ranked; hide CMembers;
    var all := [n] + ms;
    assert all[0..] == all && all[1..] == ms;
    MembersShape(p, cx, st, all, 0, bound);
    var rest := CMembers(p, cx, st, ms, bound);
    assert [] + rest.code == rest.code;
  }

  lemma {:induction false} MemberCompiled(p: Program, cx: Cx, st: Cst, n: nat, ms: seq<nat>, bound: nat)
    requires WellFormed(p) && MemberBelow(p, n, bound) && (forall k :: 0 <= k < |ms| ==> MemberBelow(p, ms[k], bound))
    requires !p.g.nodes[n].kind.Param? && !IsExprNode(p.g.nodes[n].kind)
    ensures var o := CNode(p, cx, st, n); var rest := CMembers(p, cx, o.st, ms, bound);
            CMembers(p, cx, st, [n] + ms, bound) == Out(o.code + rest.code, rest.st)
  {
    hide CNode; hide Indexed; hide Ranked; hide CMembers;
    var all := [n] + ms;
    assert all[0..] == all && all[1..] == ms;
    MembersShape(p, cx, st, all, 0, bound);
  }

  lemma {:induction false} RootSkipped(p: Program, cx: Cx, st: Cst, n: nat, ms: seq<nat>)
    requires WellFormed(p) && MemberBelow(p, n, p.top) && (forall k :: 0 <= k < |ms| ==> MemberBelow(p, ms[k], p.top))
    requires var k := p.g.nodes[n].kind; k.FuncDef? || k.RootOutput? || IsExprNode(k)
    ensures CRootMembers(p, cx, st, [n] + ms) == CRootMembers(p, cx, st, ms)
  {
    hide CNode; hide Indexed; hide Ranked; hide CRootMembers;
    var all := [n] + ms;
    assert all[0..] == all && all[1..] == ms;
    RootMembersShape(p, cx, st, all, 0);
    var rest := CRootMembers(p, cx, st, ms);
    assert [] + rest.code == rest.code;
  }

  lemma {:induction false} RootCompiled(p: Program, cx: Cx, st: Cst, n: nat, ms: seq<nat>)
    requires WellFormed(p) && MemberBelow(p, n, p.top) && (forall k :: 0 <= k < |ms| ==> MemberBelow(p, ms[k], p.top))
    requires var k := p.g.nodes[n].kind; !k.FuncDef? && !k.RootOutput? && !IsExprNode(k)
    ensures var o := CNode(p, cx, st, n); var rest := CRootMembers(p, cx, o.st, ms);
            CRootMembers(p, cx, st, [n] + ms) == Out(o.code + rest.code, rest.st)
  {
    hide CNode; hide Indexed; hide Ranked; hide CRootMembers;
    var all := [n] + ms;
    assert all[0..] == all && all[1..] == ms;
    RootMembersShape(p, cx, st, all, 0);
  }

  /** Main of a program whose root has a value and one statement, and no output. */
  lemma {:induction false} MainOfOne(p: Program, cx: Cx, st: Cst, v: nat, n: nat)
    requires WellFormed(p) && MemberBelow(p, v, p.top) && MemberBelow(p, n, p.top) && Members(p.g, p.g.root) == [v, n] && !HasOutput(p.g)
    requires var k := p.g.nodes[n].kind; IsExprNode(p.g.nodes[v].kind) && !k.FuncDef? && !k.RootOutput? && !IsExprNode(k)
    ensures var o := CNode(p, cx, st, n); CMain(p, cx, st) == Out(o.code + [Halt], EmitOp(o.st, Halt))
  {
    hide Indexed; hide Ranked; hide CNode; hide CRootMembers; hide CMain; hide EmitOp;
    MainShape(p, cx, st);
    var o := CNode(p, cx, st, n);
    assert [v] + [n] == [v, n] && [n] + [] == [n];
    RootSkipped(p, cx, st, v, [n]);
    RootCompiled(p, cx, st, n, []);
    NoRootMembers(p, cx, o.st);
    assert o.code + [] == o.code;
  }

  /** One step at a place whose instruction is known. */
  lemma StepDecoded(img: Image, vm: Vm, i: Instr)
    requires !vm.halted && vm.frames != [] && vm.ip < |img.code| && Decode(img.code, vm.ip) == Some(i)
    ensures Step(img, vm) == Exec(img, vm.(ip := vm.ip + i.Size()), i)
  {
    hide Decode; hide Exec; hide Instr.Size;
    InstrTable(i);
  }

  lemma RunOne(img: Image, vm: Vm, k: nat)
    requires !vm.halted && vm.frames != []
    ensures Run(img, Next(vm), k + 1) == Run(img, Step(img, vm), k)
  {
    hide Step;
  }

  lemma RunEnded(img: Image, o: Outcome, k: nat)
    requires o.Fail? || o.vm.halted
    ensures Run(img, o, k) == o
  {
  }

  lemma WholeCode(ins: seq<Instr>)
    requires AllFit(ins)
    ensures At(EncodeAll(ins), 0, ins)
  {
    hide EncodeAll;
    var code := EncodeAll(ins);
    assert code[0..0 + |code|] == code;
  }

  /** An image that halts with some prints delivers no others. */
  lemma {:induction false} EndsOnce(img: Image, n: nat, out: seq<Value>)
    requires img.functions != []
    requires var end := Run(img, Next(Boot(img)), n); end.Next? && end.vm.halted && end.vm.out != out
    ensures !Delivers(img, out, None)
  {
    hide Run; hide Delivers;
    if Delivers(img, out, None) {
      DeliversEnds(img, out, None, n);
    }
  }
}
