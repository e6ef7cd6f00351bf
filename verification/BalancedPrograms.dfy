/**
 Exactly which compiled programs the verifier accepts: those whose functions balance,
 which can be read off the graph.
 */
module BalancedPrograms {
  import opened Values
  import opened Bytecode
  import opened SemanticGraph
  import opened CodeGen
  import opened Support
  import opened RunFacts
  import opened Compiling
  import opened OperandBounds
  import opened Linking
  import opened CompilerCorrectness
  import opened Verifier
  import opened HeightCertificates
  import opened CertifiedOutput
  import opened HeightFlow
  import opened Balance
  import opened StatementBalance
  import opened ExactAcceptance

  // ----- Functions and programs that balance -----

  /** The last code of the statement is a return. */
  predicate EndsReturn(p: Program, n: nat)
    requires WellFormed(p) && n < |p.g.nodes|
    decreases p.rank[n], 2, 0
  {
    match p.g.nodes[n].kind
    case ReturnNode => true
    case If(_, f) =>
      ChildrenBelow(p, n);
      RegionEndsReturn(p, f, p.rank[n])
    case _ => false
  }

  predicate RegionEndsReturn(p: Program, r: nat, bound: nat)
    requires WellFormed(p) && RegionBelow(p, r, bound)
    decreases bound, 1, |Members(p.g, r)| + 1
  {
    MembersEndReturn(p, Members(p.g, r), bound)
  }

  predicate MembersEndReturn(p: Program, ms: seq<nat>, bound: nat)
    requires WellFormed(p)
    requires forall k :: 0 <= k < |ms| ==> MemberBelow(p, ms[k], bound)
    decreases bound, 1, |ms|
  {
    ms != [] &&
    (assert MemberBelow(p, ms[0], bound);
     if AllSilent(p.g, ms[1..]) then !Silent(p.g.nodes[ms[0]].kind) && EndsReturn(p, ms[0])
     else MembersEndReturn(p, ms[1..], bound))
  }

  /** A function's body has heights from zero on, and unless it ends in a return, so does the null return after it. */
  predicate FuncBalanced(p: Program, f: nat)
    requires WellFormed(p) && f < |p.g.nodes| && p.g.nodes[f].kind.FuncDef?
  {
    var body := p.g.nodes[f].kind.body;
    WholeRegionBelow(p, body);
    if RegionEndsReturn(p, body, p.top) then RegionInside(p, body, Level(0), p.top)
    else RegionExit(p, body, Level(0), p.top).Some?
  }

  predicate MainBalanced(p: Program)
    requires WellFormed(p)
  {
    WholeRegionBelow(p, p.g.root);
    RegionExit(p, p.g.root, Level(0), p.top).Some? && (HasOutput(p.g) ==> GainValue(p, p.g.output).Some?)
  }

  /** Every function and main can be given heights. */
  predicate Balanced(p: Program)
    requires WellFormed(p)
  {
    MainBalanced(p) && forall f :: 0 <= f < |p.g.nodes| && p.g.nodes[f].kind.FuncDef? ==> FuncBalanced(p, f)
  }

  // ----- The last instruction -----

  function Last(code: seq<Instr>): Instr
    requires code != []
  {
    code[|code| - 1]
  }

  predicate LastPlain(code: seq<Instr>) {
    code != [] && (Last(code).StoreLocal? || Last(code).Intrinsic? || Last(code).Jump? || Last(code).Return?)
  }

  /** The last instruction of a statement is a return exactly if the statement ends in one. */
  lemma {:induction false} StmtLast(p: Program, cx: Cx, st: Cst, n: nat)
    requires Steady(p) && n < |p.g.nodes| && !Silent(p.g.nodes[n].kind) && !CNode(p, cx, st, n).st.err
    ensures LastPlain(CNode(p, cx, st, n).code) && (Last(CNode(p, cx, st, n).code).Return? <==> EndsReturn(p, n))
    decreases p.rank[n], 3, 0
  {
    hide CLet; hide CAssign; hide CPrint; hide CReturn; hide CIf; hide CWhile; hide CCycle; hide Indexed; hide Ranked; hide ValuesFed;
    hide NodesSupported; hide RegionEndsReturn;
    var k := p.g.nodes[n].kind;
    if k.Let? || k.Assign? || k.Print? || k.ReturnNode? {
      SimpleLast(p, cx, st, n);
    } else if k.If? {
      IfLast(p, cx, st, n);
    } else if k.While? {
      WhileLast(p, cx, st, n);
    } else if k.Cycle? {
      CycleLast(p, cx, st, n);
    }
  }

  lemma {:induction false} SimpleLast(p: Program, cx: Cx, st: Cst, n: nat)
    requires WellFormed(p) && n < |p.g.nodes| && !CKind(p, cx, st, n).st.err
    requires var k := p.g.nodes[n].kind; k.Let? || k.Assign? || k.Print? || k.ReturnNode?
    ensures var code := CKind(p, cx, st, n).code; LastPlain(code) && (Last(code).Return? <==> p.g.nodes[n].kind.ReturnNode?)
  {
    hide CSource; hide Indexed; hide Ranked; hide InputSource; hide EmitOp; hide FindPort; hide Size; hide EmitConst; hide FindLocal;
  }

  lemma {:induction false} IfLast(p: Program, cx: Cx, st: Cst, n: nat)
    requires Steady(p) && n < |p.g.nodes| && p.g.nodes[n].kind.If? && !CIf(p, cx, st, n).st.err
    ensures LastPlain(CIf(p, cx, st, n).code) && (Last(CIf(p, cx, st, n).code).Return? <==> EndsReturn(p, n))
    decreases p.rank[n], 2, 0
  {
    hide CSource; hide CRegion; hide Ranked; hide RoleSource; hide EmitOp; hide Indexed; hide ValuesFed; hide CIf; hide NoOutputIn;
    hide RegionBelow; hide RegionEndsReturn; hide Size;
    assert NodeSupported(p, n);
    hide NodesSupported;
    ChildrenBelow(p, n);
    RoleBelow(p, n, "cond");
    var c := CSource(p, cx, st, n, RoleSource(p.g, n, "cond"));
    var t := CRegion(p, cx, EmitOp(c.st, JumpIfFalse(0)), p.g.nodes[n].kind.thenRegion, p.rank[n]);
    var e := CRegion(p, cx, EmitOp(t.st, Jump(0)), p.g.nodes[n].kind.elseRegion, p.rank[n]);
    IfShape(p, cx, st, n, c, t, e);
    RegionLast(p, cx, EmitOp(t.st, Jump(0)), p.g.nodes[n].kind.elseRegion, p.rank[n]);
  }

  lemma {:induction false} WhileLast(p: Program, cx: Cx, st: Cst, n: nat)
    requires WellFormed(p) && n < |p.g.nodes| && p.g.nodes[n].kind.While?
    ensures CWhile(p, cx, st, n).code != [] && Last(CWhile(p, cx, st, n).code).Jump?
  {
    hide CSource; hide CRegion; hide Ranked; hide RoleSource; hide EmitOp; hide Indexed; hide CWhile; hide RegionBelow; hide Size;
    ChildrenBelow(p, n);
    RoleBelow(p, n, "cond");
    var c := CSource(p, cx, st, n, RoleSource(p.g, n, "cond"));
    WhileShape(p, cx, st, n, c, CRegion(p, cx, EmitOp(c.st, JumpIfFalse(0)), p.g.nodes[n].kind.body, p.rank[n]));
  }

  lemma {:induction false} CycleLast(p: Program, cx: Cx, st: Cst, n: nat)
    requires WellFormed(p) && n < |p.g.nodes| && p.g.nodes[n].kind.Cycle?
    ensures CCycle(p, cx, st, n).code != [] && Last(CCycle(p, cx, st, n).code).Jump?
  {
    hide CSource; hide CMembers; hide Ranked; hide RoleSource; hide EmitOp; hide Indexed; hide CCycle; hide Size;
    CycleMembersBelow(p, n);
    var ms := Members(p.g, p.g.nodes[n].kind.body);
    var i := FirstBreak(p.g, ms);
    if i < |ms| {
      assert MemberBelow(p, ms[i], p.rank[n]);
      RoleBelow(p, ms[i], "cond");
      var c := CSource(p, cx, st, ms[i], RoleSource(p.g, ms[i], "cond"));
      BreakCycleShape(p, cx, st, n, i, c, CMembers(p, cx, EmitOp(c.st, JumpIfTrue(0)), ms, p.rank[n]));
    } else {
      EndlessCycleShape(p, cx, st, n, CMembers(p, cx, st, ms, p.rank[n]));
    }
  }

  lemma {:induction false} RegionLast(p: Program, cx: Cx, st: Cst, r: nat, bound: nat)
    requires Steady(p) && RegionBelow(p, r, bound) && NoOutputIn(p.g, r) && !CRegion(p, cx, st, r, bound).st.err
    ensures var code := CRegion(p, cx, st, r, bound).code;
            (code == [] ==> !RegionEndsReturn(p, r, bound)) &&
            (code != [] ==> LastPlain(code) && (Last(code).Return? <==> RegionEndsReturn(p, r, bound)))
    decreases bound, 1, |Members(p.g, r)| + 1
  {
    hide CMembers; hide Ranked; hide ValuesFed; hide NodesSupported;
    NoOutputs(p, r, bound);
    if r != INVALID {
      hide MembersEndReturn;
      MembersLast(p, cx, st, Members(p.g, r), bound);
    }
  }

  lemma {:induction false} MembersLast(p: Program, cx: Cx, st: Cst, ms: seq<nat>, bound: nat)
    requires Steady(p) && forall k :: 0 <= k < |ms| ==> MemberBelow(p, ms[k], bound) && !p.g.nodes[ms[k]].kind.RootOutput?
    requires !CMembers(p, cx, st, ms, bound).st.err
    ensures var code := CMembers(p, cx, st, ms, bound).code;
            (code == [] <==> AllSilent(p.g, ms)) && (code == [] ==> !MembersEndReturn(p, ms, bound)) &&
            (code != [] ==> LastPlain(code) && (Last(code).Return? <==> MembersEndReturn(p, ms, bound)))
    decreases bound, 1, |ms|
  {
    hide CNode; hide Indexed; hide Ranked; hide ValuesFed; hide NodesSupported; hide CMembers; hide EndsReturn;
    if ms == [] {
      NoMembers(p, cx, st, bound);
    } else {
      assert ms[0..] == ms;
      MembersShape(p, cx, st, ms, 0, bound);
      var k := p.g.nodes[ms[0]].kind;
      var m := if k.Param? || IsExprNode(k) then Out([], st) else CNode(p, cx, st, ms[0]);
      if Silent(k) {
        SilentEmpty(p, cx, st, ms[0], m);
      } else {
        StmtLast(p, cx, st, ms[0]);
      }
      MembersLast(p, cx, m.st, ms[1..], bound);
      SilentCons(p.g, ms);
    }
  }

  /** With small slots and jumps, the last byte is the return opcode exactly if the last instruction is a return. */
  lemma {:induction false} LastByte(code: seq<Instr>, b: Limits)
    requires LastPlain(code) && Within(Last(code), b) && b.locals <= 256 && b.size <= 32767
    ensures var bytes := EncodeAll(code); |bytes| > 0 && (bytes[|bytes| - 1] == OP_RETURN <==> Last(code).Return?)
  {
    hide EncodeAll;
    var front, i := code[..|code| - 1], Last(code);
    assert code == front + [i];
    EncodeConcat(front, [i]);
    EncodeOne(i);
    OneBytes(i);
    var tail := i.Encode();
    assert EncodeAll(code)[|EncodeAll(code)| - 1] == tail[|tail| - 1];
    match i
    case Jump(o) => HighByte(o);
    case _ =>
  }

  lemma OneBytes(i: Instr)
    ensures EncodeAll([i]) == i.Encode()
  {
    assert [i][1..] == [];
  }

  lemma HighByte(o: int)
    requires -32767 <= o <= 32767
    ensures U32(o)[3] == 0 || U32(o)[3] == 255
  {
  }

  // ----- Functions -----

  /** A null return after code that ends at some height or not at all. */
  lemma {:induction false} CloseGoes(st: Cst, code: seq<Instr>, o: Option<Exit>, inside: bool)
    requires Goes(code, Level(0), o, inside)
    ensures var k := EmitConst(st, NullConst).code; Tails(code + k + [Return], Level(0), o.Some?) && Closed(code + k + [Return])
  {
    hide Yields; hide Tails; hide Closed; hide EmitConst; hide Leaves;
    var k := EmitConst(st, NullConst).code;
    var e := if o.Some? then o.value else Level(0);
    GoesLow(code, Level(0), o, inside);
    ConstLeaves(st, NullConst, e);
    LeavesTails(k, e, Some(1), Return);
    var tail := k + [Return];
    GoesClosed(tail, e, Some(Cut), true);
    GoesClosed(code, Level(0), o, inside);
    GoesParts(code, Level(0), o, inside);
    GoesParts(tail, e, Some(Cut), true);
    ThenTails(code, tail, Level(0), o, true);
    ClosedThen(code, tail);
    assert code + tail == code + k + [Return];
  }

  lemma GoesParts(code: seq<Instr>, e: Exit, o: Option<Exit>, b: bool)
    requires Goes(code, e, o, b)
    ensures Yields(code, e, o) && Tails(code, e, b)
  {
  }

  /** The code of a function has heights exactly if the function balances. */
  lemma {:induction false} FuncRuns(p: Program, cx: Cx, st: Cst, f: nat)
    requires Steady(p) && ArgsBounded(p.g) && f < |p.g.nodes| && p.g.nodes[f].kind.FuncDef?
    requires var o := CFunc(p, cx, st, f); !o.st.err && Size(o.code) <= 32767 && |o.st.locals| <= 256
    ensures var o := CFunc(p, cx, st, f); Closed(o.code) && (Runs(o.code, Level(0), Free) <==> FuncBalanced(p, f))
  {
    hide CRegion; hide Indexed; hide Ranked; hide ValuesFed; hide CloseFunction; hide Closed; hide Runs; hide Size; hide Goes;
    hide RegionExit; hide RegionInside; hide RegionEndsReturn; hide BindRegion; hide Bounded; hide MustReturnIn; hide FuncParams; hide NoOutputIn; hide Distinct;
    assert NodeSupported(p, f);
    hide NodesSupported;
    FunctionShape(p, cx, st, f);
    var body := p.g.nodes[f].kind.body;
    WholeRegionBelow(p, body);
    var b := CBody(p, cx, st, f);
    CloseErr(b);
    RegionGoes(p, cx, EnterFunction(p, st, f), body, Level(0), p.top);
    RegionLast(p, cx, EnterFunction(p, st, f), body, p.top);
    FuncBounded(p, cx, st, f);
    CloseRuns(cx, b, RegionExit(p, body, Level(0), p.top), RegionInside(p, body, Level(0), p.top), RegionEndsReturn(p, body, p.top));
  }

  lemma {:induction false} CloseRuns(cx: Cx, b: Out, x: Option<Exit>, inside: bool, ends: bool)
    requires Goes(b.code, Level(0), x, inside) && (b.code == [] ==> !ends) && (b.code != [] ==> LastPlain(b.code) && (Last(b.code).Return? <==> ends))
    requires var o := CloseFunction(b); Bounded(cx, o.code, o.st) && Size(o.code) <= 32767 && |o.st.locals| <= 256
    ensures var o := CloseFunction(b); Closed(o.code) && (Runs(o.code, Level(0), Free) <==> if ends then inside else x.Some?)
  {
    hide Closed; hide Runs; hide Size; hide Goes; hide EncodeAll; hide Yields;
    var o := CloseFunction(b);
    CloseExtends(b);
    if b.code != [] {
      assert Within(b.code[|b.code| - 1], LimitsOf(cx, o.st, o.code)) by { assert b.code[|b.code| - 1] == o.code[|b.code| - 1]; }
      LastByte(b.code, LimitsOf(cx, o.st, o.code));
    } else {
      Compiling.EmptyCode();
    }
    GoesClosed(b.code, Level(0), x, inside);
    GoesParts(b.code, Level(0), x, inside);
    CloseGoes(b.st, b.code, x, inside);
  }

  // ----- Main -----

  lemma {:induction false} RootMembersGo(p: Program, cx: Cx, st: Cst, ms: seq<nat>, e: Exit)
    requires Steady(p) && forall k :: 0 <= k < |ms| ==> MemberBelow(p, ms[k], p.top)
    requires !e.Free? && 0 <= Enter(e) && !CRootMembers(p, cx, st, ms).st.err
    ensures Goes(CRootMembers(p, cx, st, ms).code, e, MembersExit(p, ms, e, p.top), MembersInside(p, ms, e, p.top))
    decreases |ms|
  {
    hide CNode; hide Goes; hide Indexed; hide Ranked; hide ValuesFed; hide NodesSupported; hide CRootMembers; hide StmtExit; hide StmtInside;
    hide MemberExit; hide Closed;
    RootMembersQuiet(p, cx, st, ms);
    if ms == [] {
      NoRootMembers(p, cx, st);
      NothingGoes(e);
    } else {
      assert ms[0..] == ms;
      RootMembersShape(p, cx, st, ms, 0);
      var k := p.g.nodes[ms[0]].kind;
      var m := if k.FuncDef? || k.RootOutput? || IsExprNode(k) then Out([], st) else CNode(p, cx, st, ms[0]);
      var rest := CRootMembers(p, cx, m.st, ms[1..]);
      RootMemberGoes(p, cx, st, ms[0], m, e);
      var o := MemberExit(p, ms[0], e);
      var mid := if o.Some? then o.value else Level(0);
      RootMembersGo(p, cx, m.st, ms[1..], mid);
      RootMembersQuiet(p, cx, m.st, ms[1..]);
      var oe, ie := MembersExit(p, ms[1..], mid, p.top), MembersInside(p, ms[1..], mid, p.top);
      GoesClosed(rest.code, mid, oe, ie);
      GoesThen(m.code, rest.code, e, o, Silent(k) || StmtInside(p, ms[0], e), oe, ie);
    }
  }

  lemma {:induction false} RootMembersQuiet(p: Program, cx: Cx, st: Cst, ms: seq<nat>)
    requires Steady(p) && forall k :: 0 <= k < |ms| ==> MemberBelow(p, ms[k], p.top)
    requires !CRootMembers(p, cx, st, ms).st.err
    ensures CRootMembers(p, cx, st, ms).code == [] <==> AllSilent(p.g, ms)
    decreases |ms|
  {
    hide CNode; hide Goes; hide Indexed; hide Ranked; hide ValuesFed; hide NodesSupported; hide CRootMembers;
    if ms == [] {
      NoRootMembers(p, cx, st);
    } else {
      assert ms[0..] == ms;
      RootMembersShape(p, cx, st, ms, 0);
      var k := p.g.nodes[ms[0]].kind;
      var m := if k.FuncDef? || k.RootOutput? || IsExprNode(k) then Out([], st) else CNode(p, cx, st, ms[0]);
      RootMemberGoes(p, cx, st, ms[0], m, Level(0));
      RootMembersQuiet(p, cx, m.st, ms[1..]);
      SilentCons(p.g, ms);
    }
  }

  lemma {:induction false} RootMemberGoes(p: Program, cx: Cx, st: Cst, n: nat, m: Out, e: Exit)
    requires Steady(p) && n < |p.g.nodes| && !e.Free? && 0 <= Enter(e) && !m.st.err
    requires var k := p.g.nodes[n].kind;
             m == if k.FuncDef? || k.RootOutput? || IsExprNode(k) then Out([], st) else CNode(p, cx, st, n)
    ensures m.code == [] <==> Silent(p.g.nodes[n].kind)
    ensures Goes(m.code, e, MemberExit(p, n, e), Silent(p.g.nodes[n].kind) || StmtInside(p, n, e))
    ensures MemberExit(p, n, e).Some? ==> !MemberExit(p, n, e).value.Free? && 0 <= Enter(MemberExit(p, n, e).value)
  {
    hide Goes; hide Indexed; hide Ranked; hide ValuesFed; hide NodesSupported; hide StmtExit; hide StmtInside;
    var k := p.g.nodes[n].kind;
    if k.Param? {
      ParamEmitsNothing(p, cx, st, n);
      hide CNode;
      MemberGoes(p, cx, st, n, m, e);
    } else if k.FuncDef? {
      hide CNode;
      NothingGoes(e);
    } else {
      hide CNode;
      MemberGoes(p, cx, st, n, m, e);
    }
  }

  /** The code of main has heights exactly if main balances. */
  lemma {:induction false} MainRuns(p: Program, cx: Cx, st: Cst)
    requires Steady(p) && !CMain(p, cx, st).st.err
    ensures var o := CMain(p, cx, st); Closed(o.code) && (Runs(o.code, Level(0), Free) <==> MainBalanced(p))
    ensures CMain(p, cx, st).code != [] && Last(CMain(p, cx, st).code) == Halt
  {
    hide CNode; hide Ranked; hide ValuesFed; hide NodesSupported; hide CRootMembers; hide Goes; hide Leaves; hide GainValue;
    hide EmitOp; hide EmitPrint; hide CMain; hide Closed; hide Runs; hide MembersExit; hide MembersInside;
    MainShape(p, cx, st);
    MainErr(p, cx, st);
    var ms := Members(p.g, p.g.root);
    var b := CRootMembers(p, cx, st, ms);
    RootMembersGo(p, cx, st, ms, Level(0));
    var x, inside := MembersExit(p, ms, Level(0), p.top), MembersInside(p, ms, Level(0), p.top);
    GoesLow(b.code, Level(0), x, inside);
    if HasOutput(p.g) {
      var v := CNode(p, cx, b.st, p.g.output);
      var e := if x.Some? then x.value else Level(0);
      OutputLeaves(p, cx, b.st, e);
      ShowGoes(b.code, x, inside, v.code, e, GainValue(p, p.g.output));
    } else {
      HaltGoes(b.code, x, inside);
    }
  }

  lemma {:induction false} OutputLeaves(p: Program, cx: Cx, st: Cst, e: Exit)
    requires Steady(p) && HasOutput(p.g) && !e.Free? && 0 <= Enter(e) && !CNode(p, cx, st, p.g.output).st.err
    ensures Leaves(CNode(p, cx, st, p.g.output).code, e, GainValue(p, p.g.output))
  {
    hide CSource; hide NodeIndexed; hide Ranked; hide ValuesFed; hide InputSource; hide Leaves; hide GainValue;
    var n := p.g.output;
    assert NodeSupported(p, n);
    RoleBelow(p, n, "value");
    assert CKind(p, cx, st, n) == CSourceOf(p, cx, st, n);
    ValueLeaves(p, cx, st, n, e);
  }

  lemma {:induction false} HaltGoes(code: seq<Instr>, x: Option<Exit>, inside: bool)
    requires Goes(code, Level(0), x, inside) && (x.Some? ==> !x.value.Free? && 0 <= Enter(x.value))
    ensures Closed(code + [Halt]) && (Runs(code + [Halt], Level(0), Free) <==> x.Some?)
  {
    hide Yields; hide Closed; hide Runs;
    GoesClosed(code, Level(0), x, inside);
    PlainClosed(Halt);
    if x.Some? {
      OneYields(Halt, x.value);
    }
    ThenTails(code, [Halt], Level(0), x, true);
    ClosedThen(code, [Halt]);
  }

  /** The output value is duplicated, printed and left. */
  lemma {:induction false} ShowGoes(b: seq<Instr>, x: Option<Exit>, inside: bool, v: seq<Instr>, e: Exit, g: Option<nat>)
    requires Goes(b, Level(0), x, inside) && Leaves(v, e, g) && !e.Free? && 0 <= Enter(e) && (x.Some? ==> x.value == e)
    ensures var code := b + v + [Dup, Intrinsic(INTRINSIC_PRINT, 1), Halt];
            Closed(code) && (Runs(code, Level(0), Free) <==> x.Some? && g.Some?)
  {
    hide Yields; hide Closed; hide Runs; hide Tails; hide Leaves;
    var show := Intrinsic(INTRINSIC_PRINT, 1);
    GoesClosed(b, Level(0), x, inside);
    LeavesTails(v, e, g, Dup);
    var o := if g.None? then None else Some(Level(Enter(e) + g.value + 1));
    PlainClosed(show);
    if g.Some? {
      LeavesLow(v, e, g);
      OneYields(show, Level(Enter(e) + g.value + 1));
      OneYields(Halt, Level(Enter(e) + g.value + 1));
    }
    GoesClosed(v + [Dup], e, o, g.Some?);
    ThenYields(v + [Dup], [show], e, o, o);
    ClosedThen(v + [Dup], [show]);
    PlainClosed(Halt);
    ThenTails(v + [Dup] + [show], [Halt], e, o, true);
    ClosedThen(v + [Dup] + [show], [Halt]);
    var tail := v + [Dup] + [show] + [Halt];
    ThenTails(b, tail, Level(0), x, g.Some?);
    ClosedThen(b, tail);
    assert b + tail == b + v + [Dup, show, Halt];
    TailsMeans(b + tail, Level(0), x.Some? && g.Some?);
  }

  lemma TailsMeans(code: seq<Instr>, e: Exit, b: bool)
    requires Tails(code, e, b)
    ensures Runs(code, e, Free) <==> b
  {
  }

  lemma LeavesLow(v: seq<Instr>, e: Exit, g: Option<nat>)
    requires Leaves(v, e, g)
    ensures g.Some? ==> g.value >= 1
  {
  }

  // ----- The theorem -----

  lemma {:induction false} FuncStops(p: Program, cx: Cx, st: Cst, f: nat)
    requires WellFormed(p) && NodesSupported(p) && f < |p.g.nodes| && p.g.nodes[f].kind.FuncDef?
    ensures HasReturn(CFunc(p, cx, st, f).code)
  {
    hide CRegion; hide Indexed; hide Ranked; hide CloseFunction; hide BindRegion; hide FuncParams; hide NoOutputIn; hide Distinct; hide MustReturnIn;
    hide HasReturn;
    assert NodeSupported(p, f);
    hide NodesSupported;
    FunctionShape(p, cx, st, f);
    WholeRegionBelow(p, p.g.nodes[f].kind.body);
    RegionReturns(p, cx, EnterFunction(p, st, f), p.g.nodes[f].kind.body, p.top);
    CloseKeepsReturn(CBody(p, cx, st, f));
  }

  /** The verifier accepts function `k` exactly if its definition balances. */
  lemma {:induction false} FunctionAccepted(p: Program, k: nat)
    requires WellFormed(p) && Supported(p) && Compile(p).success && Fits(Compile(p).image) && k < |LinkOf(p).ids|
    requires k + 1 < |Compile(p).image.functions| && Compile(p).image.functions[k + 1].codeLength <= 32767
    ensures var f, img := LinkOf(p).ids[k], Compile(p).image;
            && f < |p.g.nodes| && p.g.nodes[f].kind.FuncDef? && |img.code| < TWO_32 && Fields(img.functions[k + 1])
            && (Accepts(img, img.functions[k + 1]) <==> FuncBalanced(p, f))
  {
    hide Size; hide Supported; hide Compile; hide LinkOf; hide CFunc; hide NodesSupported; hide Holding; hide Fits; hide Closed; hide Runs;
    hide Accepts; hide FuncBalanced; hide ArgsBounded; hide ValuesFed;
    SupportedFacts(p);
    var f, cx, st := FunctionHolding(p, k);
    var o := CFunc(p, cx, st, f);
    FuncRuns(p, cx, st, f);
    FuncStops(p, cx, st, f);
    var r :| 0 <= r < |o.code| && o.code[r].Return?;
    assert Stops(Relocate(1, o.code)[r]);
    RelocateRuns(1, o.code);
    AcceptsIff(Compile(p).image, Compile(p).image.functions[k + 1], Relocate(1, o.code), r);
  }

  lemma {:induction false} MainAccepted(p: Program)
    requires WellFormed(p) && Supported(p) && Compile(p).success && Fits(Compile(p).image)
    requires Compile(p).image.functions != [] && Compile(p).image.functions[0].codeLength <= 32767
    ensures var img := Compile(p).image;
            |img.code| < TWO_32 && Fields(img.functions[0]) && (Accepts(img, img.functions[0]) <==> MainBalanced(p))
  {
    hide Size; hide CMain; hide Supported; hide Compile; hide NodesSupported; hide Holding; hide Fits; hide Closed; hide Runs; hide Accepts;
    hide MainBalanced; hide ValuesFed;
    SupportedFacts(p);
    var cx, st := MainHolding(p);
    var m := CMain(p, cx, st);
    MainRuns(p, cx, st);
    assert Stops(Relocate(1, m.code)[|m.code| - 1]);
    RelocateRuns(1, m.code);
    AcceptsIff(Compile(p).image, Compile(p).image.functions[0], Relocate(1, m.code), |m.code| - 1);
  }

  /**
   The verifier accepts the image of a supported program, none of whose functions has
   more than 32767 bytes of code, if and only if the program balances.
   */
  lemma {:induction false} AcceptedIffBalanced(p: Program)
    requires WellFormed(p) && Supported(p) && Compile(p).success && Fits(Compile(p).image)
    requires forall k :: 0 <= k < |Compile(p).image.functions| ==> Compile(p).image.functions[k].codeLength <= 32767
    ensures var img := Compile(p).image;
            && |img.code| < TWO_32 && (forall k :: 0 <= k < |img.functions| ==> Fields(img.functions[k]))
            && (AllAccepted(img) <==> Balanced(p))
  {
    hide Compile; hide Supported; hide Accepts; hide MainBalanced; hide FuncBalanced; hide Indexed; hide Ranked; hide LinkOf; hide Fits;
    TableCount(p);
    MainAccepted(p);
    LinkIds(p);
    var img, ids := Compile(p).image, LinkOf(p).ids;
    forall k | 0 <= k < |ids|
      ensures Fields(img.functions[k + 1]) && ids[k] < |p.g.nodes| && p.g.nodes[ids[k]].kind.FuncDef?
      ensures Accepts(img, img.functions[k + 1]) <==> FuncBalanced(p, ids[k])
    {
      assert img.functions[k + 1].codeLength <= 32767;
      FunctionAccepted(p, k);
    }
    forall k | 0 <= k < |img.functions| ensures Fields(img.functions[k]) {
      if k > 0 {
        var j := k - 1;
        assert p.g.nodes[ids[j]].kind.FuncDef? && Fields(img.functions[j + 1]) && j + 1 == k;
      }
    }
    if AllAccepted(img) {
      forall f | 0 <= f < |p.g.nodes| && p.g.nodes[f].kind.FuncDef? ensures FuncBalanced(p, f) {
        FuncListed(p.g, 0, f);
        var k :| 0 <= k < |ids| && ids[k] == f;
        assert Accepts(img, img.functions[k + 1]);
      }
    }
    if Balanced(p) {
      forall k | 0 <= k < |img.functions| ensures Accepts(img, img.functions[k]) {
        if k > 0 {
          var j := k - 1;
          assert FuncBalanced(p, ids[j]) && Accepts(img, img.functions[j + 1]);
        }
      }
    }
  }

  lemma LinkIds(p: Program)
    requires WellFormed(p)
    ensures LinkOf(p).ids == FuncIds(p.g, 0)
  {
    hide Compile;
  }
}
