/**
 The heights of statements and regions, read off the graph: how the code of a statement
 entered at some height is left, if the verifier can give it heights at all.
 */
module StatementBalance {
  import opened Values
  import opened Bytecode
  import opened SemanticGraph
  import opened CodeGen
  import opened Support
  import opened RunFacts
  import opened Compiling
  import opened Verifier
  import opened HeightFlow
  import opened Balance

  // ----- Statements on the graph -----

  /** Members that no code is emitted for where they stand. */
  predicate Silent(k: Kind) {
    k.Param? || IsExprNode(k) || k.BreakIf? || k.Sequence? || k.FuncDef? || k.RootOutput?
  }

  predicate AllSilent(g: Graph, ms: seq<nat>) {
    forall k :: 0 <= k < |ms| ==> ms[k] < |g.nodes| && Silent(g.nodes[ms[k]].kind)
  }

  /** Values the source with a role leaves. */
  function GainValue(p: Program, n: nat): Option<nat>
    requires WellFormed(p) && n < |p.g.nodes|
  {
    var s := InputSource(p.g, n, "value");
    if s == INVALID then None else Gain(p, s)
  }

  function GainTest(p: Program, n: nat): Option<nat>
    requires WellFormed(p) && n < |p.g.nodes|
  {
    var s := RoleSource(p.g, n, "cond");
    if s == INVALID then None else Gain(p, s)
  }

  /** The height under the value on top. */
  function Under(e: Exit, g: Option<nat>): (x: Exit)
    ensures x.Level?
  {
    Level(Enter(e) + (if g.Some? then g.value - 1 else 0))
  }

  /** A loop ends where its test fails, and its body must come back to where it started. */
  function LoopExit(e: Exit, g: Option<nat>, body: Option<Exit>): Option<Exit> {
    if g.Some? && body.Some? && Enter(body.value) == Enter(e) then Some(Under(e, g)) else None
  }

  /** How a statement is left; None if its code cannot be given heights. */
  function StmtExit(p: Program, n: nat, e: Exit): Option<Exit>
    requires WellFormed(p) && n < |p.g.nodes|
    decreases p.rank[n], 2, 0
  {
    match p.g.nodes[n].kind
    case Let(_) => if GainValue(p, n).Some? then Some(Under(e, GainValue(p, n))) else None
    case Assign(_) => if GainValue(p, n).Some? then Some(Under(e, GainValue(p, n))) else None
    case Print => Raise(e, GainValue(p, n))
    case ReturnNode => if FindPort(p.g, n, "value") == INVALID || GainValue(p, n).Some? then Some(Cut) else None
    case If(t, f) =>
      ChildrenBelow(p, n);
      var inner := Under(e, GainTest(p, n));
      if GainTest(p, n).None? then None
      else BranchExit(RegionExit(p, t, inner, p.rank[n]), RegionExit(p, f, inner, p.rank[n]))
    case While(b) =>
      ChildrenBelow(p, n);
      LoopExit(e, GainTest(p, n), RegionExit(p, b, Under(e, GainTest(p, n)), p.rank[n]))
    case Cycle(b) => CycleExit(p, n, e)
    case _ => Some(e)
  }

  function CycleExit(p: Program, n: nat, e: Exit): Option<Exit>
    requires WellFormed(p) && n < |p.g.nodes| && p.g.nodes[n].kind.Cycle?
    decreases p.rank[n], 1, |Members(p.g, p.g.nodes[n].kind.body)| + 2
  {
    CycleMembersBelow(p, n);
    var ms := Members(p.g, p.g.nodes[n].kind.body);
    var i := FirstBreak(p.g, ms);
    if i < |ms| then
      assert MemberBelow(p, ms[i], p.rank[n]);
      LoopExit(e, GainTest(p, ms[i]), MembersExit(p, ms, Under(e, GainTest(p, ms[i])), p.rank[n]))
    else
      var o := MembersExit(p, ms, e, p.rank[n]);
      if o.Some? && Enter(o.value) == Enter(e) then Some(Cut) else None
  }

  function RegionExit(p: Program, r: nat, e: Exit, bound: nat): Option<Exit>
    requires WellFormed(p) && RegionBelow(p, r, bound)
    decreases bound, 1, |Members(p.g, r)| + 1
  {
    MembersExit(p, Members(p.g, r), e, bound)
  }

  function MembersExit(p: Program, ms: seq<nat>, e: Exit, bound: nat): Option<Exit>
    requires WellFormed(p)
    requires forall k :: 0 <= k < |ms| ==> MemberBelow(p, ms[k], bound)
    decreases bound, 1, |ms|
  {
    if ms == [] then Some(e)
    else
      assert MemberBelow(p, ms[0], bound);
      var o := MemberExit(p, ms[0], e);
      if o.Some? then MembersExit(p, ms[1..], o.value, bound) else None
  }

  function MemberExit(p: Program, n: nat, e: Exit): Option<Exit>
    requires WellFormed(p) && n < |p.g.nodes|
    decreases p.rank[n], 3, 0
  {
    if Silent(p.g.nodes[n].kind) then Some(e) else StmtExit(p, n, e)
  }

  /** The statement's code has heights, whatever arrives at its end: only the last branch of all may disagree there. */
  predicate StmtInside(p: Program, n: nat, e: Exit)
    requires WellFormed(p) && n < |p.g.nodes|
    decreases p.rank[n], 2, 0
  {
    if p.g.nodes[n].kind.If? then
      ChildrenBelow(p, n);
      var inner := Under(e, GainTest(p, n));
      && GainTest(p, n).Some?
      && RegionExit(p, p.g.nodes[n].kind.thenRegion, inner, p.rank[n]).Some?
      && RegionInside(p, p.g.nodes[n].kind.elseRegion, inner, p.rank[n])
    else StmtExit(p, n, e).Some?
  }

  predicate RegionInside(p: Program, r: nat, e: Exit, bound: nat)
    requires WellFormed(p) && RegionBelow(p, r, bound)
    decreases bound, 1, |Members(p.g, r)| + 1
  {
    MembersInside(p, Members(p.g, r), e, bound)
  }

  predicate MembersInside(p: Program, ms: seq<nat>, e: Exit, bound: nat)
    requires WellFormed(p)
    requires forall k :: 0 <= k < |ms| ==> MemberBelow(p, ms[k], bound)
    decreases bound, 1, |ms|
  {
    ms == [] ||
    (assert MemberBelow(p, ms[0], bound);
     if AllSilent(p.g, ms[1..]) then Silent(p.g.nodes[ms[0]].kind) || StmtInside(p, ms[0], e)
     else MemberExit(p, ms[0], e).Some? && MembersInside(p, ms[1..], MemberExit(p, ms[0], e).value, bound))
  }

  // ----- The code of a statement -----

  /** What the code of a statement does with the heights. */
  ghost predicate Goes(code: seq<Instr>, e: Exit, o: Option<Exit>, inside: bool) {
    Yields(code, e, o) && Tails(code, e, inside)
  }

  lemma LeavesTails(code: seq<Instr>, e: Exit, g: Option<nat>, i: Instr)
    requires Leaves(code, e, g) && !IsJump(i) && i.PopCount() <= 1 && !e.Free? && 0 <= Enter(e)
    ensures var o := if g.None? then None else Some(if Falls(i) then Level(Post(i, Enter(e) + g.value)) else Cut);
            Goes(code + [i], e, o, g.Some?)
  {
    hide Yields; hide Closed; hide Tails; hide Runs; hide Instr.PopCount; hide Instr.PushCount;
    PlainClosed(i);
    var o := if g.None? then None else Some(if Falls(i) then Level(Post(i, Enter(e) + g.value)) else Cut);
    if g.Some? {
      OneYields(i, Level(Enter(e) + g.value));
    }
    ThenYields(code, [i], e, Raise(e, g), o);
    ThenTails(code, [i], e, Raise(e, g), true);
  }

  lemma {:induction false} ValueLeaves(p: Program, cx: Cx, st: Cst, n: nat, e: Exit)
    requires Steady(p) && n < |p.g.nodes| && !e.Free? && 0 <= Enter(e) && InputSource(p.g, n, "value") != INVALID
    requires !CSourceOf(p, cx, st, n).st.err
    ensures Leaves(CSourceOf(p, cx, st, n).code, e, GainValue(p, n))
  {
    hide CSource; hide Leaves; hide Ranked; hide NodesSupported; hide InputSource; hide Gain;
    RoleBelow(p, n, "value");
    RoleFed(p.g, n, "value");
    hide Indexed; hide ValuesFed;
    SourceYields(p, cx, st, n, InputSource(p.g, n, "value"), e);
  }

  lemma {:induction false} TestLeaves(p: Program, cx: Cx, st: Cst, n: nat, e: Exit)
    requires Steady(p) && n < |p.g.nodes| && !e.Free? && 0 <= Enter(e) && Connected(p.g, n, "cond")
    ensures RoleSource(p.g, n, "cond") == INVALID || p.rank[RoleSource(p.g, n, "cond")] < p.rank[n]
    ensures var c := CSource(p, cx, st, n, RoleSource(p.g, n, "cond"));
            !c.st.err ==> Leaves(c.code, e, GainTest(p, n)) && Closed(c.code) && 0 <= Under(e, GainTest(p, n)).h
  {
    hide CSource; hide Leaves; hide Ranked; hide NodesSupported; hide RoleSource; hide Gain; hide Closed;
    RoleBelow(p, n, "cond");
    RoleFed(p.g, n, "cond");
    hide Indexed; hide ValuesFed;
    var c := CSource(p, cx, st, n, RoleSource(p.g, n, "cond"));
    if !c.st.err {
      SourceYields(p, cx, st, n, RoleSource(p.g, n, "cond"), e);
      LeavesClosed(c.code, e, GainTest(p, n));
    }
  }

  /** Exits are never below zero. */
  lemma ExitsLow(code: seq<Instr>, e: Exit, o: Option<Exit>)
    requires Yields(code, e, o) && 0 <= Enter(e)
    ensures o.Some? ==> !o.value.Free? && 0 <= Enter(o.value)
  {
    hide Runs; hide Closed;
    if o.Some? {
      ExitLow(code, e, o.value);
    }
  }

  lemma {:induction false} StmtGoes(p: Program, cx: Cx, st: Cst, n: nat, e: Exit)
    requires Steady(p) && n < |p.g.nodes| && !Silent(p.g.nodes[n].kind) && !e.Free? && 0 <= Enter(e)
    requires !CNode(p, cx, st, n).st.err
    ensures CNode(p, cx, st, n).code != [] && Goes(CNode(p, cx, st, n).code, e, StmtExit(p, n, e), StmtInside(p, n, e))
    decreases p.rank[n], 4, 0
  {
    hide CLet; hide CAssign; hide CPrint; hide CReturn; hide CIf; hide CWhile; hide CCycle; hide Goes; hide Indexed; hide Ranked;
    hide ValuesFed; hide NodesSupported; hide GainValue; hide GainTest; hide RegionExit; hide CycleExit; hide RegionInside;
    hide InputSource; hide Raise; hide Under; hide FindPort; hide RoleSource;
    var k := p.g.nodes[n].kind;
    if k.Let? {
      LetGoes(p, cx, st, n, k.name, e);
    } else if k.Assign? {
      AssignGoes(p, cx, st, n, k.name, e);
    } else if k.Print? {
      PrintGoes(p, cx, st, n, e);
    } else if k.ReturnNode? {
      ReturnGoes(p, cx, st, n, e);
    } else if k.If? {
      IfGoes(p, cx, st, n, e);
    } else if k.While? {
      WhileGoes(p, cx, st, n, e);
    } else if k.Cycle? {
      CycleGoes(p, cx, st, n, e);
    }
  }

  lemma {:induction false} LetGoes(p: Program, cx: Cx, st: Cst, n: nat, name: string, e: Exit)
    requires Steady(p) && n < |p.g.nodes| && p.g.nodes[n].kind.Let? && !e.Free? && 0 <= Enter(e) && !CLet(p, cx, st, n, name).st.err
    ensures CLet(p, cx, st, n, name).code != [] && Goes(CLet(p, cx, st, n, name).code, e, StmtExit(p, n, e), StmtInside(p, n, e))
  {
    hide CSource; hide Leaves; hide Ranked; hide InputSource; hide EmitOp; hide Indexed; hide ValuesFed; hide Goes; hide GainValue;
    assert NodeSupported(p, n);
    var v := CSourceOf(p, cx, st, n);
    var i := StoreLocal(|v.st.locals|);
    SameErr(v.st.(locals := v.st.locals + [name]), i);
    ValueLeaves(p, cx, st, n, e);
    LeavesTails(v.code, e, GainValue(p, n), i);
  }

  lemma {:induction false} AssignGoes(p: Program, cx: Cx, st: Cst, n: nat, name: string, e: Exit)
    requires Steady(p) && n < |p.g.nodes| && p.g.nodes[n].kind.Assign? && !e.Free? && 0 <= Enter(e) && !CAssign(p, cx, st, n, name).st.err
    ensures CAssign(p, cx, st, n, name).code != [] && Goes(CAssign(p, cx, st, n, name).code, e, StmtExit(p, n, e), StmtInside(p, n, e))
  {
    hide CSource; hide Leaves; hide Ranked; hide InputSource; hide EmitOp; hide Indexed; hide ValuesFed; hide Goes; hide GainValue;
    assert NodeSupported(p, n);
    var v := CSourceOf(p, cx, st, n);
    var s := FindLocal(v.st.locals, name);
    var i := StoreLocal(if s < 0 then 0 else s);
    SameErr(v.st, i);
    ValueLeaves(p, cx, st, n, e);
    LeavesTails(v.code, e, GainValue(p, n), i);
  }

  lemma {:induction false} PrintGoes(p: Program, cx: Cx, st: Cst, n: nat, e: Exit)
    requires Steady(p) && n < |p.g.nodes| && p.g.nodes[n].kind.Print? && !e.Free? && 0 <= Enter(e) && !CPrint(p, cx, st, n).st.err
    ensures CPrint(p, cx, st, n).code != [] && Goes(CPrint(p, cx, st, n).code, e, StmtExit(p, n, e), StmtInside(p, n, e))
  {
    hide CSource; hide Leaves; hide Ranked; hide InputSource; hide Indexed; hide ValuesFed; hide Goes; hide GainValue;
    assert NodeSupported(p, n);
    var v := CSourceOf(p, cx, st, n);
    ValueLeaves(p, cx, st, n, e);
    LeavesTails(v.code, e, GainValue(p, n), Intrinsic(INTRINSIC_PRINT, 1));
  }

  lemma {:induction false} ReturnGoes(p: Program, cx: Cx, st: Cst, n: nat, e: Exit)
    requires Steady(p) && n < |p.g.nodes| && p.g.nodes[n].kind.ReturnNode? && !e.Free? && 0 <= Enter(e) && !CReturn(p, cx, st, n).st.err
    ensures CReturn(p, cx, st, n).code != [] && Goes(CReturn(p, cx, st, n).code, e, StmtExit(p, n, e), StmtInside(p, n, e))
  {
    hide CSource; hide Leaves; hide Ranked; hide InputSource; hide FindPort; hide EmitOp; hide Indexed; hide ValuesFed; hide Goes; hide GainValue;
    assert NodeSupported(p, n);
    if FindPort(p.g, n, "value") != INVALID {
      var v := CSourceOf(p, cx, st, n);
      SameErr(v.st, Return);
      ValueLeaves(p, cx, st, n, e);
      LeavesTails(v.code, e, GainValue(p, n), Return);
    } else {
      ConstLeaves(st, NullConst, e);
      LeavesTails(EmitConst(st, NullConst).code, e, Some(1), Return);
    }
  }

  lemma {:induction false} IfGoes(p: Program, cx: Cx, st: Cst, n: nat, e: Exit)
    requires Steady(p) && n < |p.g.nodes| && p.g.nodes[n].kind.If? && !e.Free? && 0 <= Enter(e) && !CIf(p, cx, st, n).st.err
    ensures CIf(p, cx, st, n).code != [] && Goes(CIf(p, cx, st, n).code, e, StmtExit(p, n, e), StmtInside(p, n, e))
    decreases p.rank[n], 2, 0
  {
    hide CSource; hide CRegion; hide Goes; hide Ranked; hide RoleSource; hide EmitOp; hide Indexed; hide ValuesFed;
    hide CIf; hide NoOutputIn; hide RegionBelow; hide Leaves; hide Closed; hide RegionInside; hide GainTest; hide Under;
    assert NodeSupported(p, n);
    ChildrenBelow(p, n);
    TestLeaves(p, cx, st, n, e);
    var c := CSource(p, cx, st, n, RoleSource(p.g, n, "cond"));
    var s1 := EmitOp(c.st, JumpIfFalse(0));
    var t := CRegion(p, cx, s1, p.g.nodes[n].kind.thenRegion, p.rank[n]);
    var s2 := EmitOp(t.st, Jump(0));
    var f := CRegion(p, cx, s2, p.g.nodes[n].kind.elseRegion, p.rank[n]);
    IfShape(p, cx, st, n, c, t, f);
    SameErr(c.st, JumpIfFalse(0));
    SameErr(t.st, Jump(0));
    var g := GainTest(p, n);
    var inner := Under(e, g);
    RegionGoes(p, cx, s1, p.g.nodes[n].kind.thenRegion, inner, p.rank[n]);
    RegionGoes(p, cx, s2, p.g.nodes[n].kind.elseRegion, inner, p.rank[n]);
    IfCode(c.code, t.code, f.code, e, g, RegionExit(p, p.g.nodes[n].kind.thenRegion, inner, p.rank[n]),
           RegionExit(p, p.g.nodes[n].kind.elseRegion, inner, p.rank[n]),
           RegionInside(p, p.g.nodes[n].kind.thenRegion, inner, p.rank[n]),
           RegionInside(p, p.g.nodes[n].kind.elseRegion, inner, p.rank[n]));
  }

  lemma GoesClosed(code: seq<Instr>, e: Exit, o: Option<Exit>, b: bool)
    requires Goes(code, e, o, b)
    ensures Closed(code)
  {
  }

  lemma {:induction false} IfCode(c: seq<Instr>, t: seq<Instr>, f: seq<Instr>, e: Exit, g: Option<nat>,
                                  ot: Option<Exit>, oe: Option<Exit>, it: bool, ie: bool)
    requires !e.Free? && 0 <= Enter(e) && Leaves(c, e, g) && Goes(t, Under(e, g), ot, it) && Goes(f, Under(e, g), oe, ie)
    ensures Goes(c + [JumpIfFalse(Size(t) + 5)] + t + [Jump(Size(f))] + f, e,
                 if g.None? then None else BranchExit(ot, oe), g.Some? && ot.Some? && ie)
  {
    hide Yields; hide Tails; hide Runs; hide Closed; hide Size; hide BranchExit;
    GoesClosed(t, Under(e, g), ot, it);
    GoesClosed(f, Under(e, g), oe, ie);
    var rest := BranchCode(t, f);
    BranchClosed(t, f);
    if g.Some? {
      BranchYields(t, f, Enter(e) + g.value, ot, oe, ie);
    }
    ThenYields(c, rest, e, Raise(e, g), BranchExit(ot, oe));
    ThenTails(c, rest, e, Raise(e, g), ot.Some? && ie);
    assert c + rest == c + [JumpIfFalse(Size(t) + 5)] + t + [Jump(Size(f))] + f;
  }

  lemma {:induction false} WhileGoes(p: Program, cx: Cx, st: Cst, n: nat, e: Exit)
    requires Steady(p) && n < |p.g.nodes| && p.g.nodes[n].kind.While? && !e.Free? && 0 <= Enter(e) && !CWhile(p, cx, st, n).st.err
    ensures CWhile(p, cx, st, n).code != [] && Goes(CWhile(p, cx, st, n).code, e, StmtExit(p, n, e), StmtInside(p, n, e))
    decreases p.rank[n], 2, 0
  {
    hide CSource; hide CRegion; hide Goes; hide Ranked; hide RoleSource; hide EmitOp; hide Indexed; hide ValuesFed;
    hide CWhile; hide NoOutputIn; hide RegionBelow; hide Leaves; hide Closed; hide GainTest; hide Under; hide RegionInside;
    assert NodeSupported(p, n);
    ChildrenBelow(p, n);
    TestLeaves(p, cx, st, n, e);
    var c := CSource(p, cx, st, n, RoleSource(p.g, n, "cond"));
    var s1 := EmitOp(c.st, JumpIfFalse(0));
    var b := CRegion(p, cx, s1, p.g.nodes[n].kind.body, p.rank[n]);
    WhileShape(p, cx, st, n, c, b);
    SameErr(c.st, JumpIfFalse(0));
    SameErr(b.st, Jump(-(Size(c.code) + Size(b.code) + 10)));
    var inner := Under(e, GainTest(p, n));
    RegionGoes(p, cx, s1, p.g.nodes[n].kind.body, inner, p.rank[n]);
    LoopGoes(c.code, JumpIfFalse(Size(b.code) + 5), b.code, e, GainTest(p, n), RegionExit(p, p.g.nodes[n].kind.body, inner, p.rank[n]),
             RegionInside(p, p.g.nodes[n].kind.body, inner, p.rank[n]));
  }

  lemma {:induction false} LoopGoes(c: seq<Instr>, exit: Instr, b: seq<Instr>, e: Exit, g: Option<nat>, ob: Option<Exit>, ib: bool)
    requires !e.Free? && 0 <= Enter(e) && Leaves(c, e, g) && Goes(b, Under(e, g), ob, ib) && IsExit(exit) && exit.offset == Size(b) + 5
    ensures Goes(c + [exit] + b + [Jump(-(Size(c) + Size(b) + 10))], e, LoopExit(e, g, ob), LoopExit(e, g, ob).Some?)
  {
    hide Yields; hide Tails; hide Runs; hide Closed; hide Size;
    GoesClosed(b, Under(e, g), ob, ib);
    LoopYields(c, exit, b, e, Raise(e, g), ob);
  }

  lemma {:induction false} CycleGoes(p: Program, cx: Cx, st: Cst, n: nat, e: Exit)
    requires Steady(p) && n < |p.g.nodes| && p.g.nodes[n].kind.Cycle? && !e.Free? && 0 <= Enter(e) && !CCycle(p, cx, st, n).st.err
    ensures CCycle(p, cx, st, n).code != [] && Goes(CCycle(p, cx, st, n).code, e, StmtExit(p, n, e), StmtInside(p, n, e))
    decreases p.rank[n], 2, 0
  {
    hide CSource; hide CMembers; hide Goes; hide Ranked; hide RoleSource; hide EmitOp; hide Indexed; hide ValuesFed;
    hide CCycle; hide NoOutputIn; hide CycleSupported; hide Leaves; hide Closed; hide GainTest; hide Under; hide RegionInside;
    hide LoopExit; hide MembersExit; hide MembersInside;
    CycleMembersBelow(p, n);
    var ms := Members(p.g, p.g.nodes[n].kind.body);
    assert NodeSupported(p, n);
    NoOutputs(p, p.g.nodes[n].kind.body, p.rank[n]);
    var i := FirstBreak(p.g, ms);
    if i < |ms| {
      assert MemberBelow(p, ms[i], p.rank[n]);
      assert NodeSupported(p, ms[i]);
      TestLeaves(p, cx, st, ms[i], e);
      var c := CSource(p, cx, st, ms[i], RoleSource(p.g, ms[i], "cond"));
      var s1 := EmitOp(c.st, JumpIfTrue(0));
      var b := CMembers(p, cx, s1, ms, p.rank[n]);
      BreakCycleShape(p, cx, st, n, i, c, b);
      SameErr(c.st, JumpIfTrue(0));
      SameErr(b.st, Jump(-(Size(c.code) + Size(b.code) + 10)));
      var inner := Under(e, GainTest(p, ms[i]));
      MembersGo(p, cx, s1, ms, inner, p.rank[n]);
      LoopGoes(c.code, JumpIfTrue(Size(b.code) + 5), b.code, e, GainTest(p, ms[i]), MembersExit(p, ms, inner, p.rank[n]),
               MembersInside(p, ms, inner, p.rank[n]));
    } else {
      var b := CMembers(p, cx, st, ms, p.rank[n]);
      EndlessCycleShape(p, cx, st, n, b);
      SameErr(b.st, Jump(-(Size(b.code) + 5)));
      MembersGo(p, cx, st, ms, e, p.rank[n]);
      EndlessGoes(b.code, e, MembersExit(p, ms, e, p.rank[n]), MembersInside(p, ms, e, p.rank[n]));
    }
  }

  lemma {:induction false} EndlessGoes(b: seq<Instr>, e: Exit, ob: Option<Exit>, ib: bool)
    requires !e.Free? && 0 <= Enter(e) && Goes(b, e, ob, ib)
    ensures var ok := ob.Some? && Enter(ob.value) == Enter(e);
            Goes(b + [Jump(-(Size(b) + 5))], e, if ok then Some(Cut) else None, ok)
  {
    hide Yields; hide Tails; hide Runs; hide Closed; hide Size;
    EndlessYields(b, e, ob);
  }

  lemma NoOutputs(p: Program, r: nat, bound: nat)
    requires WellFormed(p) && NoOutputIn(p.g, r) && forall k :: 0 <= k < |Members(p.g, r)| ==> MemberBelow(p, Members(p.g, r)[k], bound)
    ensures forall k :: 0 <= k < |Members(p.g, r)| ==>
              MemberBelow(p, Members(p.g, r)[k], bound) && !p.g.nodes[Members(p.g, r)[k]].kind.RootOutput?
  {
  }

  lemma {:induction false} RegionGoes(p: Program, cx: Cx, st: Cst, r: nat, e: Exit, bound: nat)
    requires Steady(p) && RegionBelow(p, r, bound) && NoOutputIn(p.g, r) && !e.Free? && 0 <= Enter(e)
    requires !CRegion(p, cx, st, r, bound).st.err
    ensures Goes(CRegion(p, cx, st, r, bound).code, e, RegionExit(p, r, e, bound), RegionInside(p, r, e, bound))
    decreases bound, 1, |Members(p.g, r)| + 1
  {
    hide CMembers; hide Goes; hide Ranked; hide ValuesFed; hide NodesSupported;
    NoOutputs(p, r, bound);
    if r == INVALID {
      NothingGoes(e);
    } else {
      hide MembersExit; hide MembersInside;
      MembersGo(p, cx, st, Members(p.g, r), e, bound);
    }
  }

  lemma NothingGoes(e: Exit)
    requires !e.Free?
    ensures Goes([], e, Some(e), true)
  {
    YieldsNothing(e);
  }

  /** A member, then the rest. */
  lemma {:induction false} GoesThen(a: seq<Instr>, b: seq<Instr>, e: Exit, oa: Option<Exit>, ia: bool, ob: Option<Exit>, ib: bool)
    requires !e.Free? && Goes(a, e, oa, ia) && Closed(b) && (oa.Some? ==> Goes(b, oa.value, ob, ib))
    ensures Goes(a + b, e, if oa.Some? then ob else None, if b == [] then ia else oa.Some? && ib)
  {
    hide Yields; hide Tails; hide Runs;
    GoesClosed(a, e, oa, ia);
    hide Closed;
    ThenYields(a, b, e, oa, ob);
    if b == [] {
      assert a + b == a;
    } else {
      ThenTails(a, b, e, oa, ib);
    }
  }

  lemma {:induction false} MembersGo(p: Program, cx: Cx, st: Cst, ms: seq<nat>, e: Exit, bound: nat)
    requires Steady(p) && !e.Free? && 0 <= Enter(e)
    requires forall k :: 0 <= k < |ms| ==> MemberBelow(p, ms[k], bound) && !p.g.nodes[ms[k]].kind.RootOutput?
    requires !CMembers(p, cx, st, ms, bound).st.err
    ensures CMembers(p, cx, st, ms, bound).code == [] <==> AllSilent(p.g, ms)
    ensures Goes(CMembers(p, cx, st, ms, bound).code, e, MembersExit(p, ms, e, bound), MembersInside(p, ms, e, bound))
    decreases bound, 1, |ms|
  {
    hide CNode; hide Goes; hide Indexed; hide Ranked; hide ValuesFed; hide NodesSupported; hide CMembers; hide StmtExit; hide StmtInside;
    hide MemberExit; hide Closed;
    if ms == [] {
      NoMembers(p, cx, st, bound);
      NothingGoes(e);
    } else {
      assert ms[0..] == ms;
      MembersShape(p, cx, st, ms, 0, bound);
      var k := p.g.nodes[ms[0]].kind;
      var m := if k.Param? || IsExprNode(k) then Out([], st) else CNode(p, cx, st, ms[0]);
      var rest := CMembers(p, cx, m.st, ms[1..], bound);
      MemberGoes(p, cx, st, ms[0], m, e);
      var o := MemberExit(p, ms[0], e);
      var mid := if o.Some? then o.value else Level(0);
      MembersGo(p, cx, m.st, ms[1..], mid, bound);
      var oe, ie := MembersExit(p, ms[1..], mid, bound), MembersInside(p, ms[1..], mid, bound);
      GoesClosed(rest.code, mid, oe, ie);
      GoesThen(m.code, rest.code, e, o, Silent(k) || StmtInside(p, ms[0], e), oe, ie);
      SilentCons(p.g, ms);
    }
  }

  lemma SilentCons(g: Graph, ms: seq<nat>)
    requires ms != [] && forall k :: 0 <= k < |ms| ==> ms[k] < |g.nodes|
    ensures AllSilent(g, ms) <==> Silent(g.nodes[ms[0]].kind) && AllSilent(g, ms[1..])
  {
    if Silent(g.nodes[ms[0]].kind) && AllSilent(g, ms[1..]) {
      forall k | 0 <= k < |ms| ensures Silent(g.nodes[ms[k]].kind) {
        if k > 0 {
          assert ms[1..][k - 1] == ms[k];
        }
      }
    }
  }

  /** One member of a list. */
  lemma {:induction false} MemberGoes(p: Program, cx: Cx, st: Cst, n: nat, m: Out, e: Exit)
    requires Steady(p) && n < |p.g.nodes| && !e.Free? && 0 <= Enter(e) && !m.st.err
    requires var k := p.g.nodes[n].kind;
             if k.Param? || IsExprNode(k) || k.RootOutput? then m.code == []
             else m == CNode(p, cx, st, n)
    ensures m.code == [] <==> Silent(p.g.nodes[n].kind)
    ensures Goes(m.code, e, MemberExit(p, n, e), Silent(p.g.nodes[n].kind) || StmtInside(p, n, e))
    ensures MemberExit(p, n, e).Some? ==> !MemberExit(p, n, e).value.Free? && 0 <= Enter(MemberExit(p, n, e).value)
    decreases p.rank[n], 5, 0
  {
    hide Goes; hide Indexed; hide Ranked; hide ValuesFed; hide NodesSupported; hide StmtExit; hide StmtInside; hide Yields;
    var k := p.g.nodes[n].kind;
    if Silent(k) {
      SilentEmpty(p, cx, st, n, m);
      NothingGoes(e);
    } else {
      StmtGoes(p, cx, st, n, e);
      GoesLow(m.code, e, StmtExit(p, n, e), StmtInside(p, n, e));
    }
  }

  lemma SilentEmpty(p: Program, cx: Cx, st: Cst, n: nat, m: Out)
    requires WellFormed(p) && n < |p.g.nodes| && Silent(p.g.nodes[n].kind) && !m.st.err
    requires var k := p.g.nodes[n].kind;
             if k.Param? || IsExprNode(k) || k.RootOutput? then m.code == [] else m == CNode(p, cx, st, n)
    ensures m.code == []
  {
  }

  lemma GoesLow(code: seq<Instr>, e: Exit, o: Option<Exit>, b: bool)
    requires Goes(code, e, o, b) && 0 <= Enter(e)
    ensures o.Some? ==> !o.value.Free? && 0 <= Enter(o.value)
  {
    ExitsLow(code, e, o);
  }
}
