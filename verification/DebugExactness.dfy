/**
 Exactly when the debug table names the right functions. Functions with one name share
 a record, so an entry of all but the last of them is misnamed; the table is right if
 and only if those add no entries, which can be read off the graph.
 */
module DebugExactness {
  import opened Values
  import opened Bytecode
  import opened SemanticGraph
  import opened CodeGen
  import opened Support
  import opened Linking
  import opened DebugRanges

  // ----- What adds an entry -----

  /** Compiling the node emits code. */
  predicate Emits(p: Program, n: nat)
    requires WellFormed(p) && n < |p.g.nodes|
    decreases p.rank[n]
  {
    match p.g.nodes[n].kind
    case RootOutput =>
      RoleBelow(p, n, "value");
      InputSource(p.g, n, "value") != INVALID && Emits(p, InputSource(p.g, n, "value"))
    case BreakIf => false
    case Sequence => false
    case Param(_) => false
    case _ => true
  }

  /** The node emits code and has a source element, or something it pulls in does. */
  predicate Adds(p: Program, n: nat)
    requires WellFormed(p) && n < |p.g.nodes|
    decreases p.rank[n], 3
  {
    (p.g.nodes[n].source != 0 && Emits(p, n)) || AddsInside(p, n)
  }

  predicate AddsInside(p: Program, n: nat)
    requires WellFormed(p) && n < |p.g.nodes|
    decreases p.rank[n], 2
  {
    RoleBelow(p, n, "value");
    match p.g.nodes[n].kind
    case BinaryNode(op) => AddsBinary(p, n, op)
    case UnaryNode(op) =>
      var s := InputSource(p.g, n, "value");
      s != INVALID && TryFoldUnary(p.g, s, op).None? && Adds(p, s)
    case And => AddsRole(p, n, "lhs") || AddsRole(p, n, "rhs")
    case Or => AddsRole(p, n, "lhs") || AddsRole(p, n, "rhs")
    case FuncCall(_) =>
      ArgsBelow(p, n);
      AddsPorts(p, n, ArgPorts(p.g, n))
    case Let(_) => AddsValue(p, n)
    case Assign(_) => AddsValue(p, n)
    case Print => AddsValue(p, n)
    case RootOutput => AddsValue(p, n)
    case ReturnNode => FindPort(p.g, n, "value") != INVALID && AddsValue(p, n)
    case If(t, e) =>
      ChildrenBelow(p, n);
      AddsRole(p, n, "cond") || AddsRegion(p, t, p.rank[n]) || AddsRegion(p, e, p.rank[n])
    case While(b) =>
      ChildrenBelow(p, n);
      AddsRole(p, n, "cond") || AddsRegion(p, b, p.rank[n])
    case Cycle(b) => AddsCycle(p, n)
    case _ => false
  }

  predicate AddsRole(p: Program, n: nat, role: string)
    requires WellFormed(p) && n < |p.g.nodes|
    decreases p.rank[n], 0
  {
    RoleBelow(p, n, role);
    RoleSource(p.g, n, role) != INVALID && Adds(p, RoleSource(p.g, n, role))
  }

  predicate AddsValue(p: Program, n: nat)
    requires WellFormed(p) && n < |p.g.nodes|
    decreases p.rank[n], 0
  {
    RoleBelow(p, n, "value");
    InputSource(p.g, n, "value") != INVALID && Adds(p, InputSource(p.g, n, "value"))
  }

  /** Folded operands are not compiled. */
  predicate AddsBinary(p: Program, n: nat, op: BinOp)
    requires WellFormed(p) && n < |p.g.nodes|
    decreases p.rank[n], 1
  {
    OperandBelow(p, n, 0);
    OperandBelow(p, n, 1);
    var l, r := CompilerOperand(p.g, n, 0), CompilerOperand(p.g, n, 1);
    l != INVALID && r != INVALID && TryFoldBinary(p.g, l, r, op).None? && (Adds(p, l) || Adds(p, r))
  }

  predicate AddsPorts(p: Program, n: nat, ports: seq<nat>)
    requires WellFormed(p) && n < |p.g.nodes|
    requires forall k :: 0 <= k < |ports| ==> SourceBelow(p, n, ports[k])
    decreases p.rank[n], 1, |ports|
  {
    ports != [] &&
    (assert SourceBelow(p, n, ports[0]);
     (FindSource(p.g, ports[0]) != INVALID && Adds(p, FindSource(p.g, ports[0]))) || AddsPorts(p, n, ports[1..]))
  }

  predicate AddsRegion(p: Program, r: nat, bound: nat)
    requires WellFormed(p) && RegionBelow(p, r, bound)
    decreases bound, 1, |Members(p.g, r)| + 1
  {
    AddsMembers(p, Members(p.g, r), bound)
  }

  /** The compiled members of a list. */
  predicate AddsMembers(p: Program, ms: seq<nat>, bound: nat)
    requires WellFormed(p)
    requires forall k :: 0 <= k < |ms| ==> MemberBelow(p, ms[k], bound)
    decreases bound, 1, |ms|
  {
    ms != [] &&
    (assert MemberBelow(p, ms[0], bound);
     var k := p.g.nodes[ms[0]].kind;
     (!k.Param? && !IsExprNode(k) && Adds(p, ms[0])) || AddsMembers(p, ms[1..], bound))
  }

  predicate AddsCycle(p: Program, n: nat)
    requires WellFormed(p) && n < |p.g.nodes| && p.g.nodes[n].kind.Cycle?
    decreases p.rank[n], 1
  {
    CycleMembersBelow(p, n);
    var ms := Members(p.g, p.g.nodes[n].kind.body);
    var i := FirstBreak(p.g, ms);
    (i < |ms| && (assert MemberBelow(p, ms[i], p.rank[n]); AddsRole(p, ms[i], "cond"))) || AddsMembers(p, ms, p.rank[n])
  }

  // ----- It does -----

  /** Entries are only added, and some are exactly if `b`. */
  predicate AddsIff(st: Cst, next: Cst, b: bool) {
    |st.debug| <= |next.debug| && (|st.debug| < |next.debug| <==> b)
  }

  lemma {:induction false} KindEmits(p: Program, cx: Cx, st: Cst, n: nat)
    requires WellFormed(p) && n < |p.g.nodes| && !CKind(p, cx, st, n).st.err
    ensures CKind(p, cx, st, n).st.len > st.len <==> Emits(p, n)
    decreases p.rank[n], 0
  {
    hide CNode; hide Ranked; hide Indexed; hide CRegion; hide CMembers; hide CArgs; hide EmitConst; hide InputSource; hide RoleSource;
    var o := CKind(p, cx, st, n);
    if p.g.nodes[n].kind.RootOutput? {
      RoleBelow(p, n, "value");
      var s := InputSource(p.g, n, "value");
      if s != INVALID {
        NodeEmits(p, cx, st, s);
      }
    } else if Emits(p, n) {
      hide CSource; hide Size;
      CodeEmitted(p, cx, st, n);
      SomeSize(o.code);
    }
  }

  lemma SomeSize(code: seq<Instr>)
    ensures code != [] ==> Size(code) > 0
  {
  }

  lemma {:induction false} NodeEmits(p: Program, cx: Cx, st: Cst, n: nat)
    requires WellFormed(p) && n < |p.g.nodes| && !CNode(p, cx, st, n).st.err
    ensures CNode(p, cx, st, n).st.len > st.len <==> Emits(p, n)
    decreases p.rank[n], 1
  {
    hide CKind; hide Emits;
    KindEmits(p, cx, st, n);
  }

  lemma CodeEmitted(p: Program, cx: Cx, st: Cst, n: nat)
    requires WellFormed(p) && n < |p.g.nodes| && !CKind(p, cx, st, n).st.err && !p.g.nodes[n].kind.RootOutput? && Emits(p, n)
    ensures CKind(p, cx, st, n).code != []
  {
    hide CNode; hide Ranked; hide Indexed; hide CRegion; hide CMembers; hide CArgs; hide CSource; hide Size; hide InputSource; hide RoleSource;
    if p.g.nodes[n].kind.Cycle? {
      CycleMembersBelow(p, n);
      var ms, b := Members(p.g, p.g.nodes[n].kind.body), p.rank[n];
      var i := FirstBreak(p.g, ms);
      assert CCycle(p, cx, st, n) == if i < |ms| then CBreakCycle(p, cx, st, ms, ms[i], b) else CEndlessCycle(p, cx, st, ms, b);
    }
  }

  lemma {:induction false} NodeAdds(p: Program, cx: Cx, st: Cst, n: nat)
    requires WellFormed(p) && n < |p.g.nodes| && !CNode(p, cx, st, n).st.err
    ensures AddsIff(st, CNode(p, cx, st, n).st, Adds(p, n))
    decreases p.rank[n], 3
  {
    hide CKind; hide AddsInside; hide Emits;
    KindEmits(p, cx, st, n);
    KindAdds(p, cx, st, n);
  }

  lemma {:induction false} KindAdds(p: Program, cx: Cx, st: Cst, n: nat)
    requires WellFormed(p) && n < |p.g.nodes| && !CKind(p, cx, st, n).st.err
    ensures AddsIff(st, CKind(p, cx, st, n).st, AddsInside(p, n))
    decreases p.rank[n], 2
  {
    hide CBinary; hide CUnary; hide CShortCircuit; hide CCall; hide CLet; hide CAssign; hide CPrint; hide CReturn; hide CIf; hide CWhile;
    hide CCycle; hide Ranked; hide Indexed; hide InputSource; hide RoleSource; hide AddsBinary; hide AddsCycle; hide AddsRole; hide AddsPorts;
    hide Adds; hide AddsRegion; hide AddsValue; hide CNode;
    var k := p.g.nodes[n].kind;
    if k.BinaryNode? {
      BinaryAdds(p, cx, st, n, k.bop);
    } else if k.UnaryNode? {
      UnaryAdds(p, cx, st, n, k.uop);
    } else if k.And? || k.Or? {
      ShortCircuitAdds(p, cx, st, n, k.Or?);
    } else if k.FuncCall? {
      CallAdds(p, cx, st, n, k.name);
    } else if k.Let? || k.Assign? || k.Print? || k.ReturnNode? {
      ValueAdds(p, cx, st, n);
    } else if k.RootOutput? {
      SourceAdds(p, cx, st, n, "value");
    } else if k.If? {
      IfAdds(p, cx, st, n);
    } else if k.While? {
      WhileAdds(p, cx, st, n);
    } else if k.Cycle? {
      CycleAdds(p, cx, st, n);
    }
  }

  /** What a connected input adds. */
  lemma {:induction false} SourceAdds(p: Program, cx: Cx, st: Cst, n: nat, role: string)
    requires WellFormed(p) && n < |p.g.nodes|
    ensures var s := InputSource(p.g, n, role);
            (s == INVALID || p.rank[s] < p.rank[n]) &&
            (!CSource(p, cx, st, n, s).st.err ==> AddsIff(st, CSource(p, cx, st, n, s).st, s != INVALID && Adds(p, s)))
    ensures var s := RoleSource(p.g, n, role);
            (s == INVALID || p.rank[s] < p.rank[n]) &&
            (!CSource(p, cx, st, n, s).st.err ==> AddsIff(st, CSource(p, cx, st, n, s).st, AddsRole(p, n, role)))
    ensures role == "value" ==> AddsValue(p, n) == (InputSource(p.g, n, role) != INVALID && Adds(p, InputSource(p.g, n, role)))
    decreases p.rank[n], 0
  {
    hide CNode; hide Adds; hide Ranked; hide Indexed; hide InputSource; hide RoleSource;
    RoleBelow(p, n, role);
    var s, q := InputSource(p.g, n, role), RoleSource(p.g, n, role);
    if s != INVALID && !CNode(p, cx, st, s).st.err {
      NodeAdds(p, cx, st, s);
    }
    if q != INVALID && !CNode(p, cx, st, q).st.err {
      NodeAdds(p, cx, st, q);
    }
  }

  lemma {:induction false} BinaryAdds(p: Program, cx: Cx, st: Cst, n: nat, op: BinOp)
    requires WellFormed(p) && n < |p.g.nodes| && !CBinary(p, cx, st, n, op).st.err
    ensures AddsIff(st, CBinary(p, cx, st, n, op).st, AddsBinary(p, n, op))
    decreases p.rank[n], 1
  {
    hide CNode; hide Adds; hide Ranked; hide Indexed; hide CompilerOperand; hide TryFoldBinary; hide Size;
    OperandBelow(p, n, 0);
    OperandBelow(p, n, 1);
    var ls, rs := CompilerOperand(p.g, n, 0), CompilerOperand(p.g, n, 1);
    if ls != INVALID && rs != INVALID && TryFoldBinary(p.g, ls, rs, op).None? {
      var l := CSource(p, cx, st, n, ls);
      NodeAdds(p, cx, st, ls);
      NodeAdds(p, cx, l.st, rs);
    }
  }

  lemma {:induction false} UnaryAdds(p: Program, cx: Cx, st: Cst, n: nat, op: UnOp)
    requires WellFormed(p) && n < |p.g.nodes| && p.g.nodes[n].kind == UnaryNode(op) && !CUnary(p, cx, st, n, op).st.err
    ensures AddsIff(st, CUnary(p, cx, st, n, op).st, AddsInside(p, n))
    decreases p.rank[n], 1
  {
    hide CNode; hide Adds; hide Ranked; hide Indexed; hide InputSource; hide TryFoldUnary; hide Size;
    RoleBelow(p, n, "value");
    var s := InputSource(p.g, n, "value");
    if s != INVALID && TryFoldUnary(p.g, s, op).None? {
      NodeAdds(p, cx, st, s);
    }
  }

  lemma {:induction false} ShortCircuitAdds(p: Program, cx: Cx, st: Cst, n: nat, isOr: bool)
    requires WellFormed(p) && n < |p.g.nodes| && !CShortCircuit(p, cx, st, n, isOr).st.err
    ensures AddsIff(st, CShortCircuit(p, cx, st, n, isOr).st, AddsRole(p, n, "lhs") || AddsRole(p, n, "rhs"))
    decreases p.rank[n], 1
  {
    hide CSource; hide AddsRole; hide Ranked; hide Indexed; hide RoleSource; hide Size;
    SourceAdds(p, cx, st, n, "lhs");
    var l := CSource(p, cx, st, n, RoleSource(p.g, n, "lhs"));
    SourceAdds(p, cx, AfterTest(l.st, isOr), n, "rhs");
  }

  lemma {:induction false} CallAdds(p: Program, cx: Cx, st: Cst, n: nat, name: string)
    requires WellFormed(p) && n < |p.g.nodes| && !CCall(p, cx, st, n, name).st.err
    ensures forall k :: 0 <= k < |ArgPorts(p.g, n)| ==> SourceBelow(p, n, ArgPorts(p.g, n)[k])
    ensures AddsIff(st, CCall(p, cx, st, n, name).st, AddsPorts(p, n, ArgPorts(p.g, n)))
    decreases p.rank[n], 1, |ArgPorts(p.g, n)| + 1
  {
    hide CArgs; hide AddsPorts; hide Ranked; hide Indexed; hide Size;
    ArgsBelow(p, n);
    ArgsAdd(p, cx, st, n, ArgPorts(p.g, n));
  }

  lemma {:induction false} ArgsAdd(p: Program, cx: Cx, st: Cst, n: nat, ports: seq<nat>)
    requires WellFormed(p) && n < |p.g.nodes|
    requires forall k :: 0 <= k < |ports| ==> SourceBelow(p, n, ports[k])
    ensures !CArgs(p, cx, st, n, ports).st.err ==> AddsIff(st, CArgs(p, cx, st, n, ports).st, AddsPorts(p, n, ports))
    decreases p.rank[n], 1, |ports|
  {
    hide CNode; hide Adds; hide Ranked; hide Indexed; hide Size;
    if ports != [] && !CArgs(p, cx, st, n, ports).st.err {
      assert SourceBelow(p, n, ports[0]);
      var s := FindSource(p.g, ports[0]);
      var v := if s == INVALID then Out([], st) else CNode(p, cx, st, s);
      ArgsAdd(p, cx, v.st, n, ports[1..]);
      if s != INVALID {
        NodeAdds(p, cx, st, s);
      }
    }
  }

  /** The statements that compile one value and emit one instruction. */
  lemma {:induction false} ValueAdds(p: Program, cx: Cx, st: Cst, n: nat)
    requires WellFormed(p) && n < |p.g.nodes|
    ensures !CPrint(p, cx, st, n).st.err ==> AddsIff(st, CPrint(p, cx, st, n).st, AddsValue(p, n))
    ensures !CReturn(p, cx, st, n).st.err ==>
              AddsIff(st, CReturn(p, cx, st, n).st, FindPort(p.g, n, "value") != INVALID && AddsValue(p, n))
    ensures forall name :: !CLet(p, cx, st, n, name).st.err ==> AddsIff(st, CLet(p, cx, st, n, name).st, AddsValue(p, n))
    ensures forall name :: !CAssign(p, cx, st, n, name).st.err ==> AddsIff(st, CAssign(p, cx, st, n, name).st, AddsValue(p, n))
    decreases p.rank[n], 1
  {
    hide CSource; hide AddsValue; hide AddsRole; hide Adds; hide Ranked; hide Indexed; hide InputSource; hide RoleSource; hide Size;
    SourceAdds(p, cx, st, n, "value");
  }

  lemma {:induction false} IfAdds(p: Program, cx: Cx, st: Cst, n: nat)
    requires WellFormed(p) && n < |p.g.nodes| && p.g.nodes[n].kind.If? && !CIf(p, cx, st, n).st.err
    ensures AddsIff(st, CIf(p, cx, st, n).st, AddsInside(p, n))
    decreases p.rank[n], 1
  {
    hide CSource; hide CRegion; hide AddsRole; hide AddsRegion; hide Adds; hide Ranked; hide Indexed; hide InputSource; hide RoleSource; hide Size;
    ChildrenBelow(p, n);
    SourceAdds(p, cx, st, n, "cond");
    var k := p.g.nodes[n].kind;
    var st1 := EmitOp(CSource(p, cx, st, n, RoleSource(p.g, n, "cond")).st, JumpIfFalse(0));
    RegionAdds(p, cx, st1, k.thenRegion, p.rank[n]);
    var st2 := EmitOp(CRegion(p, cx, st1, k.thenRegion, p.rank[n]).st, Jump(0));
    RegionAdds(p, cx, st2, k.elseRegion, p.rank[n]);
  }

  lemma {:induction false} WhileAdds(p: Program, cx: Cx, st: Cst, n: nat)
    requires WellFormed(p) && n < |p.g.nodes| && p.g.nodes[n].kind.While? && !CWhile(p, cx, st, n).st.err
    ensures AddsIff(st, CWhile(p, cx, st, n).st, AddsInside(p, n))
    decreases p.rank[n], 1
  {
    hide CSource; hide CRegion; hide AddsRole; hide AddsRegion; hide Adds; hide Ranked; hide Indexed; hide InputSource; hide RoleSource; hide Size;
    ChildrenBelow(p, n);
    SourceAdds(p, cx, st, n, "cond");
    RegionAdds(p, cx, EmitOp(CSource(p, cx, st, n, RoleSource(p.g, n, "cond")).st, JumpIfFalse(0)), p.g.nodes[n].kind.body, p.rank[n]);
  }

  lemma {:induction false} CycleAdds(p: Program, cx: Cx, st: Cst, n: nat)
    requires WellFormed(p) && n < |p.g.nodes| && p.g.nodes[n].kind.Cycle? && !CCycle(p, cx, st, n).st.err
    ensures AddsIff(st, CCycle(p, cx, st, n).st, AddsCycle(p, n))
    decreases p.rank[n], 1
  {
    hide CSource; hide CMembers; hide AddsRole; hide AddsMembers; hide Adds; hide Ranked; hide Indexed; hide InputSource; hide RoleSource; hide Size;
    CycleMembersBelow(p, n);
    var ms := Members(p.g, p.g.nodes[n].kind.body);
    var i := FirstBreak(p.g, ms);
    if i < |ms| {
      assert MemberBelow(p, ms[i], p.rank[n]);
      SourceAdds(p, cx, st, ms[i], "cond");
      var st1 := EmitOp(CSource(p, cx, st, ms[i], RoleSource(p.g, ms[i], "cond")).st, JumpIfTrue(0));
      MembersAdd(p, cx, st1, ms, p.rank[n]);
      assert CCycle(p, cx, st, n) == CBreakCycle(p, cx, st, ms, ms[i], p.rank[n]);
    } else {
      MembersAdd(p, cx, st, ms, p.rank[n]);
      assert CCycle(p, cx, st, n) == CEndlessCycle(p, cx, st, ms, p.rank[n]);
    }
  }

  lemma {:induction false} RegionAdds(p: Program, cx: Cx, st: Cst, r: nat, bound: nat)
    requires WellFormed(p) && RegionBelow(p, r, bound)
    ensures !CRegion(p, cx, st, r, bound).st.err ==> AddsIff(st, CRegion(p, cx, st, r, bound).st, AddsRegion(p, r, bound))
    decreases bound, 1, |Members(p.g, r)| + 1
  {
    hide CMembers; hide Ranked; hide Indexed;
    MembersAdd(p, cx, st, Members(p.g, r), bound);
    NoInvalidMembers(p.g);
  }

  lemma NoInvalidMembers(g: Graph)
    requires Indexed(g)
    ensures Members(g, INVALID) == []
  {
  }

  lemma {:induction false} MembersAdd(p: Program, cx: Cx, st: Cst, ms: seq<nat>, bound: nat)
    requires WellFormed(p)
    requires forall k :: 0 <= k < |ms| ==> MemberBelow(p, ms[k], bound)
    ensures !CMembers(p, cx, st, ms, bound).st.err ==> AddsIff(st, CMembers(p, cx, st, ms, bound).st, AddsMembers(p, ms, bound))
    decreases bound, 1, |ms|
  {
    hide CNode; hide Adds; hide Ranked; hide Indexed; hide Size;
    if ms != [] && !CMembers(p, cx, st, ms, bound).st.err {
      assert MemberBelow(p, ms[0], bound);
      var k := p.g.nodes[ms[0]].kind;
      var m := if k.Param? || IsExprNode(k) then Out([], st) else CNode(p, cx, st, ms[0]);
      MembersAdd(p, cx, m.st, ms[1..], bound);
      if !(k.Param? || IsExprNode(k)) {
        NodeAdds(p, cx, st, ms[0]);
      }
    }
  }

  /** Compiling the function adds an entry: some compiled member of its body does. */
  predicate AddsBody(p: Program, f: nat)
    requires WellFormed(p) && f < |p.g.nodes| && p.g.nodes[f].kind.FuncDef?
  {
    WholeRegionBelow(p, p.g.nodes[f].kind.body);
    AddsRegion(p, p.g.nodes[f].kind.body, p.top)
  }

  lemma {:induction false} FuncAdds(p: Program, cx: Cx, st: Cst, f: nat)
    requires WellFormed(p) && f < |p.g.nodes| && p.g.nodes[f].kind.FuncDef? && !CFunc(p, cx, st, f).st.err
    ensures AddsIff(st, CFunc(p, cx, st, f).st, AddsBody(p, f))
  {
    hide CRegion; hide AddsRegion; hide CloseFunction; hide Ranked; hide Indexed; hide Size;
    WholeRegionBelow(p, p.g.nodes[f].kind.body);
    RegionAdds(p, cx, EnterFunction(p, st, f), p.g.nodes[f].kind.body, p.top);
    CloseGrows(CBody(p, cx, st, f));
  }

  // ----- One function at a time -----

  /** The functions still to be compiled, from number `j` on. */
  ghost predicate Pending(p: Program, names: seq<string>, u: Unit, ids: seq<nat>, j: nat)
    requires WellFormed(p)
  {
    && (forall k :: 0 <= k < |ids| ==> ids[k] < |p.g.nodes| && p.g.nodes[ids[k]].kind.FuncDef?)
    && Registered(u, names) && u.st.len == Size(u.code)
    && j + |ids| == |names| && forall k :: 0 <= k < |ids| ==> names[j + k] == p.g.nodes[ids[k]].kind.name
  }

  /** Compiling the next function, into the record of the first one with its name. */
  lemma {:induction false} NextFunction(p: Program, names: seq<string>, u: Unit, ids: seq<nat>, j: nat) returns (k: nat)
    requires WellFormed(p) && Pending(p, names, u, ids, j) && ids != []
    ensures k == FindName(names, names[j]) <= j < |names| == |u.funcs|
    ensures var o, v := CFunc(p, Cx(names, k), u.st, ids[0]), AddFunction(p, names, u, ids[0]);
            Pending(p, names, v, ids[1..], j + 1) && v.st == o.st && v.funcs == u.funcs[k := o.rec] && (u.st.err ==> v.st.err) &&
            AddFunctions(p, names, u, ids) == AddFunctions(p, names, v, ids[1..]) && Traced(k, u.st, v.st) &&
            o.rec.codeOffset == u.st.len && o.rec.codeOffset + o.rec.codeLength == v.st.len &&
            (!v.st.err ==> AddsIff(u.st, v.st, AddsBody(p, ids[0])))
  {
    hide CFunc; hide Size; hide AddFunction; hide Registered; hide Ranked; hide Indexed; hide Traced; hide AddsBody;
    assert names[j + 0] == p.g.nodes[ids[0]].kind.name;
    k := FindName(names, names[j]);
    TableCount(u, names);
    AddFunctionStep(p, names, u, ids[0], k);
    FuncTraced(p, Cx(names, k), u.st, ids[0]);
    var o := CFunc(p, Cx(names, k), u.st, ids[0]);
    forall i | 0 <= i < |ids[1..]| ensures names[j + 1 + i] == p.g.nodes[ids[1..][i]].kind.name {
      assert names[j + (i + 1)] == p.g.nodes[ids[i + 1]].kind.name;
    }
    if !o.st.err {
      FuncAdds(p, Cx(names, k), u.st, ids[0]);
    }
  }

  lemma {:induction false} ErrorStays(p: Program, names: seq<string>, u: Unit, ids: seq<nat>, j: nat)
    requires WellFormed(p) && Pending(p, names, u, ids, j) && u.st.err
    ensures AddFunctions(p, names, u, ids).st.err
    decreases |ids|
  {
    hide Pending; hide AddFunction;
    if ids != [] {
      PendingIds(p, names, u, ids, j);
      var k := NextFunction(p, names, u, ids, j);
      ErrorStays(p, names, AddFunction(p, names, u, ids[0]), ids[1..], j + 1);
    }
  }

  lemma PendingIds(p: Program, names: seq<string>, u: Unit, ids: seq<nat>, j: nat)
    requires WellFormed(p) && Pending(p, names, u, ids, j)
    ensures forall k :: 0 <= k < |ids| ==> ids[k] < |p.g.nodes| && p.g.nodes[ids[k]].kind.FuncDef? && j + k < |names|
    ensures |u.funcs| == |names| == j + |ids|
  {
  }

  // ----- Without entries in repeated functions -----

  /** No function adds an entry and has a later one of its name. */
  predicate Harmless(p: Program, ids: seq<nat>)
    requires WellFormed(p) && forall k :: 0 <= k < |ids| ==> ids[k] < |p.g.nodes| && p.g.nodes[ids[k]].kind.FuncDef?
  {
    forall a, b :: 0 <= a < b < |ids| && p.g.nodes[ids[a]].kind.name == p.g.nodes[ids[b]].kind.name ==> !AddsBody(p, ids[a])
  }

  /** Every entry so far is right, and its function has no later one of its name. */
  predicate Right(u: Unit, names: seq<string>, j: nat) {
    forall x :: 0 <= x < |u.st.debug| ==> RightEntry(u, names, j, u.st.debug[x])
  }

  predicate RightEntry(u: Unit, names: seq<string>, j: nat, d: DebugEntry) {
    InFunction(u.funcs, d) && d.end <= u.st.len && d.funcIdx < |names| &&
    forall t :: j <= t < |names| ==> names[t] != names[d.funcIdx]
  }

  lemma {:induction false} FunctionsRight(p: Program, names: seq<string>, u: Unit, ids: seq<nat>, j: nat)
    requires WellFormed(p) && Pending(p, names, u, ids, j) && Right(u, names, j)
    requires forall k :: 0 <= k < |ids| ==> ids[k] < |p.g.nodes| && p.g.nodes[ids[k]].kind.FuncDef?
    requires Harmless(p, ids) && !AddFunctions(p, names, u, ids).st.err
    ensures var w := AddFunctions(p, names, u, ids); Right(w, names, |names|) && |w.funcs| == |names|
    decreases |ids|
  {
    hide Pending; hide AddFunction; hide Right; hide AddsBody; hide Traced;
    PendingIds(p, names, u, ids, j);
    if ids != [] {
      var k := NextFunction(p, names, u, ids, j);
      var v := AddFunction(p, names, u, ids[0]);
      if v.st.err {
        ErrorStays(p, names, v, ids[1..], j + 1);
      } else {
        if AddsBody(p, ids[0]) {
          OnlyLater(p, names, u, ids, j);
        }
        NextRight(u, v, names, j, k, AddsBody(p, ids[0]));
        FewerHarmless(p, ids);
        FunctionsRight(p, names, v, ids[1..], j + 1);
      }
    }
  }

  lemma OnlyLater(p: Program, names: seq<string>, u: Unit, ids: seq<nat>, j: nat)
    requires WellFormed(p) && Pending(p, names, u, ids, j) && ids != []
    requires forall k :: 0 <= k < |ids| ==> ids[k] < |p.g.nodes| && p.g.nodes[ids[k]].kind.FuncDef?
    requires Harmless(p, ids) && AddsBody(p, ids[0])
    ensures forall t :: j < t < |names| ==> names[t] != names[j]
  {
    hide AddsBody; hide Registered;
    assert names[j + 0] == p.g.nodes[ids[0]].kind.name;
    forall t | j < t < |names| ensures names[t] != names[j] {
      assert names[j + (t - j)] == p.g.nodes[ids[t - j]].kind.name;
    }
  }

  lemma FewerHarmless(p: Program, ids: seq<nat>)
    requires WellFormed(p) && ids != []
    requires forall k :: 0 <= k < |ids| ==> ids[k] < |p.g.nodes| && p.g.nodes[ids[k]].kind.FuncDef?
    requires Harmless(p, ids)
    ensures Harmless(p, ids[1..])
  {
    hide AddsBody;
    var rest := ids[1..];
    forall a, b | 0 <= a < b < |rest| && p.g.nodes[rest[a]].kind.name == p.g.nodes[rest[b]].kind.name
      ensures !AddsBody(p, rest[a])
    {
      assert rest[a] == ids[a + 1] && rest[b] == ids[b + 1];
    }
  }

  lemma NextRight(u: Unit, v: Unit, names: seq<string>, j: nat, k: nat, adds: bool)
    requires Right(u, names, j) && Traced(k, u.st, v.st) && AddsIff(u.st, v.st, adds)
    requires j < |names| == |u.funcs| == |v.funcs| && k == FindName(names, names[j]) <= j
    requires v.funcs == u.funcs[k := v.funcs[k]]
    requires v.funcs[k].codeOffset == u.st.len && v.funcs[k].codeOffset + v.funcs[k].codeLength == v.st.len
    requires adds ==> forall t :: j < t < |names| ==> names[t] != names[j]
    ensures Right(v, names, j + 1)
  {
    forall x | 0 <= x < |v.st.debug| ensures RightEntry(v, names, j + 1, v.st.debug[x]) {
      if x < |u.st.debug| {
        assert v.st.debug[x] == u.st.debug[x] && RightEntry(u, names, j, u.st.debug[x]);
        assert names[j] != names[v.st.debug[x].funcIdx];
      } else {
        assert RangeIn(v.st.debug[|u.st.debug|..][x - |u.st.debug|], k, u.st.len, v.st.len);
      }
    }
  }

  // ----- With one -----

  /** Entry `x` lies in front of the code its function's record names. */
  predicate Wrong(u: Unit, x: nat) {
    x < |u.st.debug| && u.st.debug[x].funcIdx < |u.funcs| && u.st.debug[x].start < u.funcs[u.st.debug[x].funcIdx].codeOffset
  }

  lemma {:induction false} WrongStays(p: Program, names: seq<string>, u: Unit, ids: seq<nat>, j: nat, x: nat)
    requires WellFormed(p) && Pending(p, names, u, ids, j) && Wrong(u, x) && u.st.debug[x].start < u.st.len
    ensures var w := AddFunctions(p, names, u, ids); Wrong(w, x) && w.st.debug[x].start < w.st.len
    decreases |ids|
  {
    hide Pending; hide AddFunction;
    PendingIds(p, names, u, ids, j);
    if ids != [] {
      var k := NextFunction(p, names, u, ids, j);
      var v := AddFunction(p, names, u, ids[0]);
      assert v.st.debug[x] == u.st.debug[x];
      WrongStays(p, names, v, ids[1..], j + 1, x);
    }
  }

  /** An entry of an earlier function goes wrong when function `b` takes its record over. */
  lemma {:induction false} TakenOver(p: Program, names: seq<string>, u: Unit, ids: seq<nat>, j: nat, b: nat, x: nat)
    requires WellFormed(p) && Pending(p, names, u, ids, j) && b < |ids| && j + b < |names|
    requires x < |u.st.debug| && u.st.debug[x].start < u.st.len && u.st.debug[x].funcIdx == FindName(names, names[j + b])
    ensures var w := AddFunctions(p, names, u, ids); Wrong(w, x) && w.st.debug[x].start < w.st.len
    decreases |ids|
  {
    hide Pending; hide AddFunction;
    PendingIds(p, names, u, ids, j);
    var k := NextFunction(p, names, u, ids, j);
    var v := AddFunction(p, names, u, ids[0]);
    assert v.st.debug[x] == u.st.debug[x];
    if b == 0 {
      WrongStays(p, names, v, ids[1..], j + 1, x);
    } else {
      assert j + 1 + (b - 1) == j + b;
      TakenOver(p, names, v, ids[1..], j + 1, b - 1, x);
    }
  }

  lemma FirstAdded(k: nat, st: Cst, next: Cst)
    requires Traced(k, st, next) && AddsIff(st, next, true)
    ensures next.debug[|st.debug|].funcIdx == k && next.debug[|st.debug|].start < next.len
  {
    assert RangeIn(next.debug[|st.debug|..][0], k, st.len, next.len);
  }

  lemma {:induction false} WrongAppears(p: Program, names: seq<string>, u: Unit, ids: seq<nat>, j: nat, a: nat, b: nat) returns (x: nat)
    requires WellFormed(p) && Pending(p, names, u, ids, j) && a < b < |ids| && j + b < |names| && names[j + a] == names[j + b]
    requires forall k :: 0 <= k < |ids| ==> ids[k] < |p.g.nodes| && p.g.nodes[ids[k]].kind.FuncDef?
    requires AddsBody(p, ids[a]) && !AddFunctions(p, names, u, ids).st.err
    ensures var w := AddFunctions(p, names, u, ids); Wrong(w, x) && w.st.debug[x].start < w.st.len
    decreases |ids|
  {
    hide Pending; hide AddFunction; hide AddsBody; hide Traced; hide Wrong; hide Ranked; hide Indexed; hide CFunc; hide AddFunctions; hide NodeIndexed;
    var k := NextFunction(p, names, u, ids, j);
    var v := AddFunction(p, names, u, ids[0]);
    x := |u.st.debug|;
    if v.st.err {
      ErrorStays(p, names, v, ids[1..], j + 1);
    } else if a == 0 {
      FirstAdded(k, u.st, v.st);
      assert j + 1 + (b - 1) == j + b;
      TakenOver(p, names, v, ids[1..], j + 1, b - 1, x);
    } else {
      assert j + 1 + (a - 1) == j + a && j + 1 + (b - 1) == j + b && ids[1..][a - 1] == ids[a];
      x := WrongAppears(p, names, v, ids[1..], j + 1, a - 1, b - 1);
    }
  }

  // ----- The table -----

  lemma PendingStart(p: Program)
    requires WellFormed(p)
    ensures var ids := FuncIds(p.g, 0); Pending(p, Names(p.g, ids), Register(p.g, EMPTY, ids), ids, 0)
  {
    hide Register; hide Registered; hide Indexed; hide Ranked;
    RegisterNoDebug(p);
    NothingIn(Register(p.g, EMPTY, FuncIds(p.g, 0)));
  }

  lemma RightIsIn(u: Unit, names: seq<string>)
    requires Right(u, names, |names|) && |u.funcs| == |names|
    ensures AllIn(u.st.debug, u.funcs, |u.funcs|, u.st.len)
  {
    forall x | 0 <= x < |u.st.debug| ensures InFunction(u.funcs, u.st.debug[x]) && u.st.debug[x].end <= u.st.len {
      assert RightEntry(u, names, |names|, u.st.debug[x]);
    }
  }

  lemma WrongShifted(u: Unit, st: Cst, m: Out, rec: FuncRecord, x: nat)
    requires Wrong(u, x) && u.st.debug[x].start < u.st.len && Traced(0, st, m.st) && st.debug == u.st.debug
    ensures x < |m.st.debug| && !InFunction([rec] + u.funcs, ShiftDebug(m.st.debug, u.st.len)[x])
  {
    assert m.st.debug[x] == u.st.debug[x];
  }

  lemma {:induction false} HarmlessNames(p: Program)
    requires WellFormed(p) && Compile(p).success && Harmless(p, FuncIds(p.g, 0))
    ensures var img := Compile(p).image; forall k :: 0 <= k < |img.debug| ==> InFunction(img.functions, img.debug[k])
  {
    hide CMain; hide AddFunctions; hide Register; hide Size; hide Traced; hide Registered; hide Ranked; hide Indexed; hide AllIn;
    hide Pending; hide Right; hide AddsBody; hide InFunction; hide Harmless;
    var ids := FuncIds(p.g, 0);
    var names, start := Names(p.g, ids), Register(p.g, EMPTY, ids);
    PendingStart(p);
    NothingRight(p);
    var u, m := Functions(p), MainCode(p);
    MainTraced(p, Cx(names, 0), EnterMain(u.st));
    FunctionsRight(p, names, start, ids, 0);
    RightIsIn(u, names);
    MainNamed(u, EnterMain(u.st), m, Compile(p).image.functions[0]);
    NoFunctionsNoDebug(u);
  }

  lemma {:induction false} HarmfulMisnames(p: Program)
    requires WellFormed(p) && Compile(p).success && !Harmless(p, FuncIds(p.g, 0))
    ensures var img := Compile(p).image; exists k :: 0 <= k < |img.debug| && !InFunction(img.functions, img.debug[k])
  {
    hide CMain; hide AddFunctions; hide Register; hide Size; hide Traced; hide Ranked; hide Indexed;
    hide Pending; hide AddsBody; hide InFunction; hide Wrong;
    var ids := FuncIds(p.g, 0);
    var names, start := Names(p.g, ids), Register(p.g, EMPTY, ids);
    PendingStart(p);
    var u, m := Functions(p), MainCode(p);
    MainTraced(p, Cx(names, 0), EnterMain(u.st));
    var a, b :| 0 <= a < b < |ids| && p.g.nodes[ids[a]].kind.name == p.g.nodes[ids[b]].kind.name && AddsBody(p, ids[a]);
    assert names[0 + a] == names[0 + b];
    var x := WrongAppears(p, names, start, ids, 0, a, b);
    WrongShifted(u, EnterMain(u.st), m, Compile(p).image.functions[0], x);
    WrongHasFunctions(u, x);
    assert !InFunction(Compile(p).image.functions, Compile(p).image.debug[x]);
  }

  /**
   In a compiled image every debug range lies in the code of the function it names if
   and only if no function with a later one of its name adds an entry.
   */
  lemma {:induction false} RangesNamedExactly(p: Program)
    requires WellFormed(p) && Compile(p).success
    ensures var img := Compile(p).image;
            (forall k :: 0 <= k < |img.debug| ==> InFunction(img.functions, img.debug[k])) <==> Harmless(p, FuncIds(p.g, 0))
  {
    hide Compile; hide Harmless; hide InFunction; hide Ranked; hide Indexed;
    if Harmless(p, FuncIds(p.g, 0)) {
      HarmlessNames(p);
    } else {
      HarmfulMisnames(p);
    }
  }

  lemma WrongHasFunctions(u: Unit, x: nat)
    requires Wrong(u, x)
    ensures |u.funcs| > 0
  {
  }

  lemma NothingRight(p: Program)
    requires WellFormed(p)
    ensures Right(Register(p.g, EMPTY, FuncIds(p.g, 0)), Names(p.g, FuncIds(p.g, 0)), 0)
  {
    hide Register;
    RegisterNoDebug(p);
  }
}
