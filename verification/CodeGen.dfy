/**
 What the compiler emits, as a function: instruction lists whose relative jump
 offsets are the sizes of the code they skip. The Compiler module emits bytes one
 at a time and patches jumps afterwards; it is proved to produce these lists.
 */
module CodeGen {
  import opened Values
  import opened Bytecode
  import opened SemanticGraph

  predicate NoRepeats(pool: seq<Constant>) { forall i, j :: 0 <= i < j < |pool| ==> pool[i] != pool[j] }

  /** Constants are interned, so a pool never holds one twice. */
  type Pool = s: seq<Constant> | NoRepeats(s)

  /** Compiler state: `len` is the length of the code so far, `depth` the tracked operand height. */
  datatype Cst = Cst(pool: Pool, locals: seq<string>, err: bool, depth: int, max: int,
                     len: nat, debug: seq<DebugEntry>)

  /** Names in function-table order, and the function the debug entries name. */
  datatype Cx = Cx(names: seq<string>, func: nat)

  datatype Out = Out(code: seq<Instr>, st: Cst)

  datatype ArgsOut = ArgsOut(code: seq<Instr>, st: Cst, argc: nat)

  /** Emission only adds: constants and locals keep their indices, errors stay, lengths add up. */
  ghost predicate Grows(st: Cst, code: seq<Instr>, next: Cst) {
    && st.pool <= next.pool
    && st.locals <= next.locals
    && (st.err ==> next.err)
    && next.len == st.len + Size(code)
    && (st.max >= st.depth ==> next.max >= next.depth)
  }

  // ----- Constant pool -----

  /** Index of the first equal entry, |pool| if there is none. */
  function FindConst(pool: seq<Constant>, c: Constant): (i: nat)
    ensures i <= |pool|
    ensures i < |pool| ==> pool[i] == c
    ensures forall k :: 0 <= k < i ==> pool[k] != c
  {
    if pool == [] then 0
    else if pool[0] == c then 0
    else 1 + FindConst(pool[1..], c)
  }

  function Intern(pool: Pool, c: Constant): (r: Pool)
    ensures pool <= r && FindConst(pool, c) < |r| && r[FindConst(pool, c)] == c
  {
    if FindConst(pool, c) < |pool| then pool else pool + [c]
  }

  function ConstOf(v: Value): Constant {
    match v
    case Null => NullConst
    case Bool(b) => BoolConst(b)
    case I64(i) => IntConst(i)
  }

  // ----- Emission -----

  function EmitOp(st: Cst, i: Instr): Cst {
    var d := st.depth - i.PopCount() + i.PushCount();
    st.(depth := d, max := if d > st.max then d else st.max, len := st.len + i.Size())
  }

  function EmitConst(st: Cst, c: Constant): (o: Out)
    ensures Grows(st, o.code, o.st)
  {
    var i := Const(FindConst(st.pool, c));
    EncodeOne(i);
    Out([i], EmitOp(st.(pool := Intern(st.pool, c)), i))
  }

  function EmitCall(st: Cst, argc: nat): Cst {
    var d := st.depth - argc + 1;
    st.(depth := d, max := if d > st.max then d else st.max, len := st.len + 5)
  }

  /** The print intrinsic lowers the tracked height by hand. */
  function EmitPrint(st: Cst): Cst { st.(depth := st.depth - 1, len := st.len + 5) }

  function Error(st: Cst): Out { Out([], st.(err := true)) }

  /** Slot of the latest local with a name, -1 if there is none. */
  function FindLocal(locals: seq<string>, name: string): (i: int)
    ensures -1 <= i < |locals|
    ensures i >= 0 ==> locals[i] == name
    ensures i == -1 ==> name !in locals
    ensures forall k :: i < k < |locals| ==> locals[k] != name
  {
    if locals == [] then -1
    else if locals[|locals| - 1] == name then |locals| - 1
    else FindLocal(locals[..|locals| - 1], name)
  }

  /** First function with a name, |names| if there is none. */
  function FindName(names: seq<string>, name: string): (i: nat)
    ensures i <= |names|
    ensures i < |names| ==> names[i] == name
    ensures forall k :: 0 <= k < i ==> names[k] != name
  {
    if names == [] then 0
    else if names[0] == name then 0
    else 1 + FindName(names[1..], name)
  }

  predicate IsExprNode(k: Kind) {
    k.ConstInt? || k.ConstBool? || k.ConstNull? || k.BinaryNode? || k.UnaryNode? || k.And? || k.Or? ||
    k.VarRef? || k.FuncCall? || k.IntrinsicCall? || k.ThreadSpawn? || (k.Construct? && IsExprConstruct(k.what))
  }

  predicate IsExprConstruct(c: Construct) {
    !c.IndexSet? && !c.Throwing? && !c.ClosureExpr? && !c.OtherStatement?
  }

  /** The operand of a binary node; unlike the interpreter there is no fallback role. */
  function CompilerOperand(g: Graph, n: nat, k: nat): (s: nat)
    requires Indexed(g) && n < |g.nodes| && k < 2
    ensures s == INVALID || s < |g.nodes|
  {
    if |g.nodes[n].cyclic| >= 2 then FindSource(g, CyclicPort(g, n, k))
    else RoleSource(g, n, if k == 0 then "lhs" else "rhs")
  }

  lemma OperandBelow(p: Program, n: nat, k: nat)
    requires WellFormed(p) && n < |p.g.nodes| && k < 2
    ensures CompilerOperand(p.g, n, k) == INVALID || p.rank[CompilerOperand(p.g, n, k)] < p.rank[n]
  {
    CyclicBelow(p, n, k);
    RoleBelow(p, n, if k == 0 then "lhs" else "rhs");
  }

  /** The value a constant node folds to, for the numeric and boolean constants. */
  function Literal(k: Kind): Option<Value> {
    match k
    case ConstInt(i) => Some(I64(i))
    case ConstBool(b) => Some(Bool(b))
    case _ => None
  }

  function TryFoldBinary(g: Graph, l: nat, r: nat, op: BinOp): Option<Value>
    requires l < |g.nodes| && r < |g.nodes|
  {
    if g.nodes[l].kind.ConstInt? && g.nodes[r].kind.ConstInt? && FoldBinary(op, g.nodes[l].kind.i, g.nodes[r].kind.i).Folded?
    then Some(FoldBinary(op, g.nodes[l].kind.i, g.nodes[r].kind.i).value) else None
  }

  /** Two literals the folder has no defined result for; the model reports an error. */
  predicate FoldUndefined(g: Graph, l: nat, r: nat, op: BinOp)
    requires l < |g.nodes| && r < |g.nodes|
  {
    g.nodes[l].kind.ConstInt? && g.nodes[r].kind.ConstInt? &&
    FoldBinary(op, g.nodes[l].kind.i, g.nodes[r].kind.i).Undefined?
  }

  function TryFoldUnary(g: Graph, s: nat, op: UnOp): Option<Value>
    requires s < |g.nodes|
  {
    if Literal(g.nodes[s].kind).Some? then FoldUnary(op, Literal(g.nodes[s].kind).value) else None
  }

  lemma {:induction false} SizeSnoc(a: seq<Instr>, i: Instr)
    ensures Size(a + [i]) == Size(a) + i.Size()
  {
    SizeConcat(a, [i]);
    EncodeOne(i);
  }

  lemma {:induction false} ThreeMore(a: seq<Instr>, i: Instr, j: Instr, k: Instr)
    ensures Size(a + [i, j, k]) == Size(a) + i.Size() + j.Size() + k.Size()
  {
    assert a + [i, j, k] == a + [i] + [j] + [k];
    SizeSnoc(a, i);
    SizeSnoc(a + [i], j);
    SizeSnoc(a + [i] + [j], k);
  }

  lemma {:induction false} ShortCircuitSize(l: seq<Instr>, skip: Instr, r: seq<Instr>)
    ensures Size(l + [Dup, skip, Pop] + r) == Size(l) + skip.Size() + 2 + Size(r)
  {
    ThreeMore(l, Dup, skip, Pop);
    SizeConcat(l + [Dup, skip, Pop], r);
  }

  lemma {:induction false} LoopSize(c: seq<Instr>, test: Instr, b: seq<Instr>, back: Instr)
    ensures Size(c + [test] + b + [back]) == Size(c) + test.Size() + Size(b) + back.Size()
  {
    SizeSnoc(c, test);
    SizeConcat(c + [test], b);
    SizeSnoc(c + [test] + b, back);
  }

  // ----- Nodes -----

  /** A node's code, and a debug entry for it if it emitted anything and has a source element. */
  function CNode(p: Program, cx: Cx, st: Cst, n: nat): (o: Out)
    requires WellFormed(p) && n < |p.g.nodes|
    ensures Grows(st, o.code, o.st)
    decreases p.rank[n], 2, 0
  {
    var o := CKind(p, cx, st, n);
    if o.st.len > st.len && p.g.nodes[n].source != 0
    then Out(o.code, o.st.(debug := o.st.debug + [DebugEntry(cx.func, st.len, o.st.len, p.g.nodes[n].source)]))
    else o
  }

  function CKind(p: Program, cx: Cx, st: Cst, n: nat): (o: Out)
    requires WellFormed(p) && n < |p.g.nodes|
    ensures Grows(st, o.code, o.st)
    decreases p.rank[n], 1, 0
  {
    match p.g.nodes[n].kind
    case ConstInt(i) => EmitConst(st, IntConst(i))
    case ConstBool(b) => EmitConst(st, BoolConst(b))
    case ConstNull => EmitConst(st, NullConst)
    case BinaryNode(op) => CBinary(p, cx, st, n, op)
    case UnaryNode(op) => CUnary(p, cx, st, n, op)
    case And => CShortCircuit(p, cx, st, n, false)
    case Or => CShortCircuit(p, cx, st, n, true)
    case VarRef(name) =>
      var s := FindLocal(st.locals, name);
      EncodeOne(LoadLocal(if s < 0 then 0 else s));
      if s < 0 then Error(st) else Out([LoadLocal(s)], EmitOp(st, LoadLocal(s)))
    case FuncCall(name) => CCall(p, cx, st, n, name)
    case Let(name) => CLet(p, cx, st, n, name)
    case Assign(name) => CAssign(p, cx, st, n, name)
    case Print => CPrint(p, cx, st, n)
    case RootOutput =>
      RoleBelow(p, n, "value");
      CSource(p, cx, st, n, InputSource(p.g, n, "value"))
    case ReturnNode => CReturn(p, cx, st, n)
    case If(_, _) => CIf(p, cx, st, n)
    case While(_) => CWhile(p, cx, st, n)
    case Cycle(_) => CCycle(p, cx, st, n)
    case BreakIf => Out([], st)
    case Sequence => Out([], st)
    case Param(_) => Out([], st)
    case _ => Error(st)
  }

  /** An unconnected input emits nothing. */
  function CSource(p: Program, cx: Cx, st: Cst, n: nat, s: nat): (o: Out)
    requires WellFormed(p) && n < |p.g.nodes|
    requires s == INVALID || (s < |p.g.nodes| && p.rank[s] < p.rank[n])
    ensures Grows(st, o.code, o.st)
    decreases p.rank[n], 0, 0
  {
    if s == INVALID then Out([], st) else CNode(p, cx, st, s)
  }

  function CBinary(p: Program, cx: Cx, st: Cst, n: nat, op: BinOp): (o: Out)
    requires WellFormed(p) && n < |p.g.nodes|
    ensures Grows(st, o.code, o.st)
    decreases p.rank[n], 0, 1
  {
    OperandBelow(p, n, 0);
    OperandBelow(p, n, 1);
    var ls, rs := CompilerOperand(p.g, n, 0), CompilerOperand(p.g, n, 1);
    if ls == INVALID || rs == INVALID || FoldUndefined(p.g, ls, rs, op) then Error(st)
    else
      var folded := TryFoldBinary(p.g, ls, rs, op);
      if folded.Some? then EmitConst(st, ConstOf(folded.value))
      else
        var l := CSource(p, cx, st, n, ls);
        var r := CSource(p, cx, l.st, n, rs);
        SizeConcat(l.code, r.code);
        SizeSnoc(l.code + r.code, Binary(op));
        Out(l.code + r.code + [Binary(op)], EmitOp(r.st, Binary(op)))
  }

  function CUnary(p: Program, cx: Cx, st: Cst, n: nat, op: UnOp): (o: Out)
    requires WellFormed(p) && n < |p.g.nodes|
    ensures Grows(st, o.code, o.st)
    decreases p.rank[n], 0, 1
  {
    RoleBelow(p, n, "value");
    var s := InputSource(p.g, n, "value");
    if s == INVALID then Error(st)
    else
      var folded := TryFoldUnary(p.g, s, op);
      if folded.Some? then EmitConst(st, ConstOf(folded.value))
      else
        var v := CSource(p, cx, st, n, s);
        SizeSnoc(v.code, Unary(op));
        Out(v.code + [Unary(op)], EmitOp(v.st, Unary(op)))
  }

  function SkipJump(isOr: bool, offset: int): Instr {
    if isOr then JumpIfTrue(offset) else JumpIfFalse(offset)
  }

  /** State after the left value is duplicated, tested and popped. */
  function AfterTest(st: Cst, isOr: bool): Cst { EmitOp(EmitOp(EmitOp(st, Dup), SkipJump(isOr, 0)), Pop) }

  function Decide(ghost st: Cst, l: Out, isOr: bool, r: Out): (o: Out)
    requires Grows(st, l.code, l.st) && Grows(AfterTest(l.st, isOr), r.code, r.st)
    ensures Grows(st, o.code, o.st)
  {
    var skip := SkipJump(isOr, 1 + Size(r.code));
    ShortCircuitSize(l.code, skip, r.code);
    Out(l.code + [Dup, skip, Pop] + r.code, r.st)
  }

  /** The left value stays on the stack when it decides, and is popped otherwise. */
  function CShortCircuit(p: Program, cx: Cx, st: Cst, n: nat, isOr: bool): (o: Out)
    requires WellFormed(p) && n < |p.g.nodes|
    ensures Grows(st, o.code, o.st)
    decreases p.rank[n], 0, 1
  {
    RoleBelow(p, n, "lhs");
    RoleBelow(p, n, "rhs");
    var ls, rs := RoleSource(p.g, n, "lhs"), RoleSource(p.g, n, "rhs");
    if ls == INVALID || rs == INVALID then Error(st)
    else
      var l := CSource(p, cx, st, n, ls);
      var r := CSource(p, cx, AfterTest(l.st, isOr), n, rs);
      Decide(st, l, isOr, r)
  }

  function CCall(p: Program, cx: Cx, st: Cst, n: nat, name: string): (o: Out)
    requires WellFormed(p) && n < |p.g.nodes|
    ensures Grows(st, o.code, o.st)
    decreases p.rank[n], 0, |ArgPorts(p.g, n)| + 1
  {
    ArgsBelow(p, n);
    var a := CArgs(p, cx, st, n, ArgPorts(p.g, n));
    var f := FindName(cx.names, name);
    if f == |cx.names| then Out(a.code, a.st.(err := true))
    else
      SizeSnoc(a.code, Call(f, a.argc));
      Out(a.code + [Call(f, a.argc)], EmitCall(a.st, a.argc))
  }

  /** Connected arguments only; the count is the number compiled. */
  function CArgs(p: Program, cx: Cx, st: Cst, n: nat, ports: seq<nat>): (o: ArgsOut)
    requires WellFormed(p) && n < |p.g.nodes|
    requires forall k :: 0 <= k < |ports| ==> SourceBelow(p, n, ports[k])
    ensures o.argc <= |ports|
    ensures Grows(st, o.code, o.st)
    decreases p.rank[n], 0, |ports|
  {
    if ports == [] then ArgsOut([], st, 0)
    else
      assert SourceBelow(p, n, ports[0]);
      var s := FindSource(p.g, ports[0]);
      var v := if s == INVALID then Out([], st) else CNode(p, cx, st, s);
      var rest := CArgs(p, cx, v.st, n, ports[1..]);
      SizeConcat(v.code, rest.code);
      ArgsOut(v.code + rest.code, rest.st, (if s == INVALID then 0 else 1) + rest.argc)
  }

  // ----- Statements -----

  function CLet(p: Program, cx: Cx, st: Cst, n: nat, name: string): (o: Out)
    requires WellFormed(p) && n < |p.g.nodes|
    ensures Grows(st, o.code, o.st)
    decreases p.rank[n], 0, 1
  {
    RoleBelow(p, n, "value");
    var v := CSource(p, cx, st, n, InputSource(p.g, n, "value"));
    var i := StoreLocal(|v.st.locals|);
    SizeSnoc(v.code, i);
    Out(v.code + [i], EmitOp(v.st.(locals := v.st.locals + [name]), i))
  }

  function CAssign(p: Program, cx: Cx, st: Cst, n: nat, name: string): (o: Out)
    requires WellFormed(p) && n < |p.g.nodes|
    ensures Grows(st, o.code, o.st)
    decreases p.rank[n], 0, 1
  {
    RoleBelow(p, n, "value");
    var v := CSource(p, cx, st, n, InputSource(p.g, n, "value"));
    var s := FindLocal(v.st.locals, name);
    if s < 0 then Out(v.code, v.st.(err := true))
    else
      SizeSnoc(v.code, StoreLocal(s));
      Out(v.code + [StoreLocal(s)], EmitOp(v.st, StoreLocal(s)))
  }

  function CPrint(p: Program, cx: Cx, st: Cst, n: nat): (o: Out)
    requires WellFormed(p) && n < |p.g.nodes|
    ensures Grows(st, o.code, o.st)
    decreases p.rank[n], 0, 1
  {
    RoleBelow(p, n, "value");
    var v := CSource(p, cx, st, n, InputSource(p.g, n, "value"));
    SizeSnoc(v.code, Intrinsic(INTRINSIC_PRINT, 1));
    Out(v.code + [Intrinsic(INTRINSIC_PRINT, 1)], EmitPrint(v.st))
  }

  function CReturn(p: Program, cx: Cx, st: Cst, n: nat): (o: Out)
    requires WellFormed(p) && n < |p.g.nodes|
    ensures Grows(st, o.code, o.st)
    decreases p.rank[n], 0, 1
  {
    RoleBelow(p, n, "value");
    var v := if FindPort(p.g, n, "value") != INVALID then CSource(p, cx, st, n, InputSource(p.g, n, "value"))
             else EmitConst(st, NullConst);
    SizeSnoc(v.code, Return);
    Out(v.code + [Return], EmitOp(v.st, Return))
  }

  // ----- Control flow -----

  lemma ChildrenBelow(p: Program, n: nat)
    requires WellFormed(p) && n < |p.g.nodes|
    ensures forall r :: r in Children(p.g.nodes[n].kind) ==> RegionBelow(p, r, p.rank[n])
  {
    assert Ranked(p, n);
  }

  /** A test, the then code with a jump past the else code, and the else code. */
  function Branch(ghost st: Cst, c: Out, t: Out, e: Out): (o: Out)
    requires Grows(st, c.code, c.st) && Grows(EmitOp(c.st, JumpIfFalse(0)), t.code, t.st)
    requires Grows(EmitOp(t.st, Jump(0)), e.code, e.st)
    ensures Grows(st, o.code, o.st)
  {
    var test, skip := JumpIfFalse(Size(t.code) + 5), Jump(Size(e.code));
    LoopSize(c.code, test, t.code, skip);
    SizeConcat(c.code + [test] + t.code + [skip], e.code);
    Out(c.code + [test] + t.code + [skip] + e.code, e.st)
  }

  function CIf(p: Program, cx: Cx, st: Cst, n: nat): (o: Out)
    requires WellFormed(p) && n < |p.g.nodes| && p.g.nodes[n].kind.If?
    ensures Grows(st, o.code, o.st)
    decreases p.rank[n], 0, 3
  {
    RoleBelow(p, n, "cond");
    ChildrenBelow(p, n);
    var c := CSource(p, cx, st, n, RoleSource(p.g, n, "cond"));
    var t := CRegion(p, cx, EmitOp(c.st, JumpIfFalse(0)), p.g.nodes[n].kind.thenRegion, p.rank[n]);
    var e := CRegion(p, cx, EmitOp(t.st, Jump(0)), p.g.nodes[n].kind.elseRegion, p.rank[n]);
    Branch(st, c, t, e)
  }

  /** A test, an exit jump past the body and the jump back to the test. */
  function TestedLoop(ghost st: Cst, c: Out, exit: Instr, b: Out): (o: Out)
    requires exit.JumpIfFalse? || exit.JumpIfTrue?
    requires Grows(st, c.code, c.st) && Grows(EmitOp(c.st, exit), b.code, b.st)
    ensures Grows(st, o.code, o.st)
  {
    var back := Jump(-(Size(c.code) + Size(b.code) + 10));
    LoopSize(c.code, exit, b.code, back);
    Out(c.code + [exit] + b.code + [back], EmitOp(b.st, back))
  }

  function CWhile(p: Program, cx: Cx, st: Cst, n: nat): (o: Out)
    requires WellFormed(p) && n < |p.g.nodes| && p.g.nodes[n].kind.While?
    ensures Grows(st, o.code, o.st)
    decreases p.rank[n], 0, 3
  {
    RoleBelow(p, n, "cond");
    ChildrenBelow(p, n);
    var c := CSource(p, cx, st, n, RoleSource(p.g, n, "cond"));
    var b := CRegion(p, cx, EmitOp(c.st, JumpIfFalse(0)), p.g.nodes[n].kind.body, p.rank[n]);
    TestedLoop(st, c, JumpIfFalse(Size(b.code) + 5), b)
  }

  /** Position of the first break test, |ms| if there is none. */
  function FirstBreak(g: Graph, ms: seq<nat>): (i: nat)
    requires forall k :: 0 <= k < |ms| ==> ms[k] < |g.nodes|
    ensures i <= |ms|
    ensures i < |ms| ==> g.nodes[ms[i]].kind.BreakIf?
    ensures forall k :: 0 <= k < i ==> !g.nodes[ms[k]].kind.BreakIf?
  {
    if ms == [] then 0
    else if g.nodes[ms[0]].kind.BreakIf? then 0
    else 1 + FirstBreak(g, ms[1..])
  }

  lemma CycleMembersBelow(p: Program, n: nat)
    requires WellFormed(p) && n < |p.g.nodes| && p.g.nodes[n].kind.Cycle?
    ensures forall k :: 0 <= k < |Members(p.g, p.g.nodes[n].kind.body)| ==>
              MemberBelow(p, Members(p.g, p.g.nodes[n].kind.body)[k], p.rank[n])
  {
    assert Ranked(p, n);
    assert RegionBelow(p, p.g.nodes[n].kind.body, p.rank[n]);
  }

  /** The first break test is compiled at the top of the loop, wherever it stands in the body. */
  function CCycle(p: Program, cx: Cx, st: Cst, n: nat): (o: Out)
    requires WellFormed(p) && n < |p.g.nodes| && p.g.nodes[n].kind.Cycle?
    ensures Grows(st, o.code, o.st)
    decreases p.rank[n], 0, 3
  {
    CycleMembersBelow(p, n);
    var ms := Members(p.g, p.g.nodes[n].kind.body);
    var i := FirstBreak(p.g, ms);
    if i < |ms| then CBreakCycle(p, cx, st, ms, ms[i], p.rank[n]) else CEndlessCycle(p, cx, st, ms, p.rank[n])
  }

  function CBreakCycle(p: Program, cx: Cx, st: Cst, ms: seq<nat>, test: nat, bound: nat): (o: Out)
    requires WellFormed(p) && MemberBelow(p, test, bound)
    requires forall k :: 0 <= k < |ms| ==> MemberBelow(p, ms[k], bound)
    ensures Grows(st, o.code, o.st)
    decreases bound, 0, 2
  {
    RoleBelow(p, test, "cond");
    var c := CSource(p, cx, st, test, RoleSource(p.g, test, "cond"));
    var b := CMembers(p, cx, EmitOp(c.st, JumpIfTrue(0)), ms, bound);
    TestedLoop(st, c, JumpIfTrue(Size(b.code) + 5), b)
  }

  function CEndlessCycle(p: Program, cx: Cx, st: Cst, ms: seq<nat>, bound: nat): (o: Out)
    requires WellFormed(p)
    requires forall k :: 0 <= k < |ms| ==> MemberBelow(p, ms[k], bound)
    ensures Grows(st, o.code, o.st)
    decreases bound, 0, 2
  {
    var b := CMembers(p, cx, st, ms, bound);
    SizeSnoc(b.code, Jump(-(Size(b.code) + 5)));
    Out(b.code + [Jump(-(Size(b.code) + 5))], EmitOp(b.st, Jump(0)))
  }

  function CRegion(p: Program, cx: Cx, st: Cst, region: nat, bound: nat): (o: Out)
    requires WellFormed(p) && RegionBelow(p, region, bound)
    ensures Grows(st, o.code, o.st)
    decreases bound, 0, 2
  {
    if region == INVALID then Out([], st) else CMembers(p, cx, st, Members(p.g, region), bound)
  }

  function CMembers(p: Program, cx: Cx, st: Cst, ms: seq<nat>, bound: nat): (o: Out)
    requires WellFormed(p)
    requires forall k :: 0 <= k < |ms| ==> MemberBelow(p, ms[k], bound)
    ensures Grows(st, o.code, o.st)
    decreases bound, 0, 1, |ms|
  {
    if ms == [] then Out([], st)
    else
      assert MemberBelow(p, ms[0], bound);
      var k := p.g.nodes[ms[0]].kind;
      var m := if k.Param? || IsExprNode(k) then Out([], st) else CNode(p, cx, st, ms[0]);
      var rest := CMembers(p, cx, m.st, ms[1..], bound);
      SizeConcat(m.code, rest.code);
      Out(m.code + rest.code, rest.st)
  }

  // ----- Functions -----

  function Params(g: Graph, ms: seq<nat>): (r: seq<string>)
    requires forall k :: 0 <= k < |ms| ==> ms[k] < |g.nodes|
  {
    if ms == [] then []
    else if g.nodes[ms[0]].kind.Param? then [g.nodes[ms[0]].kind.name] + Params(g, ms[1..])
    else Params(g, ms[1..])
  }

  /** Appends a null return unless the last byte emitted is the return opcode. */
  function CloseFunction(o: Out): Out {
    var bytes := EncodeAll(o.code);
    if |bytes| == 0 || bytes[|bytes| - 1] != OP_RETURN then
      var k := EmitConst(o.st, NullConst);
      Out(o.code + k.code + [Return], EmitOp(k.st, Return))
    else o
  }

  datatype FuncOut = FuncOut(code: seq<Instr>, st: Cst, rec: FuncRecord)

  function FuncParams(p: Program, f: nat): seq<string>
    requires WellFormed(p) && f < |p.g.nodes| && p.g.nodes[f].kind.FuncDef?
  {
    assert NodeIndexed(p.g, f);
    assert RegionIndexed(p.g, p.g.nodes[f].kind.body);
    Params(p.g, Members(p.g, p.g.nodes[f].kind.body))
  }

  /** State at the start of a body: only the parameters are locals. */
  function EnterFunction(p: Program, st: Cst, f: nat): Cst
    requires WellFormed(p) && f < |p.g.nodes| && p.g.nodes[f].kind.FuncDef?
  {
    st.(pool := Intern(st.pool, StrConst(p.g.nodes[f].kind.name)),
        locals := FuncParams(p, f), depth := 0, max := 0)
  }

  function CBody(p: Program, cx: Cx, st: Cst, f: nat): (o: Out)
    requires WellFormed(p) && f < |p.g.nodes| && p.g.nodes[f].kind.FuncDef?
  {
    WholeRegionBelow(p, p.g.nodes[f].kind.body);
    CRegion(p, cx, EnterFunction(p, st, f), p.g.nodes[f].kind.body, p.top)
  }

  function CFunc(p: Program, cx: Cx, st: Cst, f: nat): (o: FuncOut)
    requires WellFormed(p) && f < |p.g.nodes| && p.g.nodes[f].kind.FuncDef?
    ensures o.rec.codeOffset == st.len
  {
    var o := CloseFunction(CBody(p, cx, st, f));
    FuncOut(o.code, o.st,
            FuncRecord(FindConst(st.pool, StrConst(p.g.nodes[f].kind.name)), p.g.nodes[f].kind.arity,
                       |o.st.locals|, Truncate16(o.st.max), st.len, Size(o.code)))
  }

  function Truncate16(v: int): nat { v % 65536 }

  // ----- Programs -----

  /** The function definitions in node order. */
  function FuncIds(g: Graph, i: nat): (r: seq<nat>)
    requires i <= |g.nodes|
    ensures forall k :: 0 <= k < |r| ==> i <= r[k] < |g.nodes| && g.nodes[r[k]].kind.FuncDef?
    decreases |g.nodes| - i
  {
    if i == |g.nodes| then []
    else if g.nodes[i].kind.FuncDef? then [i] + FuncIds(g, i + 1)
    else FuncIds(g, i + 1)
  }

  function Names(g: Graph, ids: seq<nat>): (r: seq<string>)
    requires forall k :: 0 <= k < |ids| ==> ids[k] < |g.nodes| && g.nodes[ids[k]].kind.FuncDef?
    ensures |r| == |ids|
  {
    seq(|ids|, k requires 0 <= k < |ids| => g.nodes[ids[k]].kind.name)
  }

  /** The code so far, the state, and the function table. */
  datatype Unit = Unit(code: seq<Instr>, st: Cst, funcs: seq<FuncRecord>)

  const EMPTY: Unit := Unit([], Cst([], [], false, 0, 0, 0, []), [])

  /** Registers every function under its name so that calls resolve in any order. */
  function Register(g: Graph, u: Unit, ids: seq<nat>): (r: Unit)
    requires forall k :: 0 <= k < |ids| ==> ids[k] < |g.nodes| && g.nodes[ids[k]].kind.FuncDef?
    decreases ids
  {
    if ids == [] then u
    else
      var k := g.nodes[ids[0]].kind;
      var c := StrConst(k.name);
      Register(g, u.(st := u.st.(pool := Intern(u.st.pool, c)),
                     funcs := u.funcs + [FuncRecord(FindConst(u.st.pool, c), k.arity, 0, 0, 0, 0)]), ids[1..])
  }

  /** First record with a name, |funcs| if there is none. */
  function FindRecord(funcs: seq<FuncRecord>, nameIdx: nat): (i: nat)
    ensures i <= |funcs|
    ensures i < |funcs| ==> funcs[i].nameIdx == nameIdx
    ensures forall k :: 0 <= k < i ==> funcs[k].nameIdx != nameIdx
  {
    if funcs == [] then 0
    else if funcs[0].nameIdx == nameIdx then 0
    else 1 + FindRecord(funcs[1..], nameIdx)
  }

  /** Compiles one function into its registered record. */
  function AddFunction(p: Program, names: seq<string>, u: Unit, f: nat): (r: Unit)
    requires WellFormed(p) && f < |p.g.nodes| && p.g.nodes[f].kind.FuncDef?
  {
    var k := p.g.nodes[f].kind;
    var i := FindRecord(u.funcs, FindConst(u.st.pool, StrConst(k.name)));
    var o := CFunc(p, Cx(names, i), u.st, f);
    Unit(u.code + o.code, o.st, if i < |u.funcs| then u.funcs[i := o.rec] else u.funcs + [o.rec])
  }

  function AddFunctions(p: Program, names: seq<string>, u: Unit, ids: seq<nat>): (r: Unit)
    requires WellFormed(p)
    requires forall k :: 0 <= k < |ids| ==> ids[k] < |p.g.nodes| && p.g.nodes[ids[k]].kind.FuncDef?
    decreases ids
  {
    if ids == [] then u
    else AddFunctions(p, names, AddFunction(p, names, u, ids[0]), ids[1..])
  }

  function CRootMembers(p: Program, cx: Cx, st: Cst, ms: seq<nat>): (o: Out)
    requires WellFormed(p)
    requires forall k :: 0 <= k < |ms| ==> MemberBelow(p, ms[k], p.top)
    ensures Grows(st, o.code, o.st)
    decreases ms
  {
    if ms == [] then Out([], st)
    else
      assert MemberBelow(p, ms[0], p.top);
      var k := p.g.nodes[ms[0]].kind;
      var m := if k.FuncDef? || k.RootOutput? || IsExprNode(k) then Out([], st) else CNode(p, cx, st, ms[0]);
      var rest := CRootMembers(p, cx, m.st, ms[1..]);
      SizeConcat(m.code, rest.code);
      Out(m.code + rest.code, rest.st)
  }

  predicate HasOutput(g: Graph)
    requires g.output == INVALID || g.output < |g.nodes|
  {
    g.output != INVALID && g.nodes[g.output].kind.RootOutput?
  }

  /** The root statements, then the output value printed and left on the stack, then a halt. */
  function CMain(p: Program, cx: Cx, st: Cst): (o: Out)
    requires WellFormed(p)
    ensures Grows(st, o.code, o.st)
  {
    WholeRegionBelow(p, p.g.root);
    var b := CRootMembers(p, cx, st, Members(p.g, p.g.root));
    if HasOutput(p.g) then PrintAndHalt(st, b, CNode(p, cx, b.st, p.g.output))
    else
      SizeSnoc(b.code, Halt);
      Out(b.code + [Halt], EmitOp(b.st, Halt))
  }

  function PrintAndHalt(ghost st: Cst, b: Out, v: Out): (o: Out)
    requires Grows(st, b.code, b.st) && Grows(b.st, v.code, v.st)
    ensures Grows(st, o.code, o.st)
  {
    SizeConcat(b.code, v.code);
    ThreeMore(b.code + v.code, Dup, Intrinsic(INTRINSIC_PRINT, 1), Halt);
    Out(b.code + v.code + [Dup, Intrinsic(INTRINSIC_PRINT, 1), Halt],
        EmitOp(EmitPrint(EmitOp(v.st, Dup)), Halt))
  }

  /** Function indices move up by one when main takes index 0. */
  function Relocate(d: nat, ins: seq<Instr>): (r: seq<Instr>)
    ensures |r| == |ins|
  {
    seq(|ins|, k requires 0 <= k < |ins| => RelocateOne(d, ins[k]))
  }

  function RelocateOne(d: nat, i: Instr): (r: Instr)
    ensures r.Size() == i.Size()
  {
    if i.Call? then i.(func := i.func + d) else i
  }

  function ShiftDebug(debug: seq<DebugEntry>, mainStart: nat): (r: seq<DebugEntry>)
    ensures |r| == |debug|
  {
    seq(|debug|, k requires 0 <= k < |debug| =>
      if debug[k].start < mainStart then debug[k].(funcIdx := debug[k].funcIdx + 1) else debug[k])
  }

  /** Everything before main is added. */
  function Functions(p: Program): (u: Unit)
    requires WellFormed(p)
  {
    var ids := FuncIds(p.g, 0);
    AddFunctions(p, Names(p.g, ids), Register(p.g, EMPTY, ids), ids)
  }

  /** State at the start of main. */
  function EnterMain(st: Cst): Cst {
    st.(pool := Intern(st.pool, StrConst("main")), locals := [], depth := 0, max := 0)
  }

  function MainCode(p: Program): (o: Out)
    requires WellFormed(p)
  {
    CMain(p, Cx(Names(p.g, FuncIds(p.g, 0)), 0), EnterMain(Functions(p).st))
  }

  datatype Compiled = Compiled(image: Image, success: bool)

  function Compile(p: Program): (r: Compiled)
    requires WellFormed(p)
  {
    var u := Functions(p);
    var m := MainCode(p);
    var code := u.code + m.code;
    var rec := FuncRecord(FindConst(u.st.pool, StrConst("main")), 0, |m.st.locals|, Truncate16(m.st.max),
                          u.st.len, Size(m.code));
    Compiled(
      if |u.funcs| > 0
      then Image(m.st.pool, [rec] + u.funcs, EncodeAll(Relocate(1, code)), ShiftDebug(m.st.debug, u.st.len))
      else Image(m.st.pool, [rec], EncodeAll(code), m.st.debug),
      !m.st.err)
  }
}
