/**
 What inferred types promise about evaluation. Expressions are evaluated here with
 everything the types say nothing about left open: float literals and float operations,
 variables, calls, and the state calls change. The reference interpreter is one such
 meaning (see EvaluateIsEval), one without floats.
 */
module TypeSoundness {
  import opened Values
  import opened SemanticGraph
  import opened Interpreter
  import opened Validation
  import opened TypeInference

  /** A value of the interpreter or an opaque float. */
  datatype Datum = Plain(v: Value) | Float(f: nat)

  /** `W` is what evaluation reads and changes besides values. */
  datatype Meaning<!W> = Meaning(
    literal: nat -> Option<nat>,
    arithmetic: (BinOp, nat, nat) -> nat,
    compare: (BinOp, nat, nat) -> bool,
    equal: (Datum, Datum) -> bool,
    negate: nat -> nat,
    truthy: nat -> bool,
    variable: (W, string) -> Option<Datum>,
    call: (W, nat) -> Evaluated<W>)

  /** No value is a run-time error. */
  datatype Evaluated<W> = Evaluated(w: W, v: Option<Datum>)

  // ----- Operators -----

  function Given(v: Option<Value>): Option<Datum> { if v.Some? then Some(Plain(v.value)) else None }

  predicate Truth<W>(m: Meaning<W>, d: Datum) { if d.Float? then m.truthy(d.f) else Truthy(d.v) }

  /** Two floats, or two values the interpreter computes with; an integer and a float are a type mismatch. */
  function Binary<W>(m: Meaning<W>, extended: bool, op: BinOp, l: Datum, r: Datum): Option<Datum> {
    if l.Plain? && r.Plain? then Given(InterpBinary(extended, op, l.v, r.v))
    else if op.Eq? then Some(Plain(Bool(m.equal(l, r))))
    else if op.Neq? then Some(Plain(Bool(!m.equal(l, r))))
    else if !l.Float? || !r.Float? then None
    else if op.Comparison() then Some(Plain(Bool(m.compare(op, l.f, r.f))))
    else if op.Arithmetic() && !op.Mod? then Some(Float(m.arithmetic(op, l.f, r.f)))
    else None
  }

  function Unary<W>(m: Meaning<W>, extended: bool, op: UnOp, d: Datum): Option<Datum> {
    if d.Plain? then Given(InterpUnary(extended, op, d.v))
    else if op.Neg? then Some(Float(m.negate(d.f)))
    else if op.Not? then Some(Plain(Bool(!m.truthy(d.f))))
    else None
  }

  // ----- Evaluation -----

  function Evaluate<W>(p: Program, m: Meaning<W>, w: W, n: nat): Evaluated<W>
    requires WellFormed(p) && n < |p.g.nodes|
    decreases p.rank[n], 2
  {
    match p.g.nodes[n].kind
    case ConstInt(i) => Evaluated(w, Some(Plain(I64(i))))
    case ConstBool(b) => Evaluated(w, Some(Plain(Bool(b))))
    case ConstNull => Evaluated(w, Some(Plain(Null)))
    case Construct(c) =>
      Evaluated(w, if c.FloatLiteral? && m.literal(n).Some? then Some(Float(m.literal(n).value)) else None)
    case VarRef(name) => Evaluated(w, m.variable(w, name))
    case BinaryNode(op) =>
      OperandBelow(p, n, 0);
      OperandBelow(p, n, 1);
      var l := EvaluateSource(p, m, w, n, InterpOperand(p.g, n, 0));
      if l.v.None? then l
      else
        var r := EvaluateSource(p, m, l.w, n, InterpOperand(p.g, n, 1));
        if r.v.None? then r else Evaluated(r.w, Binary(m, p.extended, op, l.v.value, r.v.value))
    case UnaryNode(op) =>
      RoleBelow(p, n, "value");
      var v := EvaluateSource(p, m, w, n, InputSource(p.g, n, "value"));
      if v.v.None? then v else Evaluated(v.w, Unary(m, p.extended, op, v.v.value))
    case And => if p.extended then EvaluateShortCircuit(p, m, w, n, false) else Evaluated(w, None)
    case Or => if p.extended then EvaluateShortCircuit(p, m, w, n, true) else Evaluated(w, None)
    case FuncCall(_) => m.call(w, n)
    case RootOutput =>
      RoleBelow(p, n, "value");
      EvaluateSource(p, m, w, n, InputSource(p.g, n, "value"))
    case _ => Evaluated(w, None)
  }

  /** An unconnected input is null. */
  function EvaluateSource<W>(p: Program, m: Meaning<W>, w: W, n: nat, s: nat): Evaluated<W>
    requires WellFormed(p) && n < |p.g.nodes|
    requires s == INVALID || (s < |p.g.nodes| && p.rank[s] < p.rank[n])
    decreases p.rank[n], 0
  {
    if s == INVALID then Evaluated(w, Some(Plain(Null))) else Evaluate(p, m, w, s)
  }

  function EvaluateShortCircuit<W>(p: Program, m: Meaning<W>, w: W, n: nat, isOr: bool): Evaluated<W>
    requires WellFormed(p) && n < |p.g.nodes|
    decreases p.rank[n], 1
  {
    RoleBelow(p, n, "lhs");
    RoleBelow(p, n, "rhs");
    var l := EvaluateSource(p, m, w, n, RoleSource(p.g, n, "lhs"));
    if l.v.None? || Truth(m, l.v.value) == isOr then l
    else EvaluateSource(p, m, l.w, n, RoleSource(p.g, n, "rhs"))
  }

  // ----- The interpreter's meaning -----

  function Outcome(r: Res): Evaluated<Io> { Evaluated(r.io, if r.io.err then None else Some(Plain(r.v))) }

  /** The interpreter in a frame: no float literals, its variables, its calls. */
  ghost function Actual(p: Program, c: Ctx, vars: Vars): Meaning<Io>
    requires WellFormed(p) && c.fp <= FRAMES_MAX
  {
    Meaning(
      (n: nat) => None,
      (op: BinOp, a: nat, b: nat) => 0,
      (op: BinOp, a: nat, b: nat) => false,
      (a: Datum, b: Datum) => false,
      (a: nat) => 0,
      (a: nat) => false,
      (io: Io, name: string) => if FindVar(vars, name) >= 0 then Some(Plain(vars[FindVar(vars, name)].1)) else None,
      (io: Io, n: nat) =>
        if n < |p.g.nodes| && p.g.nodes[n].kind.FuncCall? && !io.err && !io.returned
        then Outcome(EvalCall(p, c, vars, io, n, p.g.nodes[n].kind.name)) else Evaluated(io, None))
  }

  /** Evaluation and the interpreter: the same value and effects, or an error on both sides. */
  predicate SameResult(r: Res, e: Evaluated<Io>) {
    if r.io.err then e.v.None? else e == Evaluated(r.io, Some(Plain(r.v)))
  }

  lemma {:induction false} EvaluateIsEval(p: Program, c: Ctx, vars: Vars, io: Io, n: nat)
    requires WellFormed(p) && n < |p.g.nodes| && c.fp <= FRAMES_MAX && !io.err && !io.returned
    ensures SameResult(EvalNode(p, c, vars, io, n), Evaluate(p, Actual(p, c, vars), io, n))
    decreases p.rank[n], 2
  {
    hide Ranked; hide Indexed; hide EvalCall; hide InterpBinary; hide InterpUnary; hide InputSource; hide InterpOperand; hide FindSource;
    var m := Actual(p, c, vars);
    var k := p.g.nodes[n].kind;
    if k.BinaryNode? {
      OperandBelow(p, n, 0);
      OperandBelow(p, n, 1);
      SourceIsEval(p, c, vars, io, n, InterpOperand(p.g, n, 0));
      var l := EvalSource(p, c, vars, io, n, InterpOperand(p.g, n, 0));
      if !l.io.err {
        SourceIsEval(p, c, vars, l.io, n, InterpOperand(p.g, n, 1));
      }
    } else if k.UnaryNode? || k.RootOutput? {
      RoleBelow(p, n, "value");
      SourceIsEval(p, c, vars, io, n, InputSource(p.g, n, "value"));
    } else if k.And? || k.Or? {
      ShortCircuitIsEval(p, c, vars, io, n, k.Or?);
    }
  }

  lemma {:induction false} SourceIsEval(p: Program, c: Ctx, vars: Vars, io: Io, n: nat, s: nat)
    requires WellFormed(p) && n < |p.g.nodes| && c.fp <= FRAMES_MAX && !io.err && !io.returned
    requires s == INVALID || (s < |p.g.nodes| && p.rank[s] < p.rank[n])
    ensures SameResult(EvalSource(p, c, vars, io, n, s), EvaluateSource(p, Actual(p, c, vars), io, n, s))
    decreases p.rank[n], 0
  {
    hide EvalNode; hide Evaluate; hide Ranked; hide Indexed;
    if s != INVALID {
      EvaluateIsEval(p, c, vars, io, s);
    }
  }

  lemma {:induction false} ShortCircuitIsEval(p: Program, c: Ctx, vars: Vars, io: Io, n: nat, isOr: bool)
    requires WellFormed(p) && n < |p.g.nodes| && c.fp <= FRAMES_MAX && !io.err && !io.returned
    ensures SameResult(EvalShortCircuit(p, c, vars, io, n, isOr), EvaluateShortCircuit(p, Actual(p, c, vars), io, n, isOr))
    decreases p.rank[n], 1
  {
    hide EvalNode; hide Evaluate; hide Ranked; hide Indexed; hide RoleSource;
    RoleBelow(p, n, "lhs");
    RoleBelow(p, n, "rhs");
    SourceIsEval(p, c, vars, io, n, RoleSource(p.g, n, "lhs"));
    var l := EvalSource(p, c, vars, io, n, RoleSource(p.g, n, "lhs"));
    if !l.io.err && Truthy(l.v) != isOr {
      SourceIsEval(p, c, vars, l.io, n, RoleSource(p.g, n, "rhs"));
    }
  }

  // ----- What a type promises -----

  predicate HasType(d: Datum, t: Type) {
    match t
    case AnyType => true
    case NullType => d == Plain(Null)
    case BoolType => d.Plain? && d.v.Bool?
    case IntType => d.Plain? && d.v.I64?
    case FloatType => d.Float?
    case _ => false
  }

  /** Arithmetic nodes that order their ports order the inputs their roles name. */
  ghost predicate RolesInOrder(g: Graph)
    requires Indexed(g)
  {
    forall n :: 0 <= n < |g.nodes| && g.nodes[n].kind.BinaryNode? && g.nodes[n].kind.bop.Arithmetic() ==> NodeInOrder(g, n)
  }

  ghost predicate NodeInOrder(g: Graph, n: nat)
    requires Indexed(g) && n < |g.nodes|
  {
    InterpOperand(g, n, 0) == InputSource(g, n, "lhs") && InterpOperand(g, n, 1) == InputSource(g, n, "rhs")
  }

  /** An unconnected input has type Unknown and evaluates to null. */
  predicate Fits(d: Datum, t: Type) { if t.Unknown? then d == Plain(Null) else HasType(d, t) }

  lemma BinarySound<W>(m: Meaning<W>, extended: bool, op: BinOp, l: Datum, r: Datum, lt: Type, rt: Type)
    requires op.Arithmetic() ==> (lt.NullType? || Fits(l, lt)) && (rt.NullType? || Fits(r, rt))
    requires Binary(m, extended, op, l, r).Some?
    ensures HasType(Binary(m, extended, op, l, r).value, BinaryRule(op, lt, rt).t)
  {
    hide Wrap; hide TruncDiv; hide TruncRem; hide IntBits;
  }

  lemma UnarySound<W>(m: Meaning<W>, extended: bool, op: UnOp, d: Datum, t: Type)
    requires t.NullType? || Fits(d, t)
    requires Unary(m, extended, op, d).Some?
    ensures HasType(Unary(m, extended, op, d).value, UnaryRule(op, t).t)
  {
  }

  /** The value of an evaluation without error has the inferred type, if arithmetic orders its ports as its roles. */
  lemma {:induction false} TypeSound<W>(p: Program, m: Meaning<W>, w: W, n: nat)
    requires WellFormed(p) && n < |p.g.nodes| && RolesInOrder(p.g)
    requires !p.g.nodes[n].kind.RootOutput? && Evaluate(p, m, w, n).v.Some?
    ensures HasType(Evaluate(p, m, w, n).v.value, Judge(p, n).t)
    decreases p.rank[n], 1
  {
    hide Ranked; hide Indexed; hide Binary; hide Unary; hide BinaryRule; hide UnaryRule; hide InputSource; hide InterpOperand;
    hide EvaluateShortCircuit;
    var k := p.g.nodes[n].kind;
    if k.BinaryNode? {
      OperandBelow(p, n, 0);
      OperandBelow(p, n, 1);
      var l := EvaluateSource(p, m, w, n, InterpOperand(p.g, n, 0));
      var r := EvaluateSource(p, m, l.w, n, InterpOperand(p.g, n, 1));
      if k.bop.Arithmetic() {
        assert NodeInOrder(p.g, n);
        InputSound(p, m, w, n, "lhs");
        InputSound(p, m, l.w, n, "rhs");
      }
      BinarySound(m, p.extended, k.bop, l.v.value, r.v.value, InputType(p, n, "lhs"), InputType(p, n, "rhs"));
    } else if k.UnaryNode? {
      RoleBelow(p, n, "value");
      var v := EvaluateSource(p, m, w, n, InputSource(p.g, n, "value"));
      InputSound(p, m, w, n, "value");
      UnarySound(m, p.extended, k.uop, v.v.value, InputType(p, n, "value"));
    }
  }

  /** A root output node fed back has type null, whatever it carries. */
  lemma {:induction false} InputSound<W>(p: Program, m: Meaning<W>, w: W, n: nat, role: string)
    requires WellFormed(p) && n < |p.g.nodes| && RolesInOrder(p.g)
    ensures var s := InputSource(p.g, n, role); s == INVALID || p.rank[s] < p.rank[n]
    ensures var v := EvaluateSource(p, m, w, n, InputSource(p.g, n, role)).v;
            v.Some? ==> InputType(p, n, role).NullType? || Fits(v.value, InputType(p, n, role))
    decreases p.rank[n], 0
  {
    hide Ranked; hide Indexed; hide Evaluate; hide InputSource;
    RoleBelow(p, n, role);
    var s := InputSource(p.g, n, role);
    if s != INVALID && !p.g.nodes[s].kind.RootOutput? && Evaluate(p, m, w, s).v.Some? {
      TypeSound(p, m, w, s);
    } else if s != INVALID && p.g.nodes[s].kind.RootOutput? {
      OutputType(p, s);
    }
  }

  lemma OutputType(p: Program, n: nat)
    requires WellFormed(p) && n < |p.g.nodes| && p.g.nodes[n].kind.RootOutput?
    ensures Judge(p, n).t == NullType
  {
  }

  /** In particular the interpreter's values have their inferred types. */
  lemma {:induction false} InterpretedType(p: Program, c: Ctx, vars: Vars, io: Io, n: nat)
    requires WellFormed(p) && n < |p.g.nodes| && c.fp <= FRAMES_MAX && RolesInOrder(p.g)
    requires !p.g.nodes[n].kind.RootOutput? && !io.err && !io.returned && !EvalNode(p, c, vars, io, n).io.err
    ensures HasType(Plain(EvalNode(p, c, vars, io, n).v), Judge(p, n).t)
  {
    hide EvalNode; hide Evaluate; hide Judge; hide RolesInOrder; hide Ranked; hide Indexed;
    EvaluateIsEval(p, c, vars, io, n);
    TypeSound(p, Actual(p, c, vars), io, n);
  }

  // ----- What no report promises -----

  /** Operators that cannot fail on operands of these types: both integers or both floats, and no integer division. */
  predicate Total(op: BinOp, l: Type, r: Type) {
    op.Eq? || op.Neq? ||
    ((op.Comparison() || op.Arithmetic()) && l == r && !op.Mod? && (op.Div? ==> l.FloatType?))
  }

  /** Constants and total operators, unreported all the way down. */
  ghost predicate Scalar<W>(p: Program, m: Meaning<W>, n: nat)
    requires WellFormed(p) && n < |p.g.nodes|
    decreases p.rank[n], 1
  {
    !Judge(p, n).bad &&
    match p.g.nodes[n].kind
    case ConstInt(_) => true
    case ConstBool(_) => true
    case ConstNull => true
    case Construct(c) => c.FloatLiteral? && m.literal(n).Some?
    case BinaryNode(op) =>
      Total(op, InputType(p, n, "lhs"), InputType(p, n, "rhs")) && ScalarInput(p, m, n, "lhs") && ScalarInput(p, m, n, "rhs") &&
      NodeInOrder(p.g, n)
    case UnaryNode(op) => !op.BitNot? && ScalarInput(p, m, n, "value")
    case _ => false
  }

  ghost predicate ScalarInput<W>(p: Program, m: Meaning<W>, n: nat, role: string)
    requires WellFormed(p) && n < |p.g.nodes|
    decreases p.rank[n], 0
  {
    RoleBelow(p, n, role);
    var s := InputSource(p.g, n, role);
    s == INVALID || Scalar(p, m, s)
  }

  predicate Simple(t: Type) { t.Unknown? || t.NullType? || t.BoolType? || t.IntType? || t.FloatType? }

  lemma BinaryRuns<W>(m: Meaning<W>, extended: bool, op: BinOp, l: Datum, r: Datum, lt: Type, rt: Type)
    requires Total(op, lt, rt) && Simple(lt) && Simple(rt) && Fits(l, lt) && Fits(r, rt) && !BinaryRule(op, lt, rt).bad
    ensures var v, t := Binary(m, extended, op, l, r), BinaryRule(op, lt, rt).t;
            v.Some? && HasType(v.value, t) && Simple(t) && !t.Unknown?
  {
    hide Wrap;
  }

  lemma UnaryRuns<W>(m: Meaning<W>, extended: bool, op: UnOp, d: Datum, t: Type)
    requires !op.BitNot? && Simple(t) && Fits(d, t) && !UnaryRule(op, t).bad
    ensures var v, u := Unary(m, extended, op, d), UnaryRule(op, t).t;
            v.Some? && HasType(v.value, u) && Simple(u) && !u.Unknown?
  {
  }

  /** Such expressions evaluate to a value of their type, without an error and without changing anything. */
  lemma {:induction false} WellTypedEvaluates<W>(p: Program, m: Meaning<W>, w: W, n: nat)
    requires WellFormed(p) && n < |p.g.nodes| && Scalar(p, m, n)
    ensures var e := Evaluate(p, m, w, n); e.w == w && e.v.Some? && HasType(e.v.value, Judge(p, n).t)
    ensures Simple(Judge(p, n).t)
    decreases p.rank[n], 1
  {
    hide Ranked; hide Indexed; hide Binary; hide Unary; hide BinaryRule; hide UnaryRule; hide InputSource; hide InterpOperand; hide Total;
    hide EvaluateShortCircuit;
    var k := p.g.nodes[n].kind;
    if k.BinaryNode? {
      InputEvaluates(p, m, w, n, "lhs");
      InputEvaluates(p, m, w, n, "rhs");
      var l := EvaluateSource(p, m, w, n, InputSource(p.g, n, "lhs")).v.value;
      var r := EvaluateSource(p, m, w, n, InputSource(p.g, n, "rhs")).v.value;
      BinaryRuns(m, p.extended, k.bop, l, r, InputType(p, n, "lhs"), InputType(p, n, "rhs"));
    } else if k.UnaryNode? {
      InputEvaluates(p, m, w, n, "value");
      UnaryRuns(m, p.extended, k.uop, EvaluateSource(p, m, w, n, InputSource(p.g, n, "value")).v.value, InputType(p, n, "value"));
    }
  }

  lemma {:induction false} InputEvaluates<W>(p: Program, m: Meaning<W>, w: W, n: nat, role: string)
    requires WellFormed(p) && n < |p.g.nodes| && ScalarInput(p, m, n, role)
    ensures var s := InputSource(p.g, n, role); s == INVALID || p.rank[s] < p.rank[n]
    ensures var e := EvaluateSource(p, m, w, n, InputSource(p.g, n, role));
            e.w == w && e.v.Some? && Fits(e.v.value, InputType(p, n, role))
    ensures Simple(InputType(p, n, role))
    decreases p.rank[n], 0
  {
    hide Evaluate; hide Judge; hide Scalar;
    RoleBelow(p, n, role);
    if InputSource(p.g, n, role) != INVALID {
      WellTypedEvaluates(p, m, w, InputSource(p.g, n, role));
    }
  }

  /** An integer and a float under arithmetic or an order go unreported, and never evaluate. */
  lemma {:induction false} MixedNeverEvaluates<W>(p: Program, m: Meaning<W>, w: W, n: nat)
    requires WellFormed(p) && n < |p.g.nodes| && RolesInOrder(p.g) && NodeInOrder(p.g, n)
    requires p.g.nodes[n].kind.BinaryNode?
    requires var op := p.g.nodes[n].kind.bop; op.Arithmetic() || (op.Comparison() && !op.Eq? && !op.Neq?)
    requires Numeric(InputType(p, n, "lhs")) && Numeric(InputType(p, n, "rhs")) && InputType(p, n, "lhs") != InputType(p, n, "rhs")
    ensures !Judge(p, n).bad && Evaluate(p, m, w, n).v.None?
  {
    hide Ranked; hide Indexed; hide InputSource; hide InterpOperand; hide Evaluate; hide RolesInOrder;
    EvaluateBinary(p, m, w, n);
    OperandBelow(p, n, 0);
    var l := EvaluateSource(p, m, w, n, InterpOperand(p.g, n, 0));
    InputSound(p, m, w, n, "lhs");
    InputSound(p, m, l.w, n, "rhs");
  }

  lemma EvaluateBinary<W>(p: Program, m: Meaning<W>, w: W, n: nat)
    requires WellFormed(p) && n < |p.g.nodes| && p.g.nodes[n].kind.BinaryNode?
    ensures InterpOperand(p.g, n, 0) == INVALID || p.rank[InterpOperand(p.g, n, 0)] < p.rank[n]
    ensures InterpOperand(p.g, n, 1) == INVALID || p.rank[InterpOperand(p.g, n, 1)] < p.rank[n]
    ensures var l := EvaluateSource(p, m, w, n, InterpOperand(p.g, n, 0));
            var r := EvaluateSource(p, m, l.w, n, InterpOperand(p.g, n, 1));
            Evaluate(p, m, w, n).v ==
            if l.v.None? || r.v.None? then None else Binary(m, p.extended, p.g.nodes[n].kind.bop, l.v.value, r.v.value)
  {
    hide Ranked; hide Indexed; hide Binary; hide EvaluateSource;
    OperandBelow(p, n, 0);
    OperandBelow(p, n, 1);
  }

  // ----- Port order against roles -----

  /**
   Two additions whose port order puts other inputs first than "lhs" and "rhs": node 0
   has floats at its roles and integers first in order, node 1 the other way round.
   */
  const MIXED: Graph := Graph(
    [Node(0, BinaryNode(Add), 0, 0, [0, 1, 2, 3], [2, 3, 0, 1]),
     Node(1, BinaryNode(Add), 0, 0, [4, 5, 6, 7], [6, 7, 4, 5]),
     Node(2, Construct(FloatLiteral), 0, 0, [8], []),
     Node(3, ConstInt(1), 0, 0, [9], [])],
    [Port(0, 0, Dir.Input, Some("lhs")), Port(1, 0, Dir.Input, Some("rhs")), Port(2, 0, Dir.Input, Some("a")), Port(3, 0, Dir.Input, Some("b")),
     Port(4, 1, Dir.Input, Some("lhs")), Port(5, 1, Dir.Input, Some("rhs")), Port(6, 1, Dir.Input, Some("a")), Port(7, 1, Dir.Input, Some("b")),
     Port(8, 2, Output, None), Port(9, 3, Output, None)],
    [Edge(0, 8, 0), Edge(1, 8, 1), Edge(2, 9, 2), Edge(3, 9, 3), Edge(4, 9, 4), Edge(5, 9, 5), Edge(6, 8, 6), Edge(7, 8, 7)],
    [Region(0, INVALID, [0, 1, 2, 3])],
    0, INVALID)

  const MIXING: Program := Program(MIXED, [1, 1, 0, 0], 2, false)

  lemma MixedIndexed()
    ensures Indexed(MIXED)
  {
  }

  lemma MixedValid()
    ensures ValidGraph(MIXED)
  {
    assert Up(MIXED, 0, 0) == 0 && Up(MIXED, 0, 1) == INVALID;
    assert EndsWithin(MIXED, 0, 1);
    EndingIsNoCycle(MIXED, 0);
  }

  /** The edge into input port `k` is the `k`-th. */
  lemma {:induction false} MixedEdge(k: nat, i: nat)
    requires Indexed(MIXED) && i <= k < 8
    ensures SourceFrom(MIXED, k, i) == MIXED.ports[MIXED.edges[k].from].owner
    decreases k - i
  {
    hide Indexed;
    assert MIXED.edges[i].to == i;
    if i < k {
      MixedEdge(k, i + 1);
    }
  }

  lemma MixedSources()
    ensures Indexed(MIXED)
    ensures FindSource(MIXED, 0) == 2 && FindSource(MIXED, 1) == 2 && FindSource(MIXED, 2) == 3 && FindSource(MIXED, 3) == 3
    ensures FindSource(MIXED, 4) == 3 && FindSource(MIXED, 5) == 3 && FindSource(MIXED, 6) == 2 && FindSource(MIXED, 7) == 2
  {
    MixedIndexed();
    hide Indexed;
    MixedEdge(0, 0);
    MixedEdge(1, 0);
    MixedEdge(2, 0);
    MixedEdge(3, 0);
    MixedEdge(4, 0);
    MixedEdge(5, 0);
    MixedEdge(6, 0);
    MixedEdge(7, 0);
  }

  lemma {:induction false} MixedNoEdge(port: nat, i: nat)
    requires Indexed(MIXED) && port >= 8 && i <= 8
    ensures SourceFrom(MIXED, port, i) == INVALID
    decreases 8 - i
  {
    hide Indexed;
    if i < 8 {
      assert MIXED.edges[i].to == i;
      MixedNoEdge(port, i + 1);
    }
  }

  lemma MixedWellFormed()
    ensures WellFormed(MIXING)
  {
    MixedSources();
    MixedNoEdge(8, 0);
    MixedNoEdge(9, 0);
    hide Indexed;
    forall n | 0 <= n < 4 ensures Ranked(MIXING, n) {
      assert n == 0 || n == 1 || n == 2 || n == 3;
    }
  }

  lemma MixedRoles()
    ensures Indexed(MIXED)
    ensures InputSource(MIXED, 0, "lhs") == 2 && InputSource(MIXED, 0, "rhs") == 2
    ensures InputSource(MIXED, 1, "lhs") == 3 && InputSource(MIXED, 1, "rhs") == 3
  {
    MixedSources();
    hide FindSource; hide Indexed;
    var a, b := MIXED.nodes[0].ports, MIXED.nodes[1].ports;
    assert FindPort(MIXED, 0, "lhs") == PortFrom(MIXED, a, "lhs", 0) == 0;
    assert FindPort(MIXED, 0, "rhs") == PortFrom(MIXED, a, "rhs", 0) == PortFrom(MIXED, a, "rhs", 1) == 1;
    assert FindPort(MIXED, 1, "lhs") == PortFrom(MIXED, b, "lhs", 0) == 4;
    assert FindPort(MIXED, 1, "rhs") == PortFrom(MIXED, b, "rhs", 0) == PortFrom(MIXED, b, "rhs", 1) == 5;
  }

  lemma MixedOrder()
    ensures Indexed(MIXED)
    ensures InterpOperand(MIXED, 0, 0) == 3 && InterpOperand(MIXED, 0, 1) == 3
    ensures InterpOperand(MIXED, 1, 0) == 2 && InterpOperand(MIXED, 1, 1) == 2
  {
    MixedSources();
    hide FindSource; hide Indexed; hide InputSource;
    FirstInputs([2, 3, 0, 1]);
    FirstInputs([6, 7, 4, 5]);
  }

  lemma FirstInputs(ports: seq<nat>)
    requires Indexed(MIXED) && PortsIndexed(MIXED, ports) && |ports| == 4 && ports[0] < 8 && ports[1] < 8
    ensures var ins := InputPorts(MIXED, ports); |ins| >= 2 && ins[0] == ports[0] && ins[1] == ports[1]
  {
    hide Indexed;
    var rest := InputPorts(MIXED, ports[1..]);
    assert rest[0] == ports[1];
  }

  /** On a valid graph: node 0 is inferred float and evaluates to an integer, node 1 is inferred integer and evaluates to a float. */
  lemma {:induction false} MixedTypesFail<W>(m: Meaning<W>, w: W, f: nat)
    requires m.literal(2) == Some(f)
    ensures WellFormed(MIXING) && ValidGraph(MIXED) && !RolesInOrder(MIXED)
    ensures Judge(MIXING, 0) == Fine(FloatType) && Evaluate(MIXING, m, w, 0) == Evaluated(w, Some(Plain(I64(2))))
    ensures Judge(MIXING, 1) == Fine(IntType) && Evaluate(MIXING, m, w, 1) == Evaluated(w, Some(Float(m.arithmetic(Add, f, f))))
  {
    MixedValid();
    MixedWellFormed();
    MixedRoles();
    MixedOrder();
    hide InputSource; hide InterpOperand; hide Ranked; hide Indexed; hide ValidGraph;
    var p := MIXING;
    assert Judge(p, 2).t == FloatType && Judge(p, 3).t == IntType;
    assert Evaluate(p, m, w, 3) == Evaluated(w, Some(Plain(I64(1)))) && Evaluate(p, m, w, 2) == Evaluated(w, Some(Float(f)));
    assert !NodeInOrder(MIXED, 0);
  }
}
