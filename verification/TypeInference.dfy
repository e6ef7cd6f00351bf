/**
 The type checker: types by plain recursion over the graph, and the memoising pass
 that computes them.
 */
module TypeInference {
  import opened Values
  import opened SemanticGraph
  import opened Interpreter

  datatype Type = Unknown | NullType | BoolType | IntType | FloatType | StringType | ArrayType | MapType | ClosureType | AnyType

  predicate Numeric(t: Type) { t.IntType? || t.FloatType? }

  /** A type, and whether the node itself is reported. */
  datatype Verdict = Verdict(t: Type, bad: bool)

  function Fine(t: Type): Verdict { Verdict(t, false) }

  function Join(l: Type, r: Type): Type { if l.FloatType? || r.FloatType? then FloatType else IntType }

  // ----- The rules -----

  function AddRule(l: Type, r: Type): Verdict {
    if l.StringType? && r.StringType? then Fine(StringType) else ArithmeticRule(l, r)
  }

  function ArithmeticRule(l: Type, r: Type): Verdict {
    if Numeric(l) && Numeric(r) then Fine(Join(l, r))
    else if l.AnyType? || r.AnyType? then Fine(AnyType)
    else Verdict(AnyType, true)
  }

  function OrderRule(l: Type, r: Type): Verdict {
    Verdict(BoolType, (!Numeric(l) && !l.AnyType?) || (!Numeric(r) && !r.AnyType?))
  }

  predicate IntOrAny(t: Type) { t.IntType? || t.AnyType? }

  function BinaryRule(op: BinOp, l: Type, r: Type): Verdict {
    match op
    case Add => AddRule(l, r)
    case Sub => ArithmeticRule(l, r)
    case Mul => ArithmeticRule(l, r)
    case Div => ArithmeticRule(l, r)
    case Mod => ArithmeticRule(l, r)
    case Eq => Fine(BoolType)
    case Neq => Fine(BoolType)
    case Lt => OrderRule(l, r)
    case Le => OrderRule(l, r)
    case Gt => OrderRule(l, r)
    case Ge => OrderRule(l, r)
    case _ => Verdict(IntType, !IntOrAny(l) || !IntOrAny(r))
  }

  function UnaryRule(op: UnOp, t: Type): Verdict {
    match op
    case Neg => if Numeric(t) then Fine(t) else Verdict(AnyType, !t.AnyType?)
    case Not => Fine(BoolType)
    case BitNot => Verdict(IntType, !IntOrAny(t))
  }

  /** The kinds whose type does not depend on their inputs. */
  function FixedType(k: Kind): Type {
    match k
    case ConstInt(_) => IntType
    case ConstBool(_) => BoolType
    case ConstNull => NullType
    case If(_, _) => NullType
    case While(_) => NullType
    case Cycle(_) => NullType
    case Let(_) => NullType
    case Assign(_) => NullType
    case Sequence => NullType
    case RootOutput => NullType
    case Print => NullType
    case BreakIf => NullType
    case ReturnNode => NullType
    case Try(_, _) => NullType
    case FuncDef(_, _, _) => ClosureType
    case Construct(c) => ConstructType(c)
    case _ => AnyType
  }

  function ConstructType(c: Construct): Type {
    match c
    case FloatLiteral => FloatType
    case StringLiteral => StringType
    case CastToInt => IntType
    case CastToFloat => FloatType
    case CastToString => StringType
    case StringLength => IntType
    case StringSlice => StringType
    case StringIndex => StringType
    case Length => IntType
    case ArrayLiteral => ArrayType
    case MapLiteral => MapType
    case IndexGet => AnyType
    case IndexSet => NullType
    case Throwing => NullType
    case ClosureExpr => ClosureType
    case OtherExpression => AnyType
    case OtherStatement => AnyType
  }

  // ----- Plain recursion -----

  /** The verdict on a node; an unconnected input has type Unknown. */
  function Judge(p: Program, n: nat): (v: Verdict)
    requires WellFormed(p) && n < |p.g.nodes|
    ensures !v.t.Unknown?
    decreases p.rank[n], 1
  {
    match p.g.nodes[n].kind
    case BinaryNode(op) => BinaryRule(op, InputType(p, n, "lhs"), InputType(p, n, "rhs"))
    case UnaryNode(op) => UnaryRule(op, InputType(p, n, "value"))
    case Construct(c) =>
      if c.StringLength? then Verdict(IntType, !InputType(p, n, "value").StringType? && !InputType(p, n, "value").AnyType?)
      else Fine(ConstructType(c))
    case k => Fine(FixedType(k))
  }

  function InputType(p: Program, n: nat, role: string): Type
    requires WellFormed(p) && n < |p.g.nodes|
    decreases p.rank[n], 0
  {
    RoleBelow(p, n, role);
    var s := InputSource(p.g, n, role);
    if s == INVALID then Unknown else Judge(p, s).t
  }

  // ----- The memoising pass -----

  /** Which inputs a node's kind has the pass visit. */
  function Visited(k: Kind): seq<string> {
    match k
    case BinaryNode(_) => ["lhs", "rhs"]
    case And => ["lhs", "rhs"]
    case Or => ["lhs", "rhs"]
    case UnaryNode(_) => ["value"]
    case ReturnNode => ["value"]
    case Construct(c) =>
      if c.CastToInt? || c.CastToFloat? || c.CastToString? || c.StringLength? || c.Length? || c.Throwing? then ["value"] else []
    case _ => []
  }

  class Checker {
    ghost const p: Program
    const g: Graph
    const types: array<Type>
    var hadError: bool

    /** A known type is the plain one; an error was reported exactly if some node with a known type has one. */
    ghost predicate Valid()
      reads this, types
    {
      && WellFormed(p) && g == p.g && types.Length == |g.nodes|
      && (forall n :: 0 <= n < |g.nodes| && types[n] != Unknown ==> types[n] == Judge(p, n).t)
      && (hadError <==> exists n :: 0 <= n < |g.nodes| && types[n] != Unknown && Judge(p, n).bad)
    }

    constructor (p: Program)
      requires WellFormed(p)
      ensures Valid() && fresh(types) && this.p == p && !hadError
      ensures forall n :: 0 <= n < types.Length ==> types[n] == Unknown
    {
      this.p := p;
      g := p.g;
      types := new Type[|p.g.nodes|](_ => Unknown);
      hadError := false;
    }

    /** What is known stays known. */
    twostate predicate Kept()
      reads this, types
    {
      forall n :: 0 <= n < types.Length && old(types[n]) != Unknown ==> types[n] == old(types[n])
    }

    method InferInput(n: nat, role: string) returns (t: Type)
      requires Valid() && n < |g.nodes|
      modifies this, types
      ensures Valid() && Kept() && t == InputType(p, n, role)
      decreases p.rank[n], 0
    {
      RoleBelow(p, n, role);
      var s := InputSource(g, n, role);
      if s == INVALID { return Unknown; }
      t := InferType(s);
    }

    /** Infers a node's type once; afterwards it is looked up. */
    method InferType(n: nat) returns (t: Type)
      requires Valid() && n < |g.nodes|
      modifies this, types
      ensures Valid() && Kept() && types[n] == t == Judge(p, n).t
      decreases p.rank[n], 1
    {
      hide Ranked; hide Indexed; hide BinaryRule; hide UnaryRule; hide InputType; hide ConstructType;
      if types[n] != Unknown { return types[n]; }
      var k := g.nodes[n].kind;
      var v: Verdict;
      if k.BinaryNode? {
        var l := InferInput(n, "lhs");
        var r := InferInput(n, "rhs");
        v := BinaryRule(k.bop, l, r);
      } else if k.UnaryNode? {
        var i := InferInput(n, "value");
        v := UnaryRule(k.uop, i);
      } else {
        var i := Unknown;
        var roles := Visited(k);
        var j := 0;
        while j < |roles|
          invariant Valid() && Kept()
          invariant 0 <= j <= |roles| && (j > 0 ==> i == InputType(p, n, roles[j - 1]))
        {
          i := InferInput(n, roles[j]);
          j := j + 1;
        }
        v := if k == Construct(StringLength) then Verdict(IntType, !i.StringType? && !i.AnyType?) else Fine(FixedType(k));
      }
      assert v == Judge(p, n);
      types[n] := v.t;
      if v.bad { hadError := true; }
      t := v.t;
    }
  }

  /** Every node in turn: the types of plain recursion, and success exactly when no node is reported. */
  method Typecheck(p: Program) returns (types: seq<Type>, success: bool)
    requires WellFormed(p)
    ensures |types| == |p.g.nodes| && forall n :: 0 <= n < |types| ==> types[n] == Judge(p, n).t
    ensures success <==> forall n :: 0 <= n < |p.g.nodes| ==> !Judge(p, n).bad
  {
    hide Ranked; hide Indexed; hide Judge;
    var c := new Checker(p);
    var i := 0;
    while i < |p.g.nodes|
      invariant 0 <= i <= |p.g.nodes| && c.Valid() && c.p == p && fresh(c) && fresh(c.types)
      invariant forall n :: 0 <= n < i ==> c.types[n] != Unknown
    {
      var t := c.InferType(i);
      i := i + 1;
    }
    types := c.types[..];
    success := !c.hadError;
  }
}
