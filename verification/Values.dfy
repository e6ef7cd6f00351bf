/**
 Runtime values and the three independent implementations of the operators:
 the reference interpreter's, the virtual machine's and the compiler's
 constant folder. Division truncates toward zero. Signed overflow of `+`, `-`,
 `*` and of a shift of a non-negative value is taken to wrap around, as common
 compilers do on request. The other operations C leaves undefined get no value:
 dividing the least integer by -1, shifting a negative value left, and (in the
 folder, which does not mask it) a shift count outside 0..63.
 */
module Values {

  datatype Option<+T> = None | Some(value: T)

  const TWO_63: int := 0x8000_0000_0000_0000
  const TWO_64: int := 0x1_0000_0000_0000_0000

  type Int64 = x: int | -TWO_63 <= x < TWO_63

  datatype Value = Null | Bool(b: bool) | I64(i: Int64)

  datatype BinOp =
    | Add | Sub | Mul | Div | Mod
    | Eq | Neq | Lt | Le | Gt | Ge
    | BitAnd | BitOr | BitXor | Shl | Shr
  {
    predicate Arithmetic() { Add? || Sub? || Mul? || Div? || Mod? }
    predicate Comparison() { Eq? || Neq? || Lt? || Le? || Gt? || Ge? }
  }

  datatype UnOp = Neg | Not | BitNot

  predicate Truthy(v: Value) {
    match v
    case Null => false
    case Bool(b) => b
    case I64(i) => i != 0
  }

  // ----- 64-bit arithmetic -----

  function Wrap(x: int): (r: Int64)
    ensures exists k: int :: r == x - k * TWO_64
    ensures -TWO_63 <= x < TWO_63 ==> r == x
  {
    var r := (x + TWO_63) % TWO_64 - TWO_63;
    assert r == x - ((x + TWO_63) / TWO_64) * TWO_64;
    r
  }

  function ToUnsigned(x: Int64): (r: int)
    ensures 0 <= r < TWO_64
    ensures r == x || r == x + TWO_64
  {
    if x < 0 then x + TWO_64 else x
  }

  function Abs(x: int): (r: nat)
    ensures r == x || r == -x
  {
    if x < 0 then -x else x
  }

  /** C division (section 6.5.5 of ISO/IEC 9899:2018): the quotient with its fraction discarded. */
  function TruncDiv(a: int, b: int): (q: int)
    requires b != 0
    ensures (a < 0) == (b < 0) ==> q >= 0
    ensures (a < 0) != (b < 0) ==> q <= 0
    ensures Abs(b) * Abs(q) <= Abs(a) < Abs(b) * (Abs(q) + 1)
  {
    var q := Abs(a) / Abs(b);
    QuotientBounds(Abs(a), Abs(b));
    if (a < 0) == (b < 0) then q else -q
  }

  lemma QuotientBounds(x: nat, y: nat)
    requires y > 0
    ensures x / y >= 0
    ensures y * (x / y) <= x < y * (x / y + 1)
  {
    assert x == y * (x / y) + x % y;
  }

  function TruncRem(a: int, b: int): (r: int)
    requires b != 0
    ensures a == b * TruncDiv(a, b) + r
    ensures Abs(r) < Abs(b)
  {
    var q := TruncDiv(a, b);
    RemainderBounds(a, b, q);
    a - b * q
  }

  lemma RemainderBounds(a: int, b: int, q: int)
    requires b != 0
    requires (a < 0) == (b < 0) ==> q >= 0
    requires (a < 0) != (b < 0) ==> q <= 0
    requires Abs(b) * Abs(q) <= Abs(a) < Abs(b) * (Abs(q) + 1)
    ensures Abs(a - b * q) < Abs(b)
  {
    assert Abs(b) * (Abs(q) + 1) == Abs(b) * Abs(q) + Abs(b);
    if a >= 0 {
      assert b * q == Abs(b) * Abs(q) by { SignedProduct(b, q); }
    } else {
      assert b * q == -(Abs(b) * Abs(q)) by { SignedProduct(b, q); }
    }
  }

  lemma SignedProduct(b: int, q: int)
    ensures (b >= 0 && q >= 0) || (b <= 0 && q <= 0) ==> b * q == Abs(b) * Abs(q)
    ensures (b >= 0 && q <= 0) || (b <= 0 && q >= 0) ==> b * q == -(Abs(b) * Abs(q))
  {
    assert (-b) * (-q) == b * q;
    assert (-b) * q == -(b * q);
    assert b * (-q) == -(b * q);
  }

  function Pow2(k: nat): (r: int)
    ensures r > 0
  {
    if k == 0 then 1 else 2 * Pow2(k - 1)
  }

  function IntBits(op: BinOp, a: Int64, b: Int64): Int64
    requires op.BitAnd? || op.BitOr? || op.BitXor?
  {
    var x := ToUnsigned(a) as bv64;
    var y := ToUnsigned(b) as bv64;
    match op
    case BitAnd => Wrap((x & y) as int)
    case BitOr => Wrap((x | y) as int)
    case BitXor => Wrap((x ^ y) as int)
  }

  /** The complement of a two's-complement integer. */
  function Complement(a: Int64): Int64 {
    var x: int := a;
    -1 - x
  }

  function Negate(a: Int64): Int64 {
    var x: int := a;
    Wrap(0 - x)
  }

  /** The quotient exists and is representable. */
  predicate DivDefined(a: Int64, b: Int64) { b != 0 && !(a == -TWO_63 && b == -1) }

  function IntArith(op: BinOp, a: Int64, b: Int64): Int64
    requires op.Arithmetic()
    requires op.Div? || op.Mod? ==> DivDefined(a, b)
  {
    match op
    case Add => Wrap(a + b)
    case Sub => Wrap(a - b)
    case Mul => Wrap(a * b)
    case Div => Wrap(TruncDiv(a, b))
    case Mod => Wrap(TruncRem(a, b))
  }

  predicate IntCompare(op: BinOp, a: Int64, b: Int64)
    requires op.Comparison()
  {
    match op
    case Eq => a == b
    case Neq => a != b
    case Lt => a < b
    case Le => a <= b
    case Gt => a > b
    case Ge => a >= b
  }

  function ShiftLeft(a: Int64, count: nat): Int64
    requires a >= 0
  {
    Wrap(a * Pow2(count))
  }

  // ----- The machine's operators -----

  /** A logical right shift of the unsigned word by `b & 63`. */
  function MachineShr(a: Int64, b: Int64): Int64 { Wrap(ToUnsigned(a) / Pow2(b % 64)) }

  /** Operands in stack order: `a` was pushed before `b`. None is a runtime error or an undefined operation. */
  function MachineBinary(op: BinOp, a: Value, b: Value): (r: Option<Value>) {
    if op.Eq? then Some(Bool(a == b))
    else if op.Neq? then Some(Bool(a != b))
    else if !a.I64? || !b.I64? then None
    else if op.Comparison() then Some(Bool(IntCompare(op, a.i, b.i)))
    else if (op.Div? || op.Mod?) && !DivDefined(a.i, b.i) then None
    else if op.Arithmetic() then Some(I64(IntArith(op, a.i, b.i)))
    else if op.Shl? then (if a.i < 0 then None else Some(I64(ShiftLeft(a.i, b.i % 64))))
    else if op.Shr? then Some(I64(MachineShr(a.i, b.i)))
    else Some(I64(IntBits(op, a.i, b.i)))
  }

  function MachineUnary(op: UnOp, v: Value): (r: Option<Value>) {
    match op
    case Not => Some(Bool(!Truthy(v)))
    case Neg => if v.I64? then Some(I64(Negate(v.i))) else None
    case BitNot => if v.I64? then Some(I64(Complement(v.i))) else None
  }

  // ----- The constant folder -----

  /** What folding two literals does: nothing, a constant, or nothing C defines (sections 6.5.5 and 6.5.7). */
  datatype Folded = NotFolded | Folded(value: Value) | Undefined

  /** `>>` of a signed value rounds toward minus infinity. */
  function ArithmeticShiftRight(a: Int64, count: nat): Int64 { Wrap(a / Pow2(count)) }

  function FoldBinary(op: BinOp, l: Int64, r: Int64): (v: Folded) {
    match op
    case Add => Folded(I64(Wrap(l + r)))
    case Sub => Folded(I64(Wrap(l - r)))
    case Mul => Folded(I64(Wrap(l * r)))
    case Div => if r == 0 then NotFolded else if !DivDefined(l, r) then Undefined else Folded(I64(Wrap(TruncDiv(l, r))))
    case Mod => if r == 0 then NotFolded else if !DivDefined(l, r) then Undefined else Folded(I64(Wrap(TruncRem(l, r))))
    case Eq => Folded(Bool(l == r))
    case Neq => Folded(Bool(l != r))
    case Lt => Folded(Bool(l < r))
    case Le => Folded(Bool(l <= r))
    case Gt => Folded(Bool(l > r))
    case Ge => Folded(Bool(l >= r))
    case BitAnd => Folded(I64(IntBits(BitAnd, l, r)))
    case BitOr => Folded(I64(IntBits(BitOr, l, r)))
    case BitXor => Folded(I64(IntBits(BitXor, l, r)))
    case Shl => if 0 <= r < 64 && l >= 0 then Folded(I64(ShiftLeft(l, r))) else Undefined
    case Shr => if 0 <= r < 64 then Folded(I64(ArithmeticShiftRight(l, r))) else Undefined
  }

  function FoldUnary(op: UnOp, v: Value): (r: Option<Value>) {
    match op
    case Neg => if v.I64? then Some(I64(Negate(v.i))) else None
    case Not =>
      (match v
       case Bool(b) => Some(Bool(!b))
       case I64(i) => Some(Bool(i == 0))
       case Null => None)
    case BitNot => if v.I64? then Some(I64(Complement(v.i))) else None
  }

  /** The operands on which folding is defined and does what running does. */
  predicate FoldSafe(op: BinOp, l: Int64, r: Int64) {
    match op
    case Div => r == 0 || DivDefined(l, r)
    case Mod => r == 0 || DivDefined(l, r)
    case Shl => 0 <= r < 64 && l >= 0
    case Shr => 0 <= r < 64 && (l >= 0 || r == 0)
    case _ => true
  }

  /** Folding leaves a runtime error to the machine, and folds a value to the machine's. */
  predicate FoldAgrees(op: BinOp, l: Int64, r: Int64) {
    match FoldBinary(op, l, r)
    case NotFolded => MachineBinary(op, I64(l), I64(r)).None?
    case Folded(v) => MachineBinary(op, I64(l), I64(r)) == Some(v)
    case Undefined => false
  }

  /** Folding agrees with running the operator exactly on the safe operands; only a zero divisor is left unfolded. */
  lemma FoldingAgrees(op: BinOp, l: Int64, r: Int64)
    ensures FoldAgrees(op, l, r) <==> FoldSafe(op, l, r)
    ensures FoldBinary(op, l, r).NotFolded? <==> (op.Div? || op.Mod?) && r == 0
  {
    hide IntBits; hide TruncDiv; hide TruncRem; hide Wrap; hide ArithmeticShiftRight; hide MachineShr;
    if op.Shr? && 0 <= r < 64 {
      ShrAgrees(l, r);
    }
  }

  /** Inputs of each failing family: undefined folds, and a right shift that runs differently than it folds. */
  lemma FoldingFails(l: Int64, r: Int64)
    ensures !(0 <= r < 64) ==> FoldBinary(Shl, l, r).Undefined? && FoldBinary(Shr, l, r).Undefined?
    ensures l < 0 ==> FoldBinary(Shl, l, r).Undefined?
    ensures FoldBinary(Div, -TWO_63, -1).Undefined? && FoldBinary(Mod, -TWO_63, -1).Undefined?
    ensures FoldBinary(Shr, -8, 1) == Folded(I64(-4))
    ensures MachineBinary(Shr, I64(-8), I64(1)) == Some(I64(TWO_63 - 4))
  {
    assert Pow2(1) == 2 * Pow2(0) == 2;
  }

  lemma ShrAgrees(l: Int64, r: Int64)
    requires 0 <= r < 64
    ensures ArithmeticShiftRight(l, r) == MachineShr(l, r) <==> l >= 0 || r == 0
  {
    hide Wrap; hide Pow2;
    assert r % 64 == r;
    if l < 0 {
      if r == 0 {
        ShrNothing(l);
      } else {
        ShrNegative(l, r);
      }
    }
  }

  lemma ShrNothing(l: Int64)
    ensures ArithmeticShiftRight(l, 0) == l == MachineShr(l, 0)
  {
    assert Pow2(0) == 1;
    DivOne(l);
    DivOne(ToUnsigned(l));
  }

  lemma DivOne(x: int)
    ensures x / 1 == x
  {
  }

  lemma ShrNegative(l: Int64, r: Int64)
    requires 0 < r < 64 && l < 0
    ensures ArithmeticShiftRight(l, r) < 0 <= MachineShr(l, r)
  {
    hide Wrap; hide Pow2;
    var p := Pow2(r);
    BigPower(r);
    HalfBound(l + TWO_64, p);
    NegativeQuotient(l, p);
  }

  lemma BigPower(r: nat)
    requires r > 0
    ensures Pow2(r) >= 2
  {
    assert Pow2(r) == 2 * Pow2(r - 1);
  }

  lemma HalfBound(x: int, p: int)
    requires 0 <= x < TWO_64 && p >= 2
    ensures 0 <= x / p < TWO_63
  {
    QuotientBounds(x, p);
    MulAtLeast(2, p, x / p);
  }

  lemma NegativeQuotient(x: int, p: int)
    requires -TWO_63 <= x < 0 && p >= 2
    ensures -TWO_63 <= x / p < 0
  {
    var q := x / p;
    assert x == p * q + x % p;
    assert x / p < 0;
    MulAtLeast(1, p, 0 - q);
    assert p * (0 - q) == 0 - p * q;
    MulAtLeast(1, p, 0 - q - 1);
    assert p * (0 - q - 1) == 0 - p * q - p;
  }

  lemma MulAtLeast(a: int, p: int, q: int)
    requires a <= p && 0 <= q
    ensures a * q <= p * q
  {
    assert (p - a) * q >= 0;
  }

  /** A folded unary operation gives what the machine gives. */
  lemma FoldingUnaryAgrees(op: UnOp, v: Value)
    ensures FoldUnary(op, v).Some? ==> FoldUnary(op, v) == MachineUnary(op, v)
  {
  }

  // ----- The reference interpreter's operators -----

  function InterpArith(op: BinOp, l: Value, r: Value): (v: Option<Value>)
    requires op.Arithmetic()
  {
    if l.I64? && r.I64? then
      match op
      case Add => Some(I64(Wrap(l.i + r.i)))
      case Sub => Some(I64(Wrap(l.i - r.i)))
      case Mul => Some(I64(Wrap(l.i * r.i)))
      case Div => if DivDefined(l.i, r.i) then Some(I64(Wrap(TruncDiv(l.i, r.i)))) else None
      case Mod => if DivDefined(l.i, r.i) then Some(I64(Wrap(TruncRem(l.i, r.i)))) else None
    else None
  }

  function InterpComparison(op: BinOp, l: Value, r: Value): (v: Option<Value>)
    requires op.Comparison()
  {
    if op.Eq? then Some(Bool(l == r))
    else if op.Neq? then Some(Bool(l != r))
    else if l.I64? && r.I64? then Some(Bool(IntCompare(op, l.i, r.i)))
    else None
  }

  /**
   The interpreter's binary operators. It has none of the bitwise ones: with
   `extended` they get the machine's meaning instead of an error.
   */
  function InterpBinary(extended: bool, op: BinOp, l: Value, r: Value): (v: Option<Value>) {
    if op.Arithmetic() then InterpArith(op, l, r)
    else if op.Comparison() then InterpComparison(op, l, r)
    else if extended then MachineBinary(op, l, r)
    else None
  }

  function InterpUnary(extended: bool, op: UnOp, v: Value): (r: Option<Value>) {
    match op
    case Neg => if v.I64? then Some(I64(Negate(v.i))) else None
    case Not => Some(Bool(!Truthy(v)))
    case BitNot => if extended then MachineUnary(BitNot, v) else None
  }

  lemma InterpreterOperatorsAgree(extended: bool, op: BinOp, l: Value, r: Value)
    ensures InterpBinary(extended, op, l, r).Some? ==>
              InterpBinary(extended, op, l, r) == MachineBinary(op, l, r)
    ensures op.Arithmetic() || op.Comparison() || extended ==>
              InterpBinary(extended, op, l, r) == MachineBinary(op, l, r)
  {
    hide IntBits; hide TruncDiv; hide TruncRem; hide Wrap;
  }
}
