/**
 The instruction set: opcode bytes, the operand and stack-effect table shared by
 every consumer, and the little-endian encoding of instructions.
 */
module Bytecode {
  import opened Values

  type Byte = x: int | 0 <= x < 256

  datatype Constant = NullConst | BoolConst(b: bool) | IntConst(i: Int64) | StrConst(s: string)

  datatype FuncRecord = FuncRecord(nameIdx: nat, arity: nat, localCount: nat, maxStack: nat,
                                   codeOffset: nat, codeLength: nat)

  /** What a closure captures: a local of the enclosing function, or one of its captures. */
  datatype Capture = Local(index: nat) | Enclosing(index: nat)

  datatype DebugEntry = DebugEntry(funcIdx: nat, start: nat, end: nat, element: nat)

  datatype Image = Image(constants: seq<Constant>, functions: seq<FuncRecord>, code: seq<Byte>,
                         debug: seq<DebugEntry>)

  /**
   The most entries a constant pool or function table can hold: its capacity is a
   16-bit field that doubles before it grows, and doubling this one gives zero.
   */
  const TABLE_MAX: nat := 32768

  const OP_CONST: Byte := 0x01
  const OP_POP: Byte := 0x02
  const OP_DUP: Byte := 0x03
  const OP_LOAD_LOCAL: Byte := 0x10
  const OP_STORE_LOCAL: Byte := 0x11
  const OP_JUMP: Byte := 0x40
  const OP_JUMP_IF_FALSE: Byte := 0x41
  const OP_JUMP_IF_TRUE: Byte := 0x42
  const OP_CALL: Byte := 0x50
  const OP_RETURN: Byte := 0x51
  const OP_INTRINSIC: Byte := 0xF0
  const OP_HALT: Byte := 0xFF

  const INTRINSIC_PRINT: nat := 0

  function BinaryOpcode(op: BinOp): Byte {
    match op
    case Add => 0x20
    case Sub => 0x21
    case Mul => 0x22
    case Div => 0x23
    case Mod => 0x24
    case BitAnd => 0x29
    case BitOr => 0x2A
    case BitXor => 0x2B
    case Shl => 0x2D
    case Shr => 0x2E
    case Eq => 0x30
    case Neq => 0x31
    case Lt => 0x32
    case Le => 0x33
    case Gt => 0x34
    case Ge => 0x35
  }

  function UnaryOpcode(op: UnOp): Byte {
    match op
    case Neg => 0x25
    case BitNot => 0x2C
    case Not => 0x36
  }

  /** The binary operator of an opcode byte. */
  function OpcodeBinary(b: Byte): (r: Option<BinOp>)
    ensures r.Some? ==> BinaryOpcode(r.value) == b
  {
    if b == 0x20 then Some(Add)
    else if b == 0x21 then Some(Sub)
    else if b == 0x22 then Some(Mul)
    else if b == 0x23 then Some(Div)
    else if b == 0x24 then Some(Mod)
    else if b == 0x29 then Some(BitAnd)
    else if b == 0x2A then Some(BitOr)
    else if b == 0x2B then Some(BitXor)
    else if b == 0x2D then Some(Shl)
    else if b == 0x2E then Some(Shr)
    else if b == 0x30 then Some(Eq)
    else if b == 0x31 then Some(Neq)
    else if b == 0x32 then Some(Lt)
    else if b == 0x33 then Some(Le)
    else if b == 0x34 then Some(Gt)
    else if b == 0x35 then Some(Ge)
    else None
  }

  function OpcodeUnary(b: Byte): (r: Option<UnOp>)
    ensures r.Some? ==> UnaryOpcode(r.value) == b
  {
    if b == 0x25 then Some(Neg)
    else if b == 0x2C then Some(BitNot)
    else if b == 0x36 then Some(Not)
    else None
  }

  /** Operand bytes after the opcode, -1 for a byte that is no modelled opcode. */
  function OperandBytes(b: Byte): int {
    if b == OP_CONST || b == OP_LOAD_LOCAL || b == OP_STORE_LOCAL then 2
    else if b == OP_JUMP || b == OP_JUMP_IF_FALSE || b == OP_JUMP_IF_TRUE then 4
    else if b == OP_CALL || b == OP_INTRINSIC then 4
    else if b == OP_POP || b == OP_DUP || b == OP_RETURN || b == OP_HALT then 0
    else if OpcodeBinary(b).Some? || OpcodeUnary(b).Some? then 0
    else -1
  }

  /** Values popped, -1 where the count is an operand (or the byte is no opcode). */
  function Pops(b: Byte): int {
    if b == OP_CONST || b == OP_LOAD_LOCAL || b == OP_JUMP || b == OP_HALT then 0
    else if b == OP_POP || b == OP_DUP || b == OP_STORE_LOCAL || b == OP_RETURN then 1
    else if b == OP_JUMP_IF_FALSE || b == OP_JUMP_IF_TRUE then 1
    else if OpcodeBinary(b).Some? then 2
    else if OpcodeUnary(b).Some? then 1
    else -1
  }

  function Pushes(b: Byte): int {
    if b == OP_CONST || b == OP_LOAD_LOCAL || b == OP_CALL then 1
    else if b == OP_DUP then 2
    else if OpcodeBinary(b).Some? || OpcodeUnary(b).Some? then 1
    else if OperandBytes(b) >= 0 then 0
    else -1
  }

  // ----- Little-endian fields -----

  const TWO_31: int := 0x8000_0000
  const TWO_32: int := 0x1_0000_0000

  function U16(v: nat): (r: seq<Byte>)
    ensures |r| == 2
  {
    [v % 256, v / 256 % 256]
  }

  function ReadU16(code: seq<Byte>, at: nat): (r: nat)
    requires at + 2 <= |code|
    ensures r < 65536
  {
    var b0: int, b1: int := code[at], code[at + 1];
    b0 + 256 * b1
  }

  function U32(v: int): (r: seq<Byte>)
    ensures |r| == 4
  {
    var u := v % TWO_32;
    [u % 256, u / 256 % 256, u / 65536 % 256, u / 16777216 % 256]
  }

  function ReadU32(code: seq<Byte>, at: nat): (r: nat)
    requires at + 4 <= |code|
    ensures r < TWO_32
  {
    var b0: int, b1: int, b2: int, b3: int := code[at], code[at + 1], code[at + 2], code[at + 3];
    b0 + 256 * b1 + 65536 * b2 + 16777216 * b3
  }

  function ReadI32(code: seq<Byte>, at: nat): (r: int)
    requires at + 4 <= |code|
    ensures -TWO_31 <= r < TWO_31
  {
    var u := ReadU32(code, at);
    if u < TWO_31 then u else u - TWO_32
  }

  predicate Holds(code: seq<Byte>, at: nat, bytes: seq<Byte>) {
    at + |bytes| <= |code| && code[at..at + |bytes|] == bytes
  }

  lemma U16RoundTrip(v: nat, code: seq<Byte>, at: nat)
    requires v < 65536 && Holds(code, at, U16(v))
    ensures ReadU16(code, at) == v
  {
    var s := code[at..at + 2];
    assert s[0] == code[at] && s[1] == code[at + 1];
  }

  lemma U32RoundTrip(v: int, code: seq<Byte>, at: nat)
    requires Holds(code, at, U32(v))
    ensures ReadU32(code, at) == v % TWO_32
    ensures -TWO_31 <= v < TWO_31 ==> ReadI32(code, at) == v
  {
    var s := code[at..at + 4];
    assert s[0] == code[at] && s[1] == code[at + 1] && s[2] == code[at + 2] && s[3] == code[at + 3];
    var u := v % TWO_32;
    FourDigits(u);
  }

  lemma FourDigits(u: nat)
    requires u < TWO_32
    ensures u % 256 + 256 * (u / 256 % 256) + 65536 * (u / 65536 % 256) + 16777216 * (u / 16777216 % 256) == u
  {
    assert u / 65536 == u / 256 / 256;
    assert u / 16777216 == u / 65536 / 256;
    assert u / 16777216 < 256;
  }

  // ----- Instructions -----

  datatype Instr =
    | Const(idx: nat)
    | Pop
    | Dup
    | LoadLocal(slot: nat)
    | StoreLocal(slot: nat)
    | Binary(bop: BinOp)
    | Unary(uop: UnOp)
    | Jump(offset: int)
    | JumpIfFalse(offset: int)
    | JumpIfTrue(offset: int)
    | Call(func: nat, argc: nat)
    | Return
    | Intrinsic(id: nat, argc: nat)
    | Halt
  {
    function Opcode(): Byte {
      match this
      case Const(_) => OP_CONST
      case Pop => OP_POP
      case Dup => OP_DUP
      case LoadLocal(_) => OP_LOAD_LOCAL
      case StoreLocal(_) => OP_STORE_LOCAL
      case Binary(op) => BinaryOpcode(op)
      case Unary(op) => UnaryOpcode(op)
      case Jump(_) => OP_JUMP
      case JumpIfFalse(_) => OP_JUMP_IF_FALSE
      case JumpIfTrue(_) => OP_JUMP_IF_TRUE
      case Call(_, _) => OP_CALL
      case Return => OP_RETURN
      case Intrinsic(_, _) => OP_INTRINSIC
      case Halt => OP_HALT
    }

    function Operands(): (r: seq<Byte>) {
      match this
      case Const(k) => U16(k)
      case LoadLocal(s) => U16(s)
      case StoreLocal(s) => U16(s)
      case Jump(o) => U32(o)
      case JumpIfFalse(o) => U32(o)
      case JumpIfTrue(o) => U32(o)
      case Call(f, n) => U16(f) + [n % 256, 0]
      case Intrinsic(k, n) => U16(k) + [n % 256, 0]
      case _ => []
    }

    function Encode(): (r: seq<Byte>)
      ensures |r| >= 1 && r[0] == Opcode()
    {
      [Opcode()] + Operands()
    }

    /** Encoded length in bytes. */
    function Size(): (r: nat)
      ensures r >= 1
    {
      match this
      case Const(_) => 3
      case LoadLocal(_) => 3
      case StoreLocal(_) => 3
      case Jump(_) => 5
      case JumpIfFalse(_) => 5
      case JumpIfTrue(_) => 5
      case Call(_, _) => 5
      case Intrinsic(_, _) => 5
      case _ => 1
    }

    /** Values popped and pushed, by the opcode table; a variable pop count reads as zero here. */
    function PopCount(): (r: nat)
    {
      match this
      case Pop => 1
      case Dup => 1
      case StoreLocal(_) => 1
      case Binary(_) => 2
      case Unary(_) => 1
      case JumpIfFalse(_) => 1
      case JumpIfTrue(_) => 1
      case Return => 1
      case _ => 0
    }

    function PushCount(): (r: nat)
    {
      match this
      case Const(_) => 1
      case Dup => 2
      case LoadLocal(_) => 1
      case Binary(_) => 1
      case Unary(_) => 1
      case Call(_, _) => 1
      case _ => 0
    }

    /** Every operand fits its field, so the encoding loses nothing. */
    predicate Fits() {
      match this
      case Const(k) => k < 65536
      case LoadLocal(s) => s < 65536
      case StoreLocal(s) => s < 65536
      case Jump(o) => -TWO_31 <= o < TWO_31
      case JumpIfFalse(o) => -TWO_31 <= o < TWO_31
      case JumpIfTrue(o) => -TWO_31 <= o < TWO_31
      case Call(f, n) => f < 65536 && n < 256
      case Intrinsic(k, n) => k < 65536 && n < 256
      case _ => true
    }
  }

  /** Sizes and stack effects are those of the opcode table. */
  lemma InstrTable(i: Instr)
    ensures i.Size() == |i.Encode()| == 1 + OperandBytes(i.Opcode())
    ensures i.PopCount() == if Pops(i.Opcode()) > 0 then Pops(i.Opcode()) else 0
    ensures i.PushCount() == Pushes(i.Opcode())
  {
  }

  /** The instruction at `at`; None for an unknown opcode or one cut off by the end of the code. */
  function Decode(code: seq<Byte>, at: nat): (r: Option<Instr>)
    requires at < |code|
    ensures r.Some? ==> at + r.value.Size() <= |code| && r.value.Fits() && r.value.Opcode() == code[at]
  {
    var op := code[at];
    if OperandBytes(op) < 0 || at + 1 + OperandBytes(op) > |code| then None
    else if op == OP_CONST then Some(Const(ReadU16(code, at + 1)))
    else if op == OP_POP then Some(Pop)
    else if op == OP_DUP then Some(Dup)
    else if op == OP_LOAD_LOCAL then Some(LoadLocal(ReadU16(code, at + 1)))
    else if op == OP_STORE_LOCAL then Some(StoreLocal(ReadU16(code, at + 1)))
    else if op == OP_JUMP then Some(Jump(ReadI32(code, at + 1)))
    else if op == OP_JUMP_IF_FALSE then Some(JumpIfFalse(ReadI32(code, at + 1)))
    else if op == OP_JUMP_IF_TRUE then Some(JumpIfTrue(ReadI32(code, at + 1)))
    else if op == OP_CALL then Some(Call(ReadU16(code, at + 1), code[at + 3]))
    else if op == OP_RETURN then Some(Return)
    else if op == OP_INTRINSIC then Some(Intrinsic(ReadU16(code, at + 1), code[at + 3]))
    else if op == OP_HALT then Some(Halt)
    else if OpcodeBinary(op).Some? then Some(Binary(OpcodeBinary(op).value))
    else Some(Unary(OpcodeUnary(op).value))
  }

  lemma DecodeEncode(i: Instr, code: seq<Byte>, at: nat)
    requires i.Fits() && Holds(code, at, i.Encode())
    ensures Decode(code, at) == Some(i)
  {
    InstrTable(i);
    var bytes := code[at..at + |i.Encode()|];
    assert code[at] == bytes[0] == i.Opcode();
    assert code[at + 1..at + i.Size()] == bytes[1..] == i.Operands();
    match i
    case Const(k) => U16RoundTrip(k, code, at + 1);
    case LoadLocal(s) => U16RoundTrip(s, code, at + 1);
    case StoreLocal(s) => U16RoundTrip(s, code, at + 1);
    case Jump(o) => U32RoundTrip(o, code, at + 1);
    case JumpIfFalse(o) => U32RoundTrip(o, code, at + 1);
    case JumpIfTrue(o) => U32RoundTrip(o, code, at + 1);
    case Call(f, n) => CallOperands(f, n, code, at + 1);
    case Intrinsic(k, n) => CallOperands(k, n, code, at + 1);
    case _ =>
  }

  lemma CallOperands(f: nat, n: nat, code: seq<Byte>, at: nat)
    requires f < 65536 && n < 256 && Holds(code, at, U16(f) + [n % 256, 0])
    ensures ReadU16(code, at) == f && code[at + 2] == n
  {
    var s := code[at..at + 4];
    assert code[at..at + 2] == s[..2] == U16(f);
    U16RoundTrip(f, code, at);
    assert s[2] == code[at + 2];
  }

  // ----- Instruction sequences -----

  function EncodeAll(ins: seq<Instr>): (r: seq<Byte>)
    ensures |r| == Size(ins)
  {
    if ins == [] then []
    else
      InstrTable(ins[0]);
      ins[0].Encode() + EncodeAll(ins[1..])
  }

  function Size(ins: seq<Instr>): nat {
    if ins == [] then 0 else ins[0].Size() + Size(ins[1..])
  }

  predicate AllFit(ins: seq<Instr>) {
    forall k :: 0 <= k < |ins| ==> ins[k].Fits()
  }

  lemma {:induction false} SizeConcat(a: seq<Instr>, b: seq<Instr>)
    ensures Size(a + b) == Size(a) + Size(b)
  {
    if a == [] {
      assert a + b == b;
    } else {
      assert (a + b)[1..] == a[1..] + b;
      SizeConcat(a[1..], b);
    }
  }

  lemma {:induction false} EncodeConcat(a: seq<Instr>, b: seq<Instr>)
    ensures EncodeAll(a + b) == EncodeAll(a) + EncodeAll(b)
  {
    if a == [] {
      assert a + b == b;
    } else {
      assert (a + b)[1..] == a[1..] + b;
      EncodeConcat(a[1..], b);
    }
  }

  lemma {:induction false} EncodeOne(i: Instr)
    ensures EncodeAll([i]) == i.Encode() && Size([i]) == i.Size()
  {
    assert [i][1..] == [];
  }

  /** `code` holds the encoding of `ins` at `at`, with every operand intact. */
  ghost predicate At(code: seq<Byte>, at: nat, ins: seq<Instr>) {
    AllFit(ins) && Holds(code, at, EncodeAll(ins))
  }

  lemma {:induction false} AtSplit(code: seq<Byte>, at: nat, a: seq<Instr>, b: seq<Instr>)
    requires At(code, at, a + b)
    ensures At(code, at, a) && At(code, at + Size(a), b)
    ensures Size(a + b) == Size(a) + Size(b)
  {
    SizeConcat(a, b);
    EncodeConcat(a, b);
    HoldsSplit(code, at, EncodeAll(a), EncodeAll(b));
    AllFitSplit(a, b);
  }

  lemma HoldsSplit(code: seq<Byte>, at: nat, a: seq<Byte>, b: seq<Byte>)
    requires Holds(code, at, a + b)
    ensures Holds(code, at, a) && Holds(code, at + |a|, b)
  {
    var bytes := code[at..at + |a + b|];
    assert code[at..at + |a|] == bytes[..|a|];
    assert code[at + |a|..at + |a| + |b|] == bytes[|a|..];
  }

  lemma AllFitSplit(a: seq<Instr>, b: seq<Instr>)
    ensures AllFit(a + b) <==> AllFit(a) && AllFit(b)
  {
    if AllFit(a + b) {
      forall k | 0 <= k < |a| ensures a[k].Fits() { assert (a + b)[k] == a[k]; }
      forall k | 0 <= k < |b| ensures b[k].Fits() { assert (a + b)[|a| + k] == b[k]; }
    }
  }

  lemma {:induction false} AtDecode(code: seq<Byte>, at: nat, ins: seq<Instr>)
    requires At(code, at, ins) && ins != []
    ensures at < |code| && Decode(code, at) == Some(ins[0])
  {
    assert ins == [ins[0]] + ins[1..];
    AtSplit(code, at, [ins[0]], ins[1..]);
    EncodeOne(ins[0]);
    assert At(code, at, [ins[0]]);
    DecodeEncode(ins[0], code, at);
  }
}
