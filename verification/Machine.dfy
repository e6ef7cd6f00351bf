/**
 The stack machine as a step function on states. `Wild` stands for an access the
 source does not check: a local slot or argument range outside the live stack, or
 operands past the end of the code.
 */
module Machine {
  import opened Values
  import opened Bytecode

  const STACK_MAX: nat := 1024
  const FRAMES_MAX: nat := 256

  datatype Frame = Frame(func: nat, returnIp: nat, base: nat)

  /** The live stack, the active frames (never empty while running), and the values printed so far. */
  datatype Vm = Vm(stack: seq<Value>, frames: seq<Frame>, ip: nat, halted: bool, out: seq<Value>)

  datatype Fault =
    | StackOverflow | StackUnderflow | FrameOverflow | BadFunction | ArityMismatch | BadOperand
    | BadConstant | BadOpcode | BadIntrinsic | IpOutOfBounds | Wild

  datatype Outcome = Next(vm: Vm) | Fail(fault: Fault)

  function Push(vm: Vm, v: Value): Outcome {
    if |vm.stack| >= STACK_MAX then Fail(StackOverflow) else Next(vm.(stack := vm.stack + [v]))
  }

  /** A string constant becomes a heap object, which this model leaves out. */
  function ConstValue(c: Constant): Option<Value> {
    match c
    case NullConst => Some(Null)
    case BoolConst(b) => Some(Bool(b))
    case IntConst(i) => Some(I64(i))
    case StrConst(_) => None
  }

  function Base(vm: Vm): nat
    requires vm.frames != []
  {
    vm.frames[|vm.frames| - 1].base
  }

  /** Offsets are added in 32-bit arithmetic. */
  function Target(ip: nat, offset: int): nat { (ip + offset) % TWO_32 }

  /** Executes one instruction; `vm.ip` is already past it. */
  function Exec(img: Image, vm: Vm, i: Instr): (r: Outcome)
    requires vm.frames != []
  {
    var n := |vm.stack|;
    match i
    case Const(k) =>
      if k >= |img.constants| then Fail(BadConstant)
      else if ConstValue(img.constants[k]).None? then Fail(BadOperand)
      else Push(vm, ConstValue(img.constants[k]).value)
    case Pop => if n == 0 then Fail(StackUnderflow) else Next(vm.(stack := vm.stack[..n - 1]))
    case Dup => if n == 0 then Fail(StackUnderflow) else Push(vm, vm.stack[n - 1])
    case LoadLocal(s) =>
      if Base(vm) + s >= n then Fail(Wild) else Push(vm, vm.stack[Base(vm) + s])
    case StoreLocal(s) =>
      if n == 0 then Fail(StackUnderflow)
      else if Base(vm) + s >= n - 1 then Fail(Wild)
      else Next(vm.(stack := vm.stack[..n - 1][Base(vm) + s := vm.stack[n - 1]]))
    case Binary(op) =>
      if n < 2 then Fail(StackUnderflow)
      else
        var v := MachineBinary(op, vm.stack[n - 2], vm.stack[n - 1]);
        if v.None? then Fail(BadOperand) else Push(vm.(stack := vm.stack[..n - 2]), v.value)
    case Unary(op) =>
      if n < 1 then Fail(StackUnderflow)
      else
        var v := MachineUnary(op, vm.stack[n - 1]);
        if v.None? then Fail(BadOperand) else Push(vm.(stack := vm.stack[..n - 1]), v.value)
    case Jump(o) => Next(vm.(ip := Target(vm.ip, o)))
    case JumpIfFalse(o) =>
      if n == 0 then Fail(StackUnderflow)
      else Next(vm.(stack := vm.stack[..n - 1], ip := if Truthy(vm.stack[n - 1]) then vm.ip else Target(vm.ip, o)))
    case JumpIfTrue(o) =>
      if n == 0 then Fail(StackUnderflow)
      else Next(vm.(stack := vm.stack[..n - 1], ip := if Truthy(vm.stack[n - 1]) then Target(vm.ip, o) else vm.ip))
    case Call(f, argc) => ExecCall(img, vm, f, argc)
    case Return => ExecReturn(vm)
    case Intrinsic(id, argc) =>
      if id != INTRINSIC_PRINT || argc != 1 then Fail(BadIntrinsic)
      else if n == 0 then Fail(Wild)
      else Next(vm.(stack := vm.stack[..n - 1], out := vm.out + [vm.stack[n - 1]]))
    case Halt => Next(vm.(halted := true))
  }

  function ExecCall(img: Image, vm: Vm, f: nat, argc: nat): (r: Outcome) {
    if f >= |img.functions| then Fail(BadFunction)
    else if |vm.frames| >= FRAMES_MAX then Fail(FrameOverflow)
    else if argc != img.functions[f].arity then Fail(ArityMismatch)
    else if argc > |vm.stack| then Fail(Wild)
    else
      var callee := img.functions[f];
      var extra := if callee.localCount > argc then callee.localCount - argc else 0;
      if |vm.stack| + extra > STACK_MAX then Fail(StackOverflow)
      else Next(vm.(stack := vm.stack + Nulls(extra), ip := callee.codeOffset,
                    frames := vm.frames + [Frame(f, vm.ip, |vm.stack| - argc)]))
  }

  function Nulls(k: nat): (r: seq<Value>)
    ensures |r| == k
  {
    seq(k, _ => Null)
  }

  /** Drops the frame, its locals and operands, and leaves the result in their place. */
  function ExecReturn(vm: Vm): (r: Outcome)
    requires vm.frames != []
  {
    if vm.stack == [] then Fail(StackUnderflow)
    else
      var v := vm.stack[|vm.stack| - 1];
      var frame := vm.frames[|vm.frames| - 1];
      var rest := vm.frames[..|vm.frames| - 1];
      if rest == [] then Next(vm.(stack := [v], frames := [], halted := true))
      else if frame.base > |vm.stack| - 1 then Fail(Wild)
      else Next(vm.(stack := vm.stack[..frame.base] + [v], frames := rest, ip := frame.returnIp))
  }

  function Step(img: Image, vm: Vm): (r: Outcome)
    requires !vm.halted && vm.frames != []
    ensures r.Next? && !r.vm.halted ==> r.vm.frames != []
  {
    if vm.ip >= |img.code| then Fail(IpOutOfBounds)
    else if OperandBytes(img.code[vm.ip]) < 0 then Fail(BadOpcode)
    else if Decode(img.code, vm.ip).None? then Fail(Wild)
    else
      var i := Decode(img.code, vm.ip).value;
      Exec(img, vm.(ip := vm.ip + i.Size()), i)
  }

  /** The state after `k` steps; halted states and faults stay. */
  function Run(img: Image, o: Outcome, k: nat): (r: Outcome)
    requires o.Next? && !o.vm.halted ==> o.vm.frames != []
    ensures r.Next? && !r.vm.halted ==> r.vm.frames != []
    decreases k
  {
    if k == 0 || o.Fail? || o.vm.halted then o else Run(img, Step(img, o.vm), k - 1)
  }

  /** Main's frame with its locals set to null. */
  function Boot(img: Image): (r: Vm)
    requires img.functions != []
    ensures r.frames != [] && !r.halted
  {
    Vm(Nulls(img.functions[0].localCount), [Frame(0, 0, 0)], img.functions[0].codeOffset, false, [])
  }

  lemma {:induction false} RunCompose(img: Image, o: Outcome, j: nat, k: nat)
    requires o.Next? && !o.vm.halted ==> o.vm.frames != []
    ensures Run(img, Run(img, o, j), k) == Run(img, o, j + k)
    decreases j
  {
    if j == 0 {
    } else if o.Fail? || o.vm.halted {
    } else {
      RunCompose(img, Step(img, o.vm), j - 1, k);
    }
  }

  ghost predicate Alive(vm: Vm) { !vm.halted && vm.frames != [] }

  /** From `a` the machine reaches `b`, unless it reports stack overflow. */
  ghost predicate Reaches(img: Image, a: Vm, b: Vm)
    requires Alive(a)
  {
    exists k: nat :: Run(img, Next(a), k) == Next(b) || Run(img, Next(a), k) == Fail(StackOverflow)
  }

  lemma ReachesSelf(img: Image, a: Vm)
    requires Alive(a)
    ensures Reaches(img, a, a)
  {
    assert Run(img, Next(a), 0) == Next(a);
  }

  lemma ReachesTrans(img: Image, a: Vm, b: Vm, c: Vm)
    requires Alive(a) && Alive(b) && Reaches(img, a, b) && Reaches(img, b, c)
    ensures Reaches(img, a, c)
  {
    var j: nat :| Run(img, Next(a), j) == Next(b) || Run(img, Next(a), j) == Fail(StackOverflow);
    var k: nat :| Run(img, Next(b), k) == Next(c) || Run(img, Next(b), k) == Fail(StackOverflow);
    RunCompose(img, Next(a), j, k);
    assert Run(img, Next(a), j + k) == Next(c) || Run(img, Next(a), j + k) == Fail(StackOverflow);
  }

  /** One decoded instruction. */
  lemma ReachesStep(img: Image, a: Vm, i: Instr, b: Vm)
    requires Alive(a)
    requires At(img.code, a.ip, [i])
    requires var r := Exec(img, a.(ip := a.ip + i.Size()), i); r == Next(b) || r == Fail(StackOverflow)
    ensures Reaches(img, a, b)
  {
    AtDecode(img.code, a.ip, [i]);
    assert Step(img, a) == Exec(img, a.(ip := a.ip + i.Size()), i);
    assert Run(img, Next(a), 1) == Run(img, Step(img, a), 0) == Step(img, a);
  }
}
