/**
 The virtual machine as it runs: a fixed operand stack and frame stack updated in
 place by one handler per opcode group. Each handler is proved to do what one step
 of Machine does, and the dispatch loop to do what Machine.Run does.
 */
module VirtualMachine {
  import opened Values
  import opened Bytecode
  import opened Machine

  class Processor {
    const image: Image
    const stack: array<Value>
    const frames: array<Frame>
    var sp: nat
    var fp: nat
    var ip: nat
    var halted: bool
    var out: seq<Value>
    var error: Option<Fault>

    ghost predicate Valid()
      reads this, stack, frames
    {
      stack.Length == STACK_MAX && frames.Length == FRAMES_MAX && sp <= STACK_MAX && fp <= FRAMES_MAX
    }

    /** Valid, with a frame to run in and no fault so far. */
    ghost predicate Running()
      reads this, stack, frames
    {
      Valid() && fp > 0 && !halted && error.None?
    }

    ghost function State(): Vm
      requires Valid()
      reads this, stack, frames
    {
      Vm(stack[..sp], frames[..fp], ip, halted, out)
    }

    /** The machine is where the outcome says, or stopped with its fault. */
    ghost predicate Agrees(o: Outcome)
      requires Valid()
      reads this, stack, frames
    {
      o == if error.Some? then Fail(error.value) else Next(State())
    }

    /** About to run instruction `i`, whose opcode byte has been read. */
    ghost predicate Fetched(i: Instr)
      reads this, stack, frames
    {
      Running() && 0 < ip <= |image.code| && Decode(image.code, ip - 1) == Some(i)
    }

    /** The state one step sees: past the whole instruction. */
    ghost function Past(i: Instr): Vm
      requires Fetched(i)
      reads this, stack, frames
    {
      State().(ip := ip - 1 + i.Size())
    }

    constructor (image: Image)
      ensures this.image == image && Valid() && fresh(stack) && fresh(frames) && error.None? && fp == 0 && !halted
    {
      this.image := image;
      stack := new Value[STACK_MAX](_ => Null);
      frames := new Frame[FRAMES_MAX](_ => Frame(0, 0, 0));
      sp, fp, ip, halted, out, error := 0, 0, 0, false, [], None;
    }

    // ----- Stack and operands -----

    method Raise(f: Fault)
      modifies this`error
      ensures error == Some(f)
    {
      error := Some(f);
    }

    method Push(v: Value) returns (ok: bool)
      requires Valid() && error.None?
      modifies this`sp, this`error, stack
      ensures Valid() && ok == error.None? && frames[..] == old(frames[..])
      ensures Agrees(Machine.Push(old(State()), v))
    {
      if sp >= STACK_MAX {
        Raise(StackOverflow);
        return false;
      }
      stack[sp] := v;
      sp := sp + 1;
      assert stack[..sp] == old(stack[..sp]) + [v];
      ok := true;
    }

    method Pop() returns (ok: bool, v: Value)
      requires Valid() && error.None?
      modifies this`sp, this`error
      ensures Valid() && ok == error.None? == (old(sp) > 0)
      ensures ok ==> old(State()).stack == State().stack + [v]
      ensures !ok ==> error == Some(StackUnderflow)
    {
      if sp == 0 {
        Raise(StackUnderflow);
        return false, Null;
      }
      sp := sp - 1;
      v := stack[sp];
      ok := true;
      assert old(stack[..sp]) == stack[..sp] + [v];
    }

    method ReadByte() returns (b: Byte)
      requires ip < |image.code|
      modifies this`ip
      ensures b == image.code[old(ip)] && ip == old(ip) + 1
    {
      b := image.code[ip];
      ip := ip + 1;
    }

    method FetchU16() returns (v: nat)
      requires ip + 2 <= |image.code|
      modifies this`ip
      ensures v == ReadU16(image.code, old(ip)) && ip == old(ip) + 2
    {
      v := ReadU16(image.code, ip);
      ip := ip + 2;
    }

    method FetchI32() returns (v: int)
      requires ip + 4 <= |image.code|
      modifies this`ip
      ensures v == ReadI32(image.code, old(ip)) && ip == old(ip) + 4
    {
      v := ReadI32(image.code, ip);
      ip := ip + 4;
    }

    // ----- Handlers -----

    method ExecStackOrLocal(op: Byte, ghost i: Instr)
      requires Fetched(i) && op == i.Opcode()
      requires i.Const? || i.Pop? || i.Dup? || i.LoadLocal? || i.StoreLocal?
      modifies this, stack
      ensures Valid() && Agrees(Exec(image, old(Past(i)), i))
    {
      var ok, v := true, Null;
      if op == OP_CONST {
        var idx := FetchU16();
        if idx >= |image.constants| {
          Raise(BadConstant);
        } else if ConstValue(image.constants[idx]).None? {
          Raise(BadOperand);
        } else {
          ok := Push(ConstValue(image.constants[idx]).value);
        }
      } else if op == OP_POP {
        ok, v := Pop();
      } else if op == OP_DUP {
        if sp == 0 {
          Raise(StackUnderflow);
        } else {
          ok := Push(stack[sp - 1]);
        }
      } else {
        ExecLocal(op, i);
      }
    }

    /** Loads or stores a slot of the running frame. */
    method ExecLocal(op: Byte, ghost i: Instr)
      requires Fetched(i) && op == i.Opcode() && (i.LoadLocal? || i.StoreLocal?)
      modifies this, stack
      ensures Valid() && Agrees(Exec(image, old(Past(i)), i))
    {
      var slot := FetchU16();
      var at := frames[fp - 1].base + slot;
      if op == OP_LOAD_LOCAL {
        if at >= sp {
          Raise(Wild);
        } else {
          var _ := Push(stack[at]);
        }
      } else {
        var ok, v := Pop();
        if !ok { return; }
        if at >= sp {
          Raise(Wild);
        } else {
          stack[at] := v;
        }
      }
    }

    /** Arithmetic, comparison and bitwise operators on the top two values. */
    method ExecBinary(op: Byte, ghost i: Instr)
      requires Fetched(i) && i.Binary? && op == i.Opcode()
      modifies this, stack
      ensures Valid() && Agrees(Exec(image, old(Past(i)), i))
    {
      OpcodeRoundTrip(i);
      var ok, b := Pop();
      if !ok { return; }
      var a;
      ok, a := Pop();
      if !ok { return; }
      assert old(State()).stack == State().stack + [a, b];
      var v := MachineBinary(OpcodeBinary(op).value, a, b);
      if v.None? {
        Raise(BadOperand);
      } else {
        ok := Push(v.value);
      }
    }

    method ExecUnary(op: Byte, ghost i: Instr)
      requires Fetched(i) && i.Unary? && op == i.Opcode()
      modifies this, stack
      ensures Valid() && Agrees(Exec(image, old(Past(i)), i))
    {
      OpcodeRoundTrip(i);
      var ok, a := Pop();
      if !ok { return; }
      var v := MachineUnary(OpcodeUnary(op).value, a);
      if v.None? {
        Raise(BadOperand);
      } else {
        ok := Push(v.value);
      }
    }

    method ExecBranch(op: Byte, ghost i: Instr)
      requires Fetched(i) && (i.Jump? || i.JumpIfFalse? || i.JumpIfTrue?) && op == i.Opcode()
      modifies this
      ensures Valid() && Agrees(Exec(image, old(Past(i)), i))
    {
      var offset := FetchI32();
      if op == OP_JUMP {
        ip := Target(ip, offset);
        return;
      }
      var ok, cond := Pop();
      if ok && (op == OP_JUMP_IF_TRUE) == Truthy(cond) {
        ip := Target(ip, offset);
      }
    }

    /** Pushes a frame whose locals are the arguments followed by nulls. */
    method ExecCall(ghost i: Instr)
      requires Fetched(i) && i.Call?
      modifies this, stack, frames
      ensures Valid() && Agrees(Exec(image, old(Past(i)), i))
    {
      hide Exec;
      ExecShape(image, Past(i), i);
      var func := FetchU16();
      var argc := ReadByte();
      var _ := ReadByte();
      if func >= |image.functions| {
        Raise(BadFunction);
        return;
      }
      if fp >= FRAMES_MAX {
        Raise(FrameOverflow);
        return;
      }
      var callee := image.functions[func];
      if argc != callee.arity {
        Raise(ArityMismatch);
        return;
      }
      if argc > sp {
        Raise(Wild);
        return;
      }
      frames[fp] := Frame(func, ip, sp - argc);
      fp := fp + 1;
      assert frames[..fp] == old(frames[..fp]) + [Frame(func, ip, sp - argc)];
      var ok := PushNulls(if callee.localCount > argc then callee.localCount - argc else 0);
      if ok { ip := callee.codeOffset; }
    }

    method PushNulls(n: nat) returns (ok: bool)
      requires Valid() && error.None?
      modifies this`sp, this`error, stack
      ensures Valid() && ok == error.None? && frames[..] == old(frames[..])
      ensures Agrees(if old(sp) + n > STACK_MAX then Fail(StackOverflow)
                     else Next(old(State()).(stack := old(State()).stack + Nulls(n))))
    {
      ghost var start := State();
      assert start.stack + Nulls(0) == start.stack;
      ok := true;
      var k := 0;
      while k < n
        invariant 0 <= k <= n && Valid() && error.None? && ok && frames[..] == old(frames[..])
        invariant State() == start.(stack := start.stack + Nulls(k)) && sp == old(sp) + k
      {
        ok := Push(Null);
        if !ok { return; }
        assert start.stack + Nulls(k) + [Null] == start.stack + Nulls(k + 1);
        k := k + 1;
      }
    }

    /** Drops the frame with its locals and operands; the result takes their place. */
    method ExecReturn(ghost i: Instr)
      requires Fetched(i) && i.Return?
      modifies this, stack
      ensures Valid() && Agrees(Exec(image, old(Past(i)), i))
    {
      hide Exec; hide Decode;
      ExecShape(image, Past(i), i);
      var ok, result := Pop();
      if !ok { return; }
      ghost var popped := State();
      fp := fp - 1;
      assert frames[..fp] == old(frames[..fp])[..fp];
      if fp == 0 {
        sp := 0;
        ok := Push(result);
        halted := true;
        return;
      }
      var frame := frames[fp];
      if frame.base > sp {
        Raise(Wild);
        return;
      }
      sp := frame.base;
      ip := frame.returnIp;
      assert stack[..sp] == popped.stack[..frame.base];
      ok := Push(result);
    }

    method ExecIntrinsic(ghost i: Instr)
      requires Fetched(i) && i.Intrinsic?
      modifies this
      ensures Valid() && Agrees(Exec(image, old(Past(i)), i))
    {
      var id := FetchU16();
      var argc := ReadByte();
      var _ := ReadByte();
      if id != INTRINSIC_PRINT || argc != 1 {
        Raise(BadIntrinsic);
      } else if sp == 0 {
        Raise(Wild);
      } else {
        out := out + [stack[sp - 1]];
        sp := sp - 1;
      }
    }

    // ----- Dispatch -----

    method Dispatch(op: Byte)
      requires Running() && 0 < ip <= |image.code| && op == image.code[ip - 1]
      modifies this, stack, frames
      ensures Valid() && Agrees(Step(image, old(State()).(ip := old(ip) - 1)))
    {
      if OperandBytes(op) < 0 {
        Raise(BadOpcode);
        return;
      }
      if ip + OperandBytes(op) > |image.code| {
        Raise(Wild);
        return;
      }
      ghost var i := Decode(image.code, ip - 1).value;
      OpcodeRoundTrip(i);
      if op == OP_CONST || op == OP_POP || op == OP_DUP || op == OP_LOAD_LOCAL || op == OP_STORE_LOCAL {
        ExecStackOrLocal(op, i);
      } else if op == OP_JUMP || op == OP_JUMP_IF_FALSE || op == OP_JUMP_IF_TRUE {
        ExecBranch(op, i);
      } else if op == OP_CALL {
        ExecCall(i);
      } else if op == OP_RETURN {
        ExecReturn(i);
      } else if op == OP_INTRINSIC {
        ExecIntrinsic(i);
      } else if op == OP_HALT {
        halted := true;
      } else if OpcodeBinary(op).Some? {
        ExecBinary(op, i);
      } else {
        ExecUnary(op, i);
      }
    }

    /** Main's frame, its locals set to null. */
    method SetupMain()
      requires Valid() && error.None? && !halted && fp == 0
      requires image.functions != []
      modifies this, stack, frames
      ensures Valid()
      ensures if image.functions[0].localCount <= STACK_MAX then Running() && State() == Boot(image) else error == Some(Wild)
    {
      var main := image.functions[0];
      if main.localCount > STACK_MAX {
        Raise(Wild);
        return;
      }
      frames[0] := Frame(0, 0, 0);
      fp, ip, sp, out := 1, main.codeOffset, main.localCount, [];
      var k := 0;
      while k < main.localCount
        invariant 0 <= k <= main.localCount
        modifies stack
        invariant forall j :: 0 <= j < k ==> stack[j] == Null
      {
        stack[k] := Null;
        k := k + 1;
      }
      assert stack[..sp] == Nulls(main.localCount);
      assert frames[..fp] == [Frame(0, 0, 0)];
    }

    /** Fetches and runs one instruction. */
    method StepOnce()
      requires Running()
      modifies this, stack, frames
      ensures Valid() && Agrees(Step(image, old(State())))
      ensures error.None? && !halted ==> Running()
    {
      hide Exec;
      if ip >= |image.code| {
        Raise(IpOutOfBounds);
      } else {
        var op := ReadByte();
        Dispatch(op);
      }
    }

    /** Runs until a halt or a fault, for at most `steps` instructions. */
    method RunSteps(steps: nat)
      requires Running()
      modifies this, stack, frames
      ensures Valid() && Agrees(Run(image, Next(old(State())), steps))
    {
      hide Step; hide Run;
      var k := 0;
      ghost var all := Run(image, Next(State()), steps);
      while k < steps && !halted && error.None?
        invariant 0 <= k <= steps && Valid()
        invariant error.None? && !halted ==> Running()
        invariant error.Some? ==> all == Fail(error.value)
        invariant error.None? && halted ==> all == Next(State())
        invariant error.None? && !halted ==> all == Run(image, Next(State()), steps - k)
      {
        ghost var before := State();
        RunUnfold(image, before, steps - k);
        RunStopped(image, Step(image, before), steps - k - 1);
        StepOnce();
        k := k + 1;
      }
      if error.None? {
        RunStopped(image, Next(State()), 0);
      }
    }
  }

  lemma ExecShape(img: Image, vm: Vm, i: Instr)
    requires vm.frames != []
    ensures i.Call? ==> Exec(img, vm, i) == Machine.ExecCall(img, vm, i.func, i.argc)
    ensures i.Return? ==> Exec(img, vm, i) == Machine.ExecReturn(vm)
  {
  }

  lemma RunUnfold(img: Image, vm: Vm, k: nat)
    requires !vm.halted && vm.frames != [] && k > 0
    ensures Run(img, Next(vm), k) == Run(img, Step(img, vm), k - 1)
  {
  }

  lemma RunStopped(img: Image, o: Outcome, k: nat)
    requires o.Next? && !o.vm.halted ==> o.vm.frames != []
    ensures o.Fail? || o.vm.halted || k == 0 ==> Run(img, o, k) == o
  {
  }

  /** An opcode byte decodes to the operator that encodes to it, and to no other group. */
  lemma OpcodeRoundTrip(i: Instr)
    ensures i.Binary? ==> OpcodeBinary(i.Opcode()) == Some(i.bop)
    ensures i.Unary? ==> OpcodeUnary(i.Opcode()) == Some(i.uop) && OpcodeBinary(i.Opcode()).None?
  {
  }

  /** What a run of an image prints and leaves, or the fault it stops with; None if `steps` were not enough. */
  method Execute(image: Image, steps: nat) returns (o: Option<Outcome>)
    requires image.functions != []
    ensures image.functions[0].localCount <= STACK_MAX ==>
              var r := Run(image, Next(Boot(image)), steps);
              o == if r.Fail? || r.vm.halted then Some(r) else None
  {
    var vm := new Processor(image);
    vm.SetupMain();
    if vm.error.Some? {
      return Some(Fail(vm.error.value));
    }
    vm.RunSteps(steps);
    if vm.error.Some? {
      o := Some(Fail(vm.error.value));
    } else if vm.halted {
      o := Some(Next(Vm(vm.stack[..vm.sp], vm.frames[..vm.fp], vm.ip, vm.halted, vm.out)));
    } else {
      o := None;
    }
  }
}
