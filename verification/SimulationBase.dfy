/** The relation between interpreter states and machine states, and its frame lemmas. */
module SimulationBase {
  import opened Values
  import opened Bytecode
  import opened SemanticGraph
  import opened Interpreter
  import opened CodeGen
  import opened Machine
  import opened Support

  /** A linked image: functions moved up by `d`, function `k` compiled from state `starts[k]`. */
  datatype Link = Link(img: Image, d: nat, names: seq<string>, ids: seq<nat>, starts: seq<Cst>)

  /** The code being run: where it is linked, its final locals, and the interpreter's frame. */
  datatype Scope = Scope(l: Link, cx: Cx, locals: seq<string>, c: Ctx)

  // ----- Code -----

  ghost predicate CodeAt(l: Link, ip: nat, code: seq<Instr>) {
    At(l.img.code, ip, Relocate(l.d, code))
  }

  lemma RelocateConcat(d: nat, a: seq<Instr>, b: seq<Instr>)
    ensures Relocate(d, a + b) == Relocate(d, a) + Relocate(d, b)
  {
  }

  lemma {:induction false} RelocateSize(d: nat, a: seq<Instr>)
    ensures Size(Relocate(d, a)) == Size(a)
  {
    if a != [] {
      assert Relocate(d, a)[1..] == Relocate(d, a[1..]);
      RelocateSize(d, a[1..]);
    }
  }

  lemma {:induction false} CodeSplit(l: Link, ip: nat, a: seq<Instr>, b: seq<Instr>)
    requires CodeAt(l, ip, a + b)
    ensures CodeAt(l, ip, a) && CodeAt(l, ip + Size(a), b)
    ensures Size(a + b) == Size(a) + Size(b)
  {
    RelocateConcat(l.d, a, b);
    RelocateSize(l.d, a);
    AtSplit(l.img.code, ip, Relocate(l.d, a), Relocate(l.d, b));
    SizeConcat(a, b);
  }

  lemma {:induction false} CodeSplit3(l: Link, ip: nat, a: seq<Instr>, b: seq<Instr>, c: seq<Instr>)
    requires CodeAt(l, ip, a + b + c)
    ensures CodeAt(l, ip, a) && CodeAt(l, ip + Size(a), b) && CodeAt(l, ip + Size(a) + Size(b), c)
    ensures Size(a + b + c) == Size(a) + Size(b) + Size(c)
  {
    hide CodeAt; hide Size;
    CodeSplit(l, ip, a + b, c);
    CodeSplit(l, ip, a, b);
  }

  lemma {:induction false} CodeBound(l: Link, ip: nat, code: seq<Instr>)
    requires CodeAt(l, ip, code)
    ensures ip + Size(code) <= |l.img.code|
  {
    RelocateSize(l.d, code);
  }

  /** Runs the single instruction at the machine's position. */
  lemma {:induction false} StepOne(l: Link, a: Vm, i: Instr, b: Vm)
    requires Alive(a) && CodeAt(l, a.ip, [i])
    requires var r := Exec(l.img, a.(ip := a.ip + i.Size()), RelocateOne(l.d, i));
             r == Next(b) || r == Machine.Fail(StackOverflow)
    ensures Reaches(l.img, a, b)
  {
    assert Relocate(l.d, [i]) == [RelocateOne(l.d, i)];
    ReachesStep(l.img, a, RelocateOne(l.d, i), b);
  }

  lemma {:induction false} OneSize(i: Instr)
    ensures Size([i]) == i.Size()
  {
    EncodeOne(i);
  }

  // ----- Variables -----

  lemma {:induction false} FindVarUpdate(vars: Vars, i: nat, v: Value, name: string)
    requires i < |vars|
    ensures FindVar(vars[i := (vars[i].0, v)], name) == FindVar(vars, name)
    decreases vars
  {
    var vars' := vars[i := (vars[i].0, v)];
    var k := |vars| - 1;
    if vars[k].0 != name {
      if i < k {
        assert vars'[..k] == vars[..k][i := (vars[..k][i].0, v)];
        FindVarUpdate(vars[..k], i, v, name);
      } else {
        assert vars'[..k] == vars[..k];
      }
    }
  }

  lemma {:induction false} FindVarAppend(vars: Vars, x: string, v: Value, name: string)
    ensures FindVar(vars + [(x, v)], name) == if x == name then |vars| else FindVar(vars, name)
  {
    assert (vars + [(x, v)])[..|vars|] == vars;
  }

  /** In a table without duplicates a name found in a prefix keeps its slot. */
  lemma FindLocalPrefix(a: seq<string>, b: seq<string>, name: string)
    requires a <= b && Distinct(b) && FindLocal(a, name) >= 0
    ensures FindLocal(b, name) == FindLocal(a, name)
  {
    var i, j := FindLocal(a, name), FindLocal(b, name);
    assert b[i] == b[j] == name;
  }

  lemma SlotOf(b: seq<string>, i: nat)
    requires Distinct(b) && i < |b|
    ensures FindLocal(b, b[i]) == i
  {
    assert b[FindLocal(b, b[i])] == b[i];
  }

  /** A variable's value is in its slot. */
  ghost predicate Bound(vm: Vm, locals: seq<string>, vars: Vars, name: string)
    requires vm.frames != [] && Base(vm) + |locals| <= |vm.stack|
  {
    FindVar(vars, name) >= 0 ==>
      FindLocal(locals, name) >= 0 &&
      vm.stack[Base(vm) + FindLocal(locals, name)] == vars[FindVar(vars, name)].1
  }

  ghost predicate Env(vm: Vm, locals: seq<string>, vars: Vars) {
    && vm.frames != []
    && Base(vm) + |locals| <= |vm.stack|
    && forall name :: Bound(vm, locals, vars, name)
  }

  lemma EnvExtend(a: Vm, b: Vm, locals: seq<string>, vars: Vars)
    requires Env(a, locals, vars) && b.frames == a.frames && a.stack <= b.stack
    ensures Env(b, locals, vars)
  {
    forall name ensures Bound(b, locals, vars, name) {
      assert Bound(a, locals, vars, name);
    }
  }

  /** Storing a value into the slot of a variable matches setting the variable. */
  lemma EnvStore(a: Vm, b: Vm, locals: seq<string>, vars: Vars, vars': Vars, x: string, v: Value)
    requires Env(a, locals, vars) && b.frames == a.frames && Distinct(locals)
    requires FindLocal(locals, x) >= 0
    requires b.stack == a.stack[Base(a) + FindLocal(locals, x) := v]
    requires forall name :: FindVar(vars', name) >= 0 ==>
               if name == x then vars'[FindVar(vars', name)].1 == v
               else FindVar(vars, name) >= 0 && vars'[FindVar(vars', name)].1 == vars[FindVar(vars, name)].1
    ensures Env(b, locals, vars')
  {
    forall name ensures Bound(b, locals, vars', name) {
      assert Bound(a, locals, vars, name);
      if FindVar(vars', name) >= 0 && name != x {
        assert FindLocal(locals, name) != FindLocal(locals, x);
      }
    }
  }

  lemma SetVarLooksUp(outer: nat, st: State, x: string, v: Value)
    requires !SetVar(outer, st, x, v).io.err
    ensures SetVar(outer, st, x, v).io == st.io
    ensures var vars' := SetVar(outer, st, x, v).vars;
            forall name :: FindVar(vars', name) >= 0 ==>
              if name == x then vars'[FindVar(vars', name)].1 == v
              else FindVar(st.vars, name) >= 0 && vars'[FindVar(vars', name)].1 == st.vars[FindVar(st.vars, name)].1
  {
    var vars' := SetVar(outer, st, x, v).vars;
    var i := FindVar(st.vars, x);
    forall name
      ensures FindVar(vars', name) >= 0 ==>
        if name == x then vars'[FindVar(vars', name)].1 == v
        else FindVar(st.vars, name) >= 0 && vars'[FindVar(vars', name)].1 == st.vars[FindVar(st.vars, name)].1
    {
      if i >= 0 {
        FindVarUpdate(st.vars, i, v, name);
      } else {
        FindVarAppend(st.vars, x, v, name);
      }
    }
  }

  lemma UpdateLooksUp(vars: Vars, x: string, v: Value)
    requires FindVar(vars, x) >= 0
    ensures var i := FindVar(vars, x); var vars' := vars[i := (vars[i].0, v)];
            forall name :: FindVar(vars', name) >= 0 ==>
              if name == x then vars'[FindVar(vars', name)].1 == v
              else FindVar(vars, name) >= 0 && vars'[FindVar(vars', name)].1 == vars[FindVar(vars, name)].1
  {
    var i := FindVar(vars, x);
    var vars' := vars[i := (vars[i].0, v)];
    forall name
      ensures FindVar(vars', name) >= 0 ==>
        if name == x then vars'[FindVar(vars', name)].1 == v
        else FindVar(vars, name) >= 0 && vars'[FindVar(vars', name)].1 == vars[FindVar(vars, name)].1
    {
      FindVarUpdate(vars, i, v, name);
    }
  }

  // ----- Machine states -----

  /** The state after code of `k` bytes that pushes `v`. */
  function Pushed(vm: Vm, k: nat, v: Value, out: seq<Value>): Vm {
    vm.(ip := vm.ip + k, stack := vm.stack + [v], out := out)
  }

  /** The caller's state when the current frame returns. */
  function Unwound(vm: Vm, io: Io): Vm
    requires |vm.frames| >= 2 && Base(vm) <= |vm.stack|
  {
    vm.(stack := vm.stack[..Base(vm)] + [io.result], frames := vm.frames[..|vm.frames| - 1],
        ip := vm.frames[|vm.frames| - 1].returnIp, out := io.out)
  }

  /** The frame after statements of `k` bytes: the same height, everything below it untouched. */
  ghost predicate Settled(a: Vm, b: Vm, locals: seq<string>, k: nat, st: State)
    requires a.frames != [] && Base(a) <= |a.stack|
  {
    && b.frames == a.frames
    && b.ip == a.ip + k
    && !b.halted
    && |b.stack| == |a.stack|
    && b.stack[..Base(a)] == a.stack[..Base(a)]
    && Env(b, locals, st.vars)
    && b.out == st.io.out
  }

  /** What running statements of `k` bytes leads to: the end of their code, or the caller. */
  ghost predicate Ran(s: Scope, a: Vm, b: Vm, k: nat, st: State)
    requires Alive(a) && Base(a) <= |a.stack|
  {
    && Alive(b)
    && Reaches(s.l.img, a, b)
    && (if st.io.returned then |a.frames| >= 2 && b == Unwound(a, st.io) else Settled(a, b, s.locals, k, st))
  }

  lemma RanThen(s: Scope, a: Vm, b: Vm, c: Vm, j: nat, k: nat, mid: State, st: State)
    requires Alive(a) && Base(a) <= |a.stack| && !mid.io.returned
    requires Ran(s, a, b, j, mid) && Ran(s, b, c, k, st)
    ensures Ran(s, a, c, j + k, st)
  {
    ReachesTrans(s.l.img, a, b, c);
  }

  // ----- Composing machine runs -----

  lemma ExecBinary(img: Image, vm: Vm, op: BinOp, x: Value, y: Value, v: Value)
    requires vm.frames != [] && MachineBinary(op, x, y) == Some(v)
    ensures var r := Exec(img, vm.(stack := vm.stack + [x] + [y]), Binary(op));
            r == Next(vm.(stack := vm.stack + [v])) || r == Machine.Fail(StackOverflow)
  {
    var s := vm.stack + [x] + [y];
    assert s[..|s| - 2] == vm.stack;
    assert s[|s| - 2] == x && s[|s| - 1] == y;
  }

  /** Two operands, then the operator. */
  lemma {:induction false} GlueBinary(l: Link, vm: Vm, a: seq<Instr>, b: seq<Instr>, op: BinOp,
                                      x: Value, y: Value, v: Value, mid: seq<Value>, out: seq<Value>)
    requires Alive(vm) && CodeAt(l, vm.ip, a + b + [Binary(op)])
    requires var vm1 := Pushed(vm, Size(a), x, mid);
             Reaches(l.img, vm, vm1) && Reaches(l.img, vm1, Pushed(vm1, Size(b), y, out))
    requires MachineBinary(op, x, y) == Some(v)
    ensures Reaches(l.img, vm, Pushed(vm, Size(a + b + [Binary(op)]), v, out))
  {
    hide CodeAt; hide Reaches; hide Size;
    CodeSplit3(l, vm.ip, a, b, [Binary(op)]);
    OneSize(Binary(op));
    var vm1 := Pushed(vm, Size(a), x, mid);
    var vm2 := Pushed(vm1, Size(b), y, out);
    var vm3 := Pushed(vm, Size(a + b + [Binary(op)]), v, out);
    ReachesTrans(l.img, vm, vm1, vm2);
    ExecBinary(l.img, vm.(ip := vm3.ip, out := out), op, x, y, v);
    StepOne(l, vm2, Binary(op), vm3);
    ReachesTrans(l.img, vm, vm2, vm3);
  }

  /** One operand, then an instruction on it. */
  lemma {:induction false} GlueOne(l: Link, vm: Vm, a: seq<Instr>, x: Value, out: seq<Value>, i: Instr, end: Vm)
    requires Alive(vm) && CodeAt(l, vm.ip, a + [i])
    requires Reaches(l.img, vm, Pushed(vm, Size(a), x, out))
    requires var vm1 := Pushed(vm, Size(a), x, out);
             var r := Exec(l.img, vm1.(ip := vm1.ip + i.Size()), RelocateOne(l.d, i));
             r == Next(end) || r == Machine.Fail(StackOverflow)
    ensures Reaches(l.img, vm, end)
    ensures Size(a + [i]) == Size(a) + i.Size()
  {
    hide CodeAt; hide Reaches; hide Size;
    CodeSplit(l, vm.ip, a, [i]);
    OneSize(i);
    StepOne(l, Pushed(vm, Size(a), x, out), i, end);
    ReachesTrans(l.img, vm, Pushed(vm, Size(a), x, out), end);
  }

  lemma {:induction false} GlueUnary(l: Link, vm: Vm, a: seq<Instr>, x: Value, out: seq<Value>, op: UnOp)
    requires Alive(vm) && CodeAt(l, vm.ip, a + [Unary(op)])
    requires Reaches(l.img, vm, Pushed(vm, Size(a), x, out))
    requires MachineUnary(op, x).Some?
    ensures Reaches(l.img, vm, Pushed(vm, Size(a + [Unary(op)]), MachineUnary(op, x).value, out))
  {
    hide CodeAt; hide Reaches; hide Size;
    var end := Pushed(vm, Size(a) + 1, MachineUnary(op, x).value, out);
    var vm1 := Pushed(vm, Size(a), x, out);
    assert vm1.stack[..|vm1.stack| - 1] == vm.stack;
    GlueOne(l, vm, a, x, out, Unary(op), end);
  }

  lemma {:induction false} StepDup(l: Link, vm: Vm, x: Value)
    requires Alive(vm) && CodeAt(l, vm.ip, [Dup]) && vm.stack != [] && vm.stack[|vm.stack| - 1] == x
    ensures Reaches(l.img, vm, Pushed(vm, 1, x, vm.out))
  {
    StepOne(l, vm, Dup, Pushed(vm, 1, x, vm.out));
  }

  lemma {:induction false} StepPop(l: Link, vm: Vm, x: Value)
    requires Alive(vm) && CodeAt(l, vm.ip, [Pop])
    ensures Reaches(l.img, vm.(stack := vm.stack + [x]), vm.(ip := vm.ip + 1))
  {
    assert (vm.stack + [x])[..|vm.stack|] == vm.stack;
    StepOne(l, vm.(stack := vm.stack + [x]), Pop, vm.(ip := vm.ip + 1));
  }

  lemma {:induction false} StepJump(l: Link, vm: Vm, offset: int)
    requires Alive(vm) && CodeAt(l, vm.ip, [Jump(offset)]) && 0 <= vm.ip + 5 + offset < TWO_32
    ensures Reaches(l.img, vm, vm.(ip := vm.ip + 5 + offset))
  {
    StepOne(l, vm, Jump(offset), vm.(ip := vm.ip + 5 + offset));
  }

  /** A conditional jump on the value just pushed. */
  lemma {:induction false} StepTest(l: Link, vm: Vm, ifTrue: bool, offset: int, x: Value)
    requires Alive(vm) && CodeAt(l, vm.ip, [SkipJump(ifTrue, offset)]) && 0 <= vm.ip + 5 + offset < TWO_32
    ensures Reaches(l.img, vm.(stack := vm.stack + [x]),
                    vm.(ip := vm.ip + 5 + if Truthy(x) == ifTrue then offset else 0))
  {
    assert (vm.stack + [x])[..|vm.stack|] == vm.stack;
    StepOne(l, vm.(stack := vm.stack + [x]), SkipJump(ifTrue, offset),
            vm.(ip := vm.ip + 5 + if Truthy(x) == ifTrue then offset else 0));
  }

  /** The value on top is copied and tested: either the jump is taken, or the value is popped. */
  lemma {:induction false} GlueTest(l: Link, vm: Vm, isOr: bool, offset: nat, x: Value)
    requires Alive(vm) && CodeAt(l, vm.ip, [Dup]) && CodeAt(l, vm.ip + 1, [SkipJump(isOr, offset)])
    requires CodeAt(l, vm.ip + 6, [Pop]) && vm.ip + 6 + offset < TWO_31
    ensures var top := vm.(stack := vm.stack + [x]);
            Reaches(l.img, top, if Truthy(x) == isOr then top.(ip := vm.ip + 6 + offset) else vm.(ip := vm.ip + 7))
  {
    hide CodeAt; hide Reaches; hide Size;
    var top := vm.(stack := vm.stack + [x]);
    StepDup(l, top, x);
    var vm1 := Pushed(top, 1, x, vm.out);
    var vm2 := top.(ip := vm.ip + 6 + if Truthy(x) == isOr then offset else 0);
    StepTest(l, top.(ip := vm.ip + 1), isOr, offset, x);
    ReachesTrans(l.img, top, vm1, vm2);
    if Truthy(x) != isOr {
      StepPop(l, vm.(ip := vm.ip + 6), x);
      ReachesTrans(l.img, top, vm2, vm.(ip := vm.ip + 7));
    }
  }

  lemma {:induction false} ThreeLayout(l: Link, ip: nat, i: Instr, j: Instr, k: Instr)
    requires CodeAt(l, ip, [i, j, k])
    ensures CodeAt(l, ip, [i]) && CodeAt(l, ip + i.Size(), [j]) && CodeAt(l, ip + i.Size() + j.Size(), [k])
    ensures Size([i, j, k]) == i.Size() + j.Size() + k.Size()
  {
    hide CodeAt; hide Size;
    assert [i, j, k] == [i] + [j] + [k];
    OneSize(i);
    OneSize(j);
    OneSize(k);
    CodeSplit3(l, ip, [i], [j], [k]);
  }

  lemma {:induction false} ShortCircuitLayout(l: Link, ip: nat, a: seq<Instr>, skip: Instr, b: seq<Instr>)
    requires CodeAt(l, ip, a + [Dup, skip, Pop] + b) && skip.Size() == 5
    ensures CodeAt(l, ip, a) && CodeAt(l, ip + Size(a) + 7, b)
    ensures CodeAt(l, ip + Size(a), [Dup]) && CodeAt(l, ip + Size(a) + 1, [skip]) && CodeAt(l, ip + Size(a) + 6, [Pop])
    ensures Size(a + [Dup, skip, Pop] + b) == Size(a) + 7 + Size(b)
    ensures ip + Size(a) + 7 + Size(b) <= |l.img.code|
  {
    hide CodeAt; hide Size;
    CodeSplit3(l, ip, a, [Dup, skip, Pop], b);
    ThreeLayout(l, ip + Size(a), Dup, skip, Pop);
    CodeBound(l, ip + Size(a) + 7, b);
  }

  /** The left value; then either the end or the right value. */
  lemma {:induction false} GlueShortCircuit(l: Link, vm: Vm, k: nat, isOr: bool, m: nat,
                                            x: Value, mid: seq<Value>, y: Value, out: seq<Value>)
    requires Alive(vm) && CodeAt(l, vm.ip + k, [Dup]) && CodeAt(l, vm.ip + k + 1, [SkipJump(isOr, 1 + m)])
    requires CodeAt(l, vm.ip + k + 6, [Pop]) && vm.ip + k + 7 + m < TWO_31
    requires Reaches(l.img, vm, Pushed(vm, k, x, mid))
    requires if Truthy(x) == isOr then y == x && out == mid
             else var vm1 := vm.(ip := vm.ip + k + 7, out := mid); Reaches(l.img, vm1, Pushed(vm1, m, y, out))
    ensures Reaches(l.img, vm, Pushed(vm, k + 7 + m, y, out))
  {
    hide CodeAt; hide Reaches; hide Size;
    var vm1 := Pushed(vm, k, x, mid);
    var vm2 := vm.(ip := vm.ip + k + 7, out := mid);
    GlueTest(l, vm.(ip := vm.ip + k, out := mid), isOr, 1 + m, x);
    if Truthy(x) == isOr {
      ReachesTrans(l.img, vm, vm1, Pushed(vm, k + 7 + m, y, out));
    } else {
      ReachesTrans(l.img, vm, vm1, vm2);
      ReachesTrans(l.img, vm, vm2, Pushed(vm2, m, y, out));
    }
  }

  // ----- Statements -----

  lemma {:induction false} StepStore(l: Link, vm: Vm, slot: nat, x: Value)
    requires Alive(vm) && CodeAt(l, vm.ip, [StoreLocal(slot)]) && Base(vm) + slot < |vm.stack|
    ensures Reaches(l.img, vm.(stack := vm.stack + [x]),
                    vm.(ip := vm.ip + 3, stack := vm.stack[Base(vm) + slot := x]))
  {
    assert (vm.stack + [x])[..|vm.stack|] == vm.stack;
    StepOne(l, vm.(stack := vm.stack + [x]), StoreLocal(slot),
            vm.(ip := vm.ip + 3, stack := vm.stack[Base(vm) + slot := x]));
  }

  lemma {:induction false} StepPrint(l: Link, vm: Vm, x: Value)
    requires Alive(vm) && CodeAt(l, vm.ip, [Intrinsic(INTRINSIC_PRINT, 1)])
    ensures Reaches(l.img, vm.(stack := vm.stack + [x]), vm.(ip := vm.ip + 5, out := vm.out + [x]))
  {
    assert (vm.stack + [x])[..|vm.stack|] == vm.stack;
    StepOne(l, vm.(stack := vm.stack + [x]), Intrinsic(INTRINSIC_PRINT, 1),
            vm.(ip := vm.ip + 5, out := vm.out + [x]));
  }

  lemma {:induction false} StepReturn(l: Link, vm: Vm, io: Io)
    requires Alive(vm) && CodeAt(l, vm.ip, [Return]) && |vm.frames| >= 2 && Base(vm) <= |vm.stack|
    ensures Reaches(l.img, vm.(stack := vm.stack + [io.result], out := io.out), Unwound(vm, io))
  {
    var top := vm.(stack := vm.stack + [io.result], out := io.out);
    assert top.stack[..Base(vm)] == vm.stack[..Base(vm)];
    StepOne(l, top, Return, Unwound(vm, io));
  }

  /** The callee's first state: the arguments and the other locals on top of the caller's stack. */
  function Entered(vm: Vm, f: nat, rec: FuncRecord, args: seq<Value>): Vm
    requires rec.localCount >= |args|
  {
    vm.(stack := vm.stack + args + Nulls(rec.localCount - |args|), ip := rec.codeOffset,
        frames := vm.frames + [Frame(f, vm.ip + 5, |vm.stack|)])
  }

  lemma {:induction false} StepCall(l: Link, vm: Vm, f: nat, args: seq<Value>)
    requires Alive(vm) && CodeAt(l, vm.ip, [Call(f, |args|)]) && f + l.d < |l.img.functions|
    requires l.img.functions[f + l.d].arity == |args| <= l.img.functions[f + l.d].localCount
    requires |vm.frames| < Machine.FRAMES_MAX
    ensures Reaches(l.img, vm.(stack := vm.stack + args), Entered(vm, f + l.d, l.img.functions[f + l.d], args))
  {
    StepOne(l, vm.(stack := vm.stack + args), Call(f, |args|),
            Entered(vm, f + l.d, l.img.functions[f + l.d], args));
  }

  lemma {:induction false} LoopLayout(l: Link, ip: nat, c: seq<Instr>, exit: Instr, b: seq<Instr>, back: Instr)
    requires CodeAt(l, ip, c + [exit] + b + [back]) && exit.Size() == 5 && back.Size() == 5
    ensures CodeAt(l, ip, c) && CodeAt(l, ip + Size(c), [exit])
    ensures CodeAt(l, ip + Size(c) + 5, b) && CodeAt(l, ip + Size(c) + 5 + Size(b), [back])
    ensures Size(c + [exit] + b + [back]) == Size(c) + Size(b) + 10
    ensures ip + Size(c) + Size(b) + 10 <= |l.img.code|
  {
    hide CodeAt; hide Size;
    OneSize(exit);
    OneSize(back);
    CodeSplit(l, ip, c + [exit] + b, [back]);
    CodeSplit3(l, ip, c, [exit], b);
    CodeBound(l, ip + Size(c) + 5 + Size(b), [back]);
  }

  lemma {:induction false} BranchLayout(l: Link, ip: nat, c: seq<Instr>, test: Instr, t: seq<Instr>, skip: Instr, e: seq<Instr>)
    requires CodeAt(l, ip, c + [test] + t + [skip] + e) && test.Size() == 5 && skip.Size() == 5
    ensures CodeAt(l, ip, c) && CodeAt(l, ip + Size(c), [test])
    ensures CodeAt(l, ip + Size(c) + 5, t) && CodeAt(l, ip + Size(c) + 5 + Size(t), [skip])
    ensures CodeAt(l, ip + Size(c) + Size(t) + 10, e)
    ensures Size(c + [test] + t + [skip] + e) == Size(c) + Size(t) + 10 + Size(e)
    ensures ip + Size(c) + Size(t) + 10 + Size(e) <= |l.img.code|
  {
    hide CodeAt; hide Size;
    CodeSplit(l, ip, c + [test] + t + [skip], e);
    LoopLayout(l, ip, c, test, t, skip);
    CodeBound(l, ip + Size(c) + Size(t) + 10, e);
  }
}
