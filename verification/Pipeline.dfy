/** The whole path from a graph to a run: the compiler and the machine together do what the interpreter says. */
module Pipeline {
  import opened Values
  import opened Bytecode
  import opened SemanticGraph
  import opened Interpreter
  import opened CodeGen
  import opened Machine
  import opened Support
  import opened CompilerCorrectness
  import opened Compiling
  import opened VirtualMachine

  ghost predicate Final(o: Machine.Outcome) { o.Next? ==> o.vm.halted }

  /** A run has one end, whatever step bounds it is observed with. */
  lemma {:induction false} FinalUnique(img: Image, vm: Vm, j: nat, k: nat)
    requires Alive(vm) && Final(Run(img, Next(vm), j)) && Final(Run(img, Next(vm), k))
    ensures Run(img, Next(vm), j) == Run(img, Next(vm), k)
  {
    if j <= k {
      RunCompose(img, Next(vm), j, k - j);
      RunStopped(img, Run(img, Next(vm), j), k - j);
    } else {
      RunCompose(img, Next(vm), k, j - k);
      RunStopped(img, Run(img, Next(vm), k), j - k);
    }
  }

  /** What may be observed of a run that delivers prints and a result: only that, or stack overflow. */
  lemma {:induction false} DeliversEnds(img: Image, out: seq<Value>, result: Option<Value>, steps: nat)
    requires img.functions != [] && Delivers(img, out, result)
    requires Final(Run(img, Next(Boot(img)), steps))
    ensures var end := Run(img, Next(Boot(img)), steps);
            end == Machine.Fail(StackOverflow) ||
            (end.Next? && end.vm.out == out &&
             (result.Some? ==> end.vm.stack != [] && end.vm.stack[|end.vm.stack| - 1] == result.value))
  {
    var k: nat :|
      var end := Run(img, Next(Boot(img)), k);
      end == Machine.Fail(StackOverflow) ||
      (end.Next? && end.vm.halted && end.vm.out == out &&
       (result.Some? ==> end.vm.stack != [] && end.vm.stack[|end.vm.stack| - 1] == result.value));
    FinalUnique(img, Boot(img), k, steps);
  }

  /** An ended run is a stack overflow, or has the interpreter's prints (and the output once more) and its result on top. */
  ghost predicate AsInterpreted(p: Program, o: Option<Machine.Outcome>)
    requires WellFormed(p)
  {
    var r := Interpret(p);
    match o
    case None => true
    case Some(Fail(f)) => f == StackOverflow
    case Some(Next(vm)) =>
      vm.halted &&
      if HasOutput(p.g) then vm.out == r.out + [r.result] && vm.stack != [] && vm.stack[|vm.stack| - 1] == r.result
      else vm.out == r.out
  }

  /** What a supported program's image is observed to do within any number of steps. */
  lemma {:induction false} EndAsInterpreted(p: Program, steps: nat)
    requires WellFormed(p) && Supported(p) && Compile(p).success && Fits(Compile(p).image) && Interpret(p).success
    ensures var img := Compile(p).image;
            img.functions != [] &&
            var end := Run(img, Next(Boot(img)), steps);
            AsInterpreted(p, if end.Fail? || end.vm.halted then Some(end) else None)
  {
    hide Compile; hide Supported; hide Interpret; hide Ranked; hide Delivers; hide Boot; hide Run;
    CompilerCorrect(p);
    var img, r := Compile(p).image, Interpret(p);
    var end := Run(img, Next(Boot(img)), steps);
    if end.Fail? || end.vm.halted {
      if HasOutput(p.g) {
        DeliversEnds(img, r.out + [r.result], Some(r.result), steps);
      } else {
        DeliversEnds(img, r.out, None, steps);
      }
    }
  }

  /** Compiles a graph and runs the image. */
  method CompileAndRun(p: Program, steps: nat) returns (o: Option<Machine.Outcome>)
    requires WellFormed(p)
    ensures Supported(p) && Compile(p).success && Fits(Compile(p).image) && Interpret(p).success ==> AsInterpreted(p, o)
  {
    hide Compile; hide Supported; hide Interpret; hide Ranked; hide AsInterpreted; hide Boot; hide Run;
    var image, success := CompileGraph(p);
    CompiledHasMain(p);
    o := Execute(image, steps);
    if Supported(p) && Compile(p).success && Fits(Compile(p).image) && Interpret(p).success {
      assert image.functions[0].localCount <= 256;
      EndAsInterpreted(p, steps);
    }
  }

  lemma CompiledHasMain(p: Program)
    requires WellFormed(p)
    ensures Compile(p).image.functions != []
  {
    hide Functions; hide MainCode;
  }
}
