/**
 A compiled program written to a file, read back and run. A character of a name stands
 for one byte; the machine of this model has no floats and no captures, so a file with
 either holds no image for it.
 */
module SavedPrograms {
  import opened Values
  import opened Bytecode
  import opened SemanticGraph
  import opened Interpreter
  import opened CodeGen
  import opened Machine
  import opened Support
  import opened CompilerCorrectness
  import opened Compiling
  import opened VirtualMachine
  import opened Pipeline
  import opened ImageFormat
  import opened Verifier
  import opened BalancedPrograms

  // ----- Images as file contents -----

  predicate ByteString(s: string) { forall k :: 0 <= k < |s| ==> s[k] as int < 256 }

  function StringBytes(s: string): seq<Byte>
    requires ByteString(s)
  {
    seq(|s|, k requires 0 <= k < |s| => s[k] as int)
  }

  function BytesString(s: seq<Byte>): string { seq(|s|, k requires 0 <= k < |s| => s[k] as char) }

  predicate ByteConstant(c: Constant) { c.StrConst? ==> ByteString(c.s) }

  predicate ByteNames(img: Image) { forall k :: 0 <= k < |img.constants| ==> ByteConstant(img.constants[k]) }

  function EntryOf(c: Constant): Entry
    requires ByteConstant(c)
  {
    match c
    case NullConst => NullEntry
    case BoolConst(b) => BoolEntry(b)
    case IntConst(i) => IntEntry(i)
    case StrConst(s) => StringEntry(StringBytes(s))
  }

  function ConstantOf(e: Entry): Constant
    requires !e.FloatEntry?
  {
    match e
    case NullEntry => NullConst
    case BoolEntry(b) => BoolConst(b)
    case IntEntry(i) => IntConst(i)
    case StringEntry(s) => StrConst(BytesString(s))
  }

  lemma EntryBack(c: Constant)
    requires ByteConstant(c)
    ensures ConstantOf(EntryOf(c)) == c
  {
    if c.StrConst? {
      assert BytesString(StringBytes(c.s)) == c.s;
    }
  }

  function RecordOf(f: FuncRecord): Record {
    Record(f.nameIdx, f.arity, f.localCount, f.maxStack, f.codeOffset, f.codeLength, [])
  }

  function FuncOf(r: Record): FuncRecord {
    FuncRecord(r.nameIdx, r.arity, r.localCount, r.maxStack, r.codeOffset, r.codeLength)
  }

  function Saved(img: Image): File
    requires ByteNames(img)
  {
    File(seq(|img.constants|, k requires 0 <= k < |img.constants| => EntryOf(img.constants[k])),
         seq(|img.functions|, k requires 0 <= k < |img.functions| => RecordOf(img.functions[k])), img.code, img.debug)
  }

  predicate Loadable(f: File) {
    && (forall k :: 0 <= k < |f.constants| ==> !f.constants[k].FloatEntry?)
    && forall k :: 0 <= k < |f.functions| ==> f.functions[k].captures == []
  }

  function Loaded(f: File): Image
    requires Loadable(f)
  {
    Image(seq(|f.constants|, k requires 0 <= k < |f.constants| => ConstantOf(f.constants[k])),
          seq(|f.functions|, k requires 0 <= k < |f.functions| => FuncOf(f.functions[k])), f.code, f.debug)
  }

  lemma LoadedSaved(img: Image)
    requires ByteNames(img)
    ensures Loadable(Saved(img)) && Loaded(Saved(img)) == img
  {
    hide EntryOf; hide ConstantOf;
    forall k | 0 <= k < |img.constants|
      ensures !EntryOf(img.constants[k]).FloatEntry? && ConstantOf(EntryOf(img.constants[k])) == img.constants[k]
    {
      EntryNoFloat(img.constants[k]);
      EntryBack(img.constants[k]);
    }
    assert Loaded(Saved(img)).constants == img.constants;
    assert Loaded(Saved(img)).functions == img.functions;
  }

  lemma EntryNoFloat(c: Constant)
    requires ByteConstant(c)
    ensures !EntryOf(c).FloatEntry?
  {
  }

  // ----- The compiler's pool is interned -----

  lemma {:induction false} SavedInterned(same: Sameness, img: Image)
    requires ByteNames(img)
    ensures Interned(same, Saved(img).constants) <==> NoRepeats(img.constants)
  {
    hide EntryOf; hide ConstantOf;
    var es := Saved(img).constants;
    forall i, j | 0 <= i < j < |es| ensures Same(same, es[i], es[j]) <==> img.constants[i] == img.constants[j] {
      EntryNoFloat(img.constants[i]);
      EntryBack(img.constants[i]);
      EntryBack(img.constants[j]);
    }
  }

  lemma CompiledInterned(p: Program)
    requires WellFormed(p)
    ensures NoRepeats(Compile(p).image.constants)
  {
    hide NoRepeats; hide Functions; hide MainCode;
  }

  /** A compiled image survives the file unchanged, constant indices included. */
  lemma {:induction false} CompiledSurvives(same: Sameness, p: Program)
    requires WellFormed(p) && ByteNames(Compile(p).image) && FileFits(Saved(Compile(p).image))
    ensures var f := Saved(Compile(p).image);
            Parse(same, Encode(f)) == Accepted(f) && Loadable(f) && Loaded(f) == Compile(p).image
  {
    hide Compile; hide Parse; hide Encode; hide Saved; hide Loaded; hide NoRepeats; hide Interned; hide FileFits; hide ByteNames; hide Loadable;
    CompiledInterned(p);
    SavedInterned(same, Compile(p).image);
    RoundTripExact(same, Saved(Compile(p).image));
    LoadedSaved(Compile(p).image);
  }

  /** Whatever survives the file is an image the machine runs to the interpreter's prints and result. */
  lemma {:induction false} SavedProgramRuns(same: Sameness, p: Program)
    requires WellFormed(p) && Supported(p) && Interpret(p).success
    requires Compile(p).success && Fits(Compile(p).image)
    requires ByteNames(Compile(p).image) && FileFits(Saved(Compile(p).image))
    ensures var read := Parse(same, Encode(Saved(Compile(p).image)));
            read.Accepted? && Loadable(read.file) && Loaded(read.file).functions != [] &&
            var r := Interpret(p);
            if HasOutput(p.g) then Delivers(Loaded(read.file), r.out + [r.result], Some(r.result))
            else Delivers(Loaded(read.file), r.out, None)
  {
    hide Compile; hide Parse; hide Encode; hide Saved; hide Loaded; hide FileFits; hide ByteNames; hide Loadable;
    hide Supported; hide Interpret; hide Delivers; hide Ranked;
    CompiledSurvives(same, p);
    CompilerCorrect(p);
  }

  // ----- The tools in sequence -----

  /**
   How a run of the tools ends: `TooLarge` is a file that outgrows a table, `Foreign` one
   with floats or captures, `Running` a run that goes on.
   */
  datatype Ending = CompileFailed | Rejected | BadFile | TooLarge | Foreign | Running | Ended(outcome: Machine.Outcome)

  ghost function EndingOf(o: Machine.Outcome): Ending { if o.Fail? || o.vm.halted then Ended(o) else Running }

  /** Whatever file is read, the verifier's own sums stay within 32 bits. */
  lemma {:induction false} LoadedFields(same: Sameness, bytes: seq<Byte>)
    requires Parse(same, bytes).Accepted? && Loadable(Parse(same, bytes).file)
    ensures var img := Loaded(Parse(same, bytes).file);
            |img.code| < TWO_32 && forall k :: 0 <= k < |img.functions| ==> Fields(img.functions[k])
  {
    hide Parse; hide Interned;
    ParsedFits(same, bytes);
    var f := Parse(same, bytes).file;
    forall k | 0 <= k < |f.functions| ensures Fields(Loaded(f).functions[k]) {
      assert RecordFits(f.functions[k]);
    }
  }

  /** The compiler tool: compiles, verifies, writes. */
  method CompileToFile(p: Program) returns (ending: Ending, bytes: seq<Byte>)
    requires WellFormed(p) && ByteNames(Compile(p).image)
    requires var img := Compile(p).image; |img.code| < TWO_32 && forall k :: 0 <= k < |img.functions| ==> Fields(img.functions[k])
    ensures ending == if !Compile(p).success then CompileFailed else if AllAccepted(Compile(p).image) then Running else Rejected
    ensures ending.Running? ==> bytes == Encode(Saved(Compile(p).image))
  {
    hide Compile; hide Encode; hide Saved; hide ByteNames; hide Accepts; hide Ranked;
    var image, success := CompileGraph(p);
    if !success { return CompileFailed, []; }
    var valid := VerifyImage(image);
    if !valid { return Rejected, []; }
    bytes := Write(Saved(image));
    ending := Running;
  }

  /** What the run tool does with a file. */
  ghost function FileEnding(same: Sameness, bytes: seq<Byte>, steps: nat): Ending {
    var f := Parse(same, bytes);
    if f.Outgrown? then TooLarge
    else if f.Malformed? then BadFile
    else if !Loadable(f.file) then Foreign
    else
      LoadedFields(same, bytes);
      var img := Loaded(f.file);
      if !AllAccepted(img) then Rejected else EndingOf(Run(img, Next(Boot(img)), steps))
  }

  /** Main's locals fit the machine's stack; the machine reserves them without looking. */
  predicate MainFits(same: Sameness, bytes: seq<Byte>) {
    var f := Parse(same, bytes);
    f.Accepted? && f.file.functions != [] ==> f.file.functions[0].localCount <= STACK_MAX
  }

  /** The run tool: reads, verifies, runs. */
  method RunFile(same: Sameness, bytes: seq<Byte>, steps: nat) returns (r: Ending)
    ensures MainFits(same, bytes) ==> r == FileEnding(same, bytes, steps)
  {
    hide Parse; hide Run; hide Boot; hide Accepts;
    var f := Read(same, bytes);
    if f.Outgrown? { return TooLarge; }
    if f.Malformed? { return BadFile; }
    if !Loadable(f.file) { return Foreign; }
    LoadedFields(same, bytes);
    var img := Loaded(f.file);
    var valid := VerifyImage(img);
    if !valid { return Rejected; }
    var o := Execute(img, steps);
    r := match o case Some(end) => Ended(end) case None => Running;
  }

  /** No function is longer than the verifier's height table. */
  predicate ShortFunctions(img: Image) { forall k :: 0 <= k < |img.functions| ==> img.functions[k].codeLength <= 32767 }

  /** How the tools may end on a program: as interpreted, still running, or rejected; with short functions exactly the unbalanced are. */
  ghost predicate Expected(p: Program, e: Ending)
    requires WellFormed(p)
  {
    && (e.Running? || e.Rejected? || (e.Ended? && AsInterpreted(p, Some(e.outcome))))
    && (ShortFunctions(Compile(p).image) ==> (e.Rejected? <==> !Balanced(p)))
  }

  lemma {:induction false} FileAsExpected(p: Program, same: Sameness, steps: nat)
    requires WellFormed(p) && ByteNames(Compile(p).image) && FileFits(Saved(Compile(p).image))
    requires Supported(p) && Compile(p).success && Fits(Compile(p).image) && Interpret(p).success
    ensures MainFits(same, Encode(Saved(Compile(p).image)))
    ensures Expected(p, FileEnding(same, Encode(Saved(Compile(p).image)), steps))
  {
    hide Compile; hide Parse; hide Encode; hide Saved; hide Loaded; hide ByteNames; hide Loadable; hide Accepts; hide FileFits;
    hide Supported; hide Interpret; hide Run; hide Boot; hide Ranked; hide AsInterpreted; hide Balanced; hide ShortFunctions; hide AllAccepted;
    var img := Compile(p).image;
    SavedFields(img);
    CompiledSurvives(same, p);
    AcceptedIfBalanced(p);
    EndAsInterpreted(p, steps);
    SmallMain(img);
  }

  lemma SmallMain(img: Image)
    requires ByteNames(img) && img.functions != [] && Fits(img)
    ensures Saved(img).functions[0].localCount <= STACK_MAX
  {
    assert img.functions[0].localCount <= 256;
  }

  /** Both tools in turn, on a program the interpreter runs. */
  method CompileSaveRun(p: Program, same: Sameness, steps: nat) returns (r: Ending)
    requires WellFormed(p) && ByteNames(Compile(p).image) && FileFits(Saved(Compile(p).image))
    ensures (Supported(p) && Compile(p).success && Fits(Compile(p).image) && Interpret(p).success) ==> Expected(p, r)
  {
    hide Compile; hide Encode; hide Saved; hide ByteNames; hide FileFits; hide MainFits; hide FileEnding; hide AllAccepted;
    hide Supported; hide Interpret; hide Ranked; hide AsInterpreted; hide Balanced; hide ShortFunctions; hide Fits;
    SavedFields(Compile(p).image);
    if Supported(p) && Compile(p).success && Fits(Compile(p).image) && Interpret(p).success {
      FileAsExpected(p, same, steps);
      AcceptedIfBalanced(p);
    }
    var bytes;
    r, bytes := CompileToFile(p);
    if r.Running? {
      r := RunFile(same, bytes, steps);
    }
  }

  lemma SavedFields(img: Image)
    requires ByteNames(img) && FileFits(Saved(img))
    ensures |img.code| < TWO_32 && forall k :: 0 <= k < |img.functions| ==> Fields(img.functions[k])
  {
    forall k | 0 <= k < |img.functions| ensures Fields(img.functions[k]) {
      assert RecordFits(Saved(img).functions[k]);
    }
  }

  lemma {:induction false} AcceptedIfBalanced(p: Program)
    requires WellFormed(p) && Supported(p) && Compile(p).success && Fits(Compile(p).image)
    requires var img := Compile(p).image; |img.code| < TWO_32 && forall k :: 0 <= k < |img.functions| ==> Fields(img.functions[k])
    ensures ShortFunctions(Compile(p).image) ==> (AllAccepted(Compile(p).image) <==> Balanced(p))
  {
    hide Compile; hide Accepts; hide Supported; hide Ranked; hide Fits; hide Balanced; hide AllAccepted;
    if ShortFunctions(Compile(p).image) {
      AcceptedIffBalanced(p);
    }
  }
}
