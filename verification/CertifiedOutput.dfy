/** The verifier accepts what the compiler emits, and the recorded maximum heights bound the certified ones. */
module CertifiedOutput {
  import opened Values
  import opened Bytecode
  import opened SemanticGraph
  import opened CodeGen
  import opened Support
  import opened SimulationBase
  import opened Linking
  import opened OperandBounds
  import opened CompilerCorrectness
  import opened Compiling
  import opened Verifier
  import opened StackFlow
  import opened StackDiscipline
  import opened HeightCertificates

  // ----- Every function has a return -----

  predicate HasReturn(code: seq<Instr>) { exists k :: 0 <= k < |code| && code[k].Return? }

  lemma HasReturnIn(a: seq<Instr>, b: seq<Instr>, c: seq<Instr>)
    requires HasReturn(b)
    ensures HasReturn(a + b + c)
  {
    var k :| 0 <= k < |b| && b[k].Return?;
    assert (a + b + c)[|a| + k] == b[k];
  }

  /** A statement all of whose paths return has a return instruction. */
  lemma {:induction false} ReturnCompiled(p: Program, cx: Cx, st: Cst, n: nat)
    requires WellFormed(p) && n < |p.g.nodes| && MustReturn(p, n)
    ensures HasReturn(CNode(p, cx, st, n).code)
    decreases p.rank[n], 2
  {
    hide CSource; hide CRegion; hide Size; hide Indexed; hide Ranked; hide RegionBelow; hide CIf; hide MustReturnIn;
    var k := p.g.nodes[n].kind;
    if k.ReturnNode? {
      RoleBelow(p, n, "value");
      var o := CReturn(p, cx, st, n);
      assert o.code[|o.code| - 1] == Return;
    } else {
      ChildrenBelow(p, n);
      RoleBelow(p, n, "cond");
      var c := CSource(p, cx, st, n, RoleSource(p.g, n, "cond"));
      var t := CRegion(p, cx, EmitOp(c.st, JumpIfFalse(0)), k.thenRegion, p.rank[n]);
      var e := CRegion(p, cx, EmitOp(t.st, Jump(0)), k.elseRegion, p.rank[n]);
      IfShape(p, cx, st, n, c, t, e);
      RegionReturns(p, cx, EmitOp(c.st, JumpIfFalse(0)), k.thenRegion, p.rank[n]);
      HasReturnIn(c.code + [JumpIfFalse(Size(t.code) + 5)], t.code, [Jump(Size(e.code))] + e.code);
      assert c.code + [JumpIfFalse(Size(t.code) + 5)] + t.code + ([Jump(Size(e.code))] + e.code) ==
             c.code + [JumpIfFalse(Size(t.code) + 5)] + t.code + [Jump(Size(e.code))] + e.code;
    }
  }

  lemma {:induction false} RegionReturns(p: Program, cx: Cx, st: Cst, r: nat, bound: nat)
    requires WellFormed(p) && RegionBelow(p, r, bound) && MustReturnIn(p, r, bound)
    ensures HasReturn(CRegion(p, cx, st, r, bound).code)
    decreases bound, 1, |Members(p.g, r)| + 1
  {
    hide CMembers; hide Indexed; hide Ranked; hide MustReturn;
    var k :| 0 <= k < |Members(p.g, r)| && MemberBelow(p, Members(p.g, r)[k], bound) && MustReturn(p, Members(p.g, r)[k]);
    MembersReturn(p, cx, st, Members(p.g, r), bound, k);
  }

  lemma {:induction false} MembersReturn(p: Program, cx: Cx, st: Cst, ms: seq<nat>, bound: nat, k: nat)
    requires WellFormed(p) && (forall j :: 0 <= j < |ms| ==> MemberBelow(p, ms[j], bound))
    requires k < |ms| && MemberBelow(p, ms[k], bound) && MustReturn(p, ms[k])
    ensures HasReturn(CMembers(p, cx, st, ms, bound).code)
    decreases bound, 1, |ms|
  {
    hide CNode; hide Indexed; hide Ranked; hide CMembers;
    assert ms[0..] == ms;
    MembersShape(p, cx, st, ms, 0, bound);
    var kind := p.g.nodes[ms[0]].kind;
    var m := if kind.Param? || IsExprNode(kind) then Out([], st) else CNode(p, cx, st, ms[0]);
    var rest := CMembers(p, cx, m.st, ms[1..], bound);
    if k == 0 {
      ReturnCompiled(p, cx, st, ms[0]);
      HasReturnIn([], m.code, rest.code);
      assert [] + m.code + rest.code == m.code + rest.code;
    } else {
      MembersReturn(p, cx, m.st, ms[1..], bound, k - 1);
      HasReturnIn(m.code, rest.code, []);
      assert m.code + rest.code + [] == m.code + rest.code;
    }
  }

  // ----- Functions -----

  /** A function's code flows from zero to zero below its recorded maximum, and returns somewhere. */
  lemma {:induction false} FuncTracks(p: Program, cx: Cx, st: Cst, f: nat) returns (hs: seq<int>)
    requires Disciplined(p) && f < |p.g.nodes| && p.g.nodes[f].kind.FuncDef?
    requires !CFunc(p, cx, st, f).st.err
    ensures var o := CFunc(p, cx, st, f);
            Flow(o.code, hs, 0, 0) && HasReturn(o.code) && AtMost(hs, o.st.max) && 0 <= o.st.max <= Size(o.code)
  {
    hide Flow; hide CRegion; hide Indexed; hide Ranked; hide ValuesFed; hide FixedPops; hide CloseFunction; hide BindRegion;
    assert NodeSupported(p, f);
    hide NodesSupported;
    FunctionShape(p, cx, st, f);
    var body := p.g.nodes[f].kind.body;
    WholeRegionBelow(p, body);
    var start := EnterFunction(p, st, f);
    var b := CBody(p, cx, st, f);
    CloseErr(b);
    var hb := RegionTracks(p, cx, start, body, p.top);
    RegionReturns(p, cx, start, body, p.top);
    hs := CloseTracks(start, b, hb);
    CloseKeepsReturn(b);
  }

  lemma CloseErr(b: Out)
    ensures CloseFunction(b).st.err == b.st.err
  {
  }

  lemma CloseKeepsReturn(b: Out)
    requires HasReturn(b.code)
    ensures HasReturn(CloseFunction(b).code)
  {
    hide EncodeAll;
    var o := CloseFunction(b);
    var tail := o.code[|b.code|..];
    CloseExtends(b);
    HasReturnIn([], b.code, tail);
    assert [] + b.code + tail == o.code;
  }

  lemma CloseExtends(b: Out)
    ensures b.code <= CloseFunction(b).code
  {
  }

  lemma {:induction false} CloseTracks(start: Cst, b: Out, hb: seq<int>) returns (hs: seq<int>)
    requires AtHeight(start, 0) && start.max == 0 && Tracks(start, b, hb, 0, 0)
    ensures var o := CloseFunction(b);
            Flow(o.code, hs, 0, 0) && AtMost(hs, o.st.max) && 0 <= o.st.max <= Size(o.code)
  {
    hide Flow; hide Size;
    var bytes := EncodeAll(b.code);
    if |bytes| == 0 || bytes[|bytes| - 1] != OP_RETURN {
      var k := EmitConst(b.st, NullConst);
      TracksStart(start, b, hb, 0, 0);
      TracksConst(b.st, NullConst, 0);
      var hr := ReturnAfter(b.st, k, [0]);
      var r := Out(k.code + [Return], EmitOp(k.st, Return));
      hide EncodeAll; hide Tracks; hide EmitOp; hide EmitConst;
      TracksThen(start, b, hb, r, hr, 0, 0, 0);
      assert b.code + k.code + [Return] == b.code + r.code;
      hs := hb + hr;
      TrackedSize(start, Out(b.code + r.code, r.st), hs);
    } else {
      hs := hb;
    }
  }

  lemma TrackedSize(start: Cst, o: Out, hs: seq<int>)
    requires start.max == 0 && Tracks(start, o, hs, 0, 0)
    ensures Flow(o.code, hs, 0, 0) && AtMost(hs, o.st.max) && 0 <= o.st.max <= Size(o.code)
  {
  }

  // ----- Main -----

  lemma {:induction false} RootMembersTrack(p: Program, cx: Cx, st: Cst, ms: seq<nat>) returns (hs: seq<int>)
    requires Disciplined(p) && AtHeight(st, 0)
    requires forall k :: 0 <= k < |ms| ==> MemberBelow(p, ms[k], p.top)
    requires !CRootMembers(p, cx, st, ms).st.err
    ensures Tracks(st, CRootMembers(p, cx, st, ms), hs, 0, 0)
    decreases |ms|
  {
    hide CNode; hide Tracks; hide Indexed; hide Ranked; hide ValuesFed; hide NodesSupported; hide FixedPops; hide CRootMembers;
    if ms == [] {
      NoRootMembers(p, cx, st);
      TracksNothing(st, 0);
      hs := [];
    } else {
      assert ms[0..] == ms;
      RootMembersShape(p, cx, st, ms, 0);
      var k := p.g.nodes[ms[0]].kind;
      var m := if k.FuncDef? || k.RootOutput? || IsExprNode(k) then Out([], st) else CNode(p, cx, st, ms[0]);
      var rest := CRootMembers(p, cx, m.st, ms[1..]);
      var hm := [];
      if k.FuncDef? || k.RootOutput? || IsExprNode(k) {
        TracksNothing(st, 0);
      } else if k.Param? {
        ParamEmitsNothing(p, cx, st, ms[0]);
        TracksNothing(st, 0);
      } else {
        hm := StmtTracks(p, cx, st, ms[0]);
      }
      TracksStart(st, m, hm, 0, 0);
      var hr := RootMembersTrack(p, cx, m.st, ms[1..]);
      TracksThen(st, m, hm, rest, hr, 0, 0, 0);
      hs := hm + hr;
    }
  }

  lemma ParamEmitsNothing(p: Program, cx: Cx, st: Cst, n: nat)
    requires WellFormed(p) && n < |p.g.nodes| && p.g.nodes[n].kind.Param?
    ensures CNode(p, cx, st, n) == Out([], st)
  {
  }

  /** Main flows too; the verifier does not see the final print take its value. */
  lemma {:induction false} MainTracks(p: Program, cx: Cx, st: Cst) returns (hs: seq<int>)
    requires Disciplined(p) && RootSupported(p) && AtHeight(st, 0) && st.max == 0 && !CMain(p, cx, st).st.err
    ensures var o := CMain(p, cx, st);
            Flow(o.code, hs, 0, 0) && o.code != [] && o.code[|o.code| - 1] == Halt && AtMost(hs, o.st.max) && 0 <= o.st.max <= Size(o.code)
  {
    hide CNode; hide Flow; hide Tracks; hide Ranked; hide ValuesFed; hide NodesSupported; hide FixedPops; hide CRootMembers;
    hide EmitOp; hide EmitPrint; hide CMain; hide Size; hide BindRegion; hide MayReturnIn;
    MainShape(p, cx, st);
    var ms := Members(p.g, p.g.root);
    var b := CRootMembers(p, cx, st, ms);
    MainErr(p, cx, st);
    var hb := RootMembersTrack(p, cx, st, ms);
    TracksStart(st, b, hb, 0, 0);
    if HasOutput(p.g) {
      var v := CNode(p, cx, b.st, p.g.output);
      var hv := OutputTracks(p, cx, b.st);
      TracksThen(st, b, hb, v, hv, 0, 0, 1);
      hs := OutputFlows(st, Out(b.code + v.code, v.st), hb + hv);
    } else {
      hs := HaltFlows(st, b, hb);
    }
  }

  lemma MainErr(p: Program, cx: Cx, st: Cst)
    requires WellFormed(p) && !CMain(p, cx, st).st.err
    ensures RegionBelow(p, p.g.root, p.top)
    ensures var b := CRootMembers(p, cx, st, Members(p.g, p.g.root));
            !b.st.err && (HasOutput(p.g) ==> !CNode(p, cx, b.st, p.g.output).st.err)
  {
    hide CNode; hide CRootMembers;
    WholeRegionBelow(p, p.g.root);
    MainShape(p, cx, st);
  }

  /** The output node leaves its value. */
  lemma {:induction false} OutputTracks(p: Program, cx: Cx, st: Cst) returns (hs: seq<int>)
    requires Disciplined(p) && HasOutput(p.g) && AtHeight(st, 0) && !CNode(p, cx, st, p.g.output).st.err
    ensures Tracks(st, CNode(p, cx, st, p.g.output), hs, 0, 1)
  {
    hide CSource; hide Tracks; hide NodeIndexed; hide Ranked; hide ValuesFed; hide FixedPops; hide InputSource;
    var n := p.g.output;
    assert NodeSupported(p, n);
    RoleBelow(p, n, "value");
    assert CKind(p, cx, st, n) == CSourceOf(p, cx, st, n);
    hs := ValueTracks(p, cx, st, n);
    SameTracks(st, CKind(p, cx, st, n), CNode(p, cx, st, n), hs, 0, 1);
  }

  lemma {:induction false} HaltFlows(st: Cst, b: Out, hb: seq<int>) returns (hs: seq<int>)
    requires st.max == 0 && Tracks(st, b, hb, 0, 0)
    ensures var o := Out(b.code + [Halt], EmitOp(b.st, Halt));
            Flow(o.code, hs, 0, 0) && AtMost(hs, o.st.max) && 0 <= o.st.max <= Size(o.code)
  {
    FlowStop(Halt, 0);
    FlowThen(b.code, hb, [Halt], [0], 0, 0, 0);
    SizeSnoc(b.code, Halt);
    hs := hb + [0];
    hide Flow; hide Size;
  }

  lemma {:induction false} OutputFlows(st: Cst, v: Out, hv: seq<int>) returns (hs: seq<int>)
    requires st.max == 0 && Tracks(st, v, hv, 0, 1)
    ensures var code := v.code + [Dup, Intrinsic(INTRINSIC_PRINT, 1), Halt]; var last := EmitOp(EmitPrint(EmitOp(v.st, Dup)), Halt);
            Flow(code, hs, 0, 0) && AtMost(hs, last.max) && 0 <= last.max <= Size(code)
  {
    var show := Intrinsic(INTRINSIC_PRINT, 1);
    FlowOne(Dup, 1);
    FlowOne(show, 2);
    FlowStop(Halt, 2);
    hide Flow;
    FlowThen([Dup], [1], [show], [2], 1, 2, 2);
    FlowThen([Dup] + [show], [1] + [2], [Halt], [2], 1, 2, 0);
    FlowThen(v.code, hv, [Dup] + [show] + [Halt], [1] + [2] + [2], 0, 1, 0);
    assert [Dup] + [show] + [Halt] == [Dup, show, Halt];
    ThreeMore(v.code, Dup, show, Halt);
    hs := hv + ([1] + [2] + [2]);
    hide Size;
  }

  // ----- Relocation -----

  /** Moving function indices changes no size, height or jump. */
  lemma {:induction false} RelocateFlow(d: nat, ins: seq<Instr>, hs: seq<int>)
    requires Flow(ins, hs, 0, 0)
    ensures Flow(Relocate(d, ins), hs, 0, 0)
  {
    var r := Relocate(d, ins);
    forall k | 0 <= k < |r| ensures FlowsAt(r, hs, 0, k) {
      assert FlowsAt(ins, hs, 0, k);
      if IsJump(r[k]) {
        RelocateLands(d, ins, hs, k, Post(ins[k], hs[k]));
      }
    }
  }

  lemma {:induction false} RelocateLands(d: nat, ins: seq<Instr>, hs: seq<int>, k: nat, post: int)
    requires |hs| == |ins| && k < |ins| && IsJump(ins[k]) && LandsAt(ins, hs, 0, k, post)
    ensures IsJump(Relocate(d, ins)[k]) && LandsAt(Relocate(d, ins), hs, 0, k, post)
  {
    hide Size;
    var r := Relocate(d, ins);
    var j :| 0 <= j <= |ins| && Size(ins[..j]) == Size(ins[..k + 1]) + ins[k].offset && HeightAt(hs, 0, j) == post;
    assert r[..j] == Relocate(d, ins[..j]) && r[..k + 1] == Relocate(d, ins[..k + 1]);
    RelocateSize(d, ins[..j]);
    RelocateSize(d, ins[..k + 1]);
    assert r[k] == ins[k];
  }

  /** Bounded operands of a fitting image refer to its tables. */
  lemma {:induction false} BoundedIndices(img: Image, f: FuncRecord, cx: Cx, code: seq<Instr>, st: Cst)
    requires Bounded(cx, code, st) && st.pool <= img.constants && |st.locals| == f.localCount && |cx.names| + 1 == |img.functions|
    ensures forall k :: 0 <= k < |code| ==> IndicesOk(img, f, Relocate(1, code)[k])
  {
    hide Size;
    forall k | 0 <= k < |code| ensures IndicesOk(img, f, Relocate(1, code)[k]) {
      assert Within(code[k], LimitsOf(cx, st, code));
    }
  }

  // ----- The theorem -----

  /** A record is accepted, its jumps are aligned, and its maximum bounds certified heights. */
  ghost predicate Certified(img: Image, f: FuncRecord) {
    Fields(f) && |img.code| < TWO_32 && Accepts(img, f) && Aligned(img, f) &&
    exists cs :: Certificate(img, f, cs) && AtMost(cs, f.maxStack)
  }

  ghost predicate RecordCertified(img: Image, f: FuncRecord) { f.codeLength <= 32767 ==> Certified(img, f) }

  lemma {:induction false} SegmentCertified(img: Image, f: FuncRecord, ins: seq<Instr>, hs: seq<int>, max: int)
    requires Holding(img, f, Relocate(1, ins)) && Flow(ins, hs, 0, 0) && AtMost(hs, max) && 0 <= max <= Size(ins)
    requires |img.code| < TWO_32 && f.maxStack == max % 65536
    requires exists k :: 0 <= k < |ins| && Stops(ins[k])
    ensures RecordCertified(img, f)
  {
    hide Flow; hide Accepts; hide Aligned; hide Certificate; hide Size; hide At;
    var k :| 0 <= k < |ins| && Stops(ins[k]);
    RelocateFlow(1, ins, hs);
    RelocateSize(1, ins);
    HoldingBounds(img, f, Relocate(1, ins));
    if f.codeLength <= 32767 {
      assert Stops(Relocate(1, ins)[k]);
      FlowAccepted(img, f, Relocate(1, ins), hs, k);
      FlowLength(ins, hs);
      SpreadAtMost(Relocate(1, ins), hs, max);
    }
  }

  lemma FlowLength(ins: seq<Instr>, hs: seq<int>)
    requires Flow(ins, hs, 0, 0)
    ensures |hs| == |ins|
  {
  }

  /** Function `k` of a compiled program: its record holds its relocated code. */
  lemma {:induction false} FunctionHolding(p: Program, k: nat) returns (f: nat, cx: Cx, st: Cst)
    requires WellFormed(p) && Supported(p) && Compile(p).success && Fits(Compile(p).image)
    requires k < |LinkOf(p).ids|
    ensures f == LinkOf(p).ids[k] && f < |p.g.nodes| && p.g.nodes[f].kind.FuncDef?
    ensures k + 1 < |Compile(p).image.functions| && |Compile(p).image.code| < TWO_31
    ensures var o, rec := CFunc(p, cx, st, f), Compile(p).image.functions[k + 1];
            && !o.st.err && |o.st.locals| <= 256 && Holding(Compile(p).image, rec, Relocate(1, o.code))
            && rec.codeLength == Size(o.code) && rec.maxStack == o.st.max % 65536
  {
    hide Size; hide CMain; hide EncodeAll; hide AddFunctions; hide Registered; hide Supported; hide CBody;
    hide Compile; hide Functions; hide MainCode; hide LinkOf; hide AllFit; hide CFunc; hide NodesSupported;
    Layout(p);
    SuccessMeans(p);
    SupportedFacts(p);
    var l, u, m := LinkOf(p), Functions(p), MainCode(p);
    f, st := l.ids[k], l.starts[k];
    assert Placed(p, l.names, u, st, k, f);
    cx := Cx(l.names, k);
    var o := CFunc(p, cx, st, f);
    var rec := l.img.functions[k + 1];
    assert rec == u.funcs[k] == o.rec;
    FuncBounded(p, cx, st, f);
    var pre, post :| u.code == pre + o.code + post && Size(pre) == st.len;
    assert u.code + m.code == pre + o.code + (post + m.code);
    SegmentAt(1, pre, o.code, post + m.code);
    SizeThree(pre, o.code, post, m.code);
    assert pre + o.code + post + m.code == u.code + m.code;
    CodeLength(p);
    RecordOf(p, cx, st, f);
    BodyFits(cx, o, Out(o.code, o.st), l.img);
    BoundedIndices(l.img, rec, cx, o.code, o.st);
    RelocateSize(1, o.code);
    SegmentHolding(l.img, rec, Relocate(1, o.code));
  }

  lemma {:induction false} FunctionCertified(p: Program, k: nat)
    requires WellFormed(p) && Supported(p) && FixedPops(p) && Compile(p).success && Fits(Compile(p).image)
    requires k < |LinkOf(p).ids|
    ensures k + 1 < |Compile(p).image.functions| && RecordCertified(Compile(p).image, Compile(p).image.functions[k + 1])
  {
    hide Size; hide Supported; hide FixedPops; hide Compile; hide LinkOf; hide CFunc; hide Flow; hide RecordCertified; hide NodesSupported;
    hide Holding; hide Fits;
    SupportedFacts(p);
    var f, cx, st := FunctionHolding(p, k);
    var o := CFunc(p, cx, st, f);
    var hs := FuncTracks(p, cx, st, f);
    var r :| 0 <= r < |o.code| && o.code[r].Return?;
    SegmentCertified(Compile(p).image, Compile(p).image.functions[k + 1], o.code, hs, o.st.max);
  }

  lemma RecordOf(p: Program, cx: Cx, st: Cst, f: nat)
    requires WellFormed(p) && f < |p.g.nodes| && p.g.nodes[f].kind.FuncDef?
    ensures var o := CFunc(p, cx, st, f);
            o.rec.codeOffset == st.len && o.rec.codeLength == Size(o.code) && o.rec.localCount == |o.st.locals| && o.rec.maxStack == o.st.max % 65536
  {
    hide CBody; hide CloseFunction; hide Size;
  }

  lemma SegmentHolding(img: Image, rec: FuncRecord, ins: seq<Instr>)
    requires Holds(img.code, rec.codeOffset, EncodeAll(ins)) && AllFit(ins)
    requires rec.codeLength == Size(ins) && |img.code| < TWO_31
    requires forall k :: 0 <= k < |ins| ==> IndicesOk(img, rec, ins[k])
    ensures Holding(img, rec, ins)
  {
    hide EncodeAll; hide Size; hide IndicesOk; hide AllFit;
    HoldsBound(img.code, rec.codeOffset, EncodeAll(ins));
  }

  lemma HoldsBound(code: seq<Byte>, at: nat, bytes: seq<Byte>)
    requires Holds(code, at, bytes)
    ensures at + |bytes| <= |code|
  {
  }

  /** The record of main holds its relocated code. */
  lemma {:induction false} MainHolding(p: Program) returns (cx: Cx, st: Cst)
    requires WellFormed(p) && Supported(p) && Compile(p).success && Fits(Compile(p).image)
    ensures Compile(p).image.functions != [] && |Compile(p).image.code| < TWO_31 && AtHeight(st, 0) && st.max == 0
    ensures var o, rec := CMain(p, cx, st), Compile(p).image.functions[0];
            && !o.st.err && Holding(Compile(p).image, rec, Relocate(1, o.code))
            && rec.codeLength == Size(o.code) && rec.maxStack == o.st.max % 65536
  {
    hide Size; hide CMain; hide EncodeAll; hide AddFunctions; hide Registered; hide Supported; hide Placed;
    hide Compile; hide Functions; hide LinkOf; hide AllFit; hide NodesSupported; hide RootSupported;
    Layout(p);
    SuccessMeans(p);
    SupportedFacts(p);
    var l, u, m := LinkOf(p), Functions(p), MainCode(p);
    var rec := l.img.functions[0];
    cx, st := Cx(l.names, 0), EnterMain(u.st);
    LinkNames(p);
    MainBounded(p, cx, st);
    assert u.code + m.code + [] == u.code + m.code;
    SegmentAt(1, u.code, m.code, []);
    SizeConcat(u.code, m.code);
    CodeLength(p);
    MainRecord(p);
    BoundedFits(LimitsOf(cx, m.st, m.code), m.code);
    BoundedIndices(l.img, rec, cx, m.code, m.st);
    RelocateSize(1, m.code);
    SegmentHolding(l.img, rec, Relocate(1, m.code));
  }

  lemma {:induction false} MainCertified(p: Program)
    requires WellFormed(p) && Supported(p) && FixedPops(p) && Compile(p).success && Fits(Compile(p).image)
    ensures Compile(p).image.functions != [] && RecordCertified(Compile(p).image, Compile(p).image.functions[0])
  {
    hide Size; hide CMain; hide Supported; hide FixedPops; hide Compile; hide Flow; hide RecordCertified; hide NodesSupported;
    hide RootSupported; hide Holding; hide Fits;
    SupportedFacts(p);
    RootIsSupported(p);
    var cx, st := MainHolding(p);
    var m := CMain(p, cx, st);
    var hs := MainTracks(p, cx, st);
    assert Stops(m.code[|m.code| - 1]);
    SegmentCertified(Compile(p).image, Compile(p).image.functions[0], m.code, hs, m.st.max);
  }

  lemma RootIsSupported(p: Program)
    requires WellFormed(p) && Supported(p)
    ensures RootSupported(p)
  {
  }

  lemma LinkNames(p: Program)
    requires WellFormed(p)
    ensures LinkOf(p).names == Names(p.g, FuncIds(p.g, 0)) && |LinkOf(p).ids| == |LinkOf(p).names|
  {
    hide Compile;
  }

  lemma MainRecord(p: Program)
    requires WellFormed(p)
    ensures var u, m, rec := Functions(p), MainCode(p), Compile(p).image.functions[0];
            rec.codeOffset == u.st.len && rec.codeLength == Size(m.code) && rec.localCount == |m.st.locals| && rec.maxStack == m.st.max % 65536
  {
    CompileShape(p);
    hide Compile; hide Functions; hide MainCode;
  }

  /**
   The verifier accepts every image compiled from a supported program that prints
   only its output and passes no arguments, as long as no function has more than
   32767 bytes of code; and no operand height it certifies exceeds the recorded maximum.
   */
  lemma {:induction false} CompilerOutputAccepted(p: Program)
    requires WellFormed(p) && Supported(p) && FixedPops(p) && Compile(p).success && Fits(Compile(p).image)
    requires forall k :: 0 <= k < |Compile(p).image.functions| ==> Compile(p).image.functions[k].codeLength <= 32767
    ensures var img := Compile(p).image;
            img.functions != [] && forall k :: 0 <= k < |img.functions| ==> Certified(img, img.functions[k])
  {
    hide Compile; hide Supported; hide FixedPops; hide Certified; hide Indexed; hide Ranked;
    MainCertified(p);
    TableCount(p);
    var img := Compile(p).image;
    forall k | 0 <= k < |img.functions| ensures Certified(img, img.functions[k]) {
      assert img.functions[k].codeLength <= 32767;
      if k > 0 {
        FunctionCertified(p, k - 1);
      }
    }
  }

  lemma TableCount(p: Program)
    requires WellFormed(p) && Supported(p)
    ensures |Compile(p).image.functions| == |LinkOf(p).ids| + 1
  {
    hide Compile; hide Functions; hide MainCode; hide LinkOf; hide Supported; hide Placed;
    Layout(p);
    LinkImage(p);
  }
}
