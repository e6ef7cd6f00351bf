/** Instruction heights that flow are, byte by byte, the certificate the verifier looks for. */
module HeightCertificates {
  import opened Values
  import opened Bytecode
  import opened CodeGen
  import opened Machine
  import opened Verifier
  import opened StackFlow

  // ----- From instruction heights to byte heights -----

  /** One entry per byte: the height at each instruction start, unknown between. */
  function Spread(ins: seq<Instr>, hs: seq<int>): (r: seq<int>)
    requires |hs| == |ins|
    ensures |r| == Size(ins)
  {
    if ins == [] then [] else [hs[0]] + Unknowns(ins[0].Size() - 1) + Spread(ins[1..], hs[1..])
  }

  lemma {:induction false} SpreadAt(ins: seq<Instr>, hs: seq<int>, k: nat)
    requires |hs| == |ins| && k < |ins|
    ensures Size(ins[..k]) + ins[k].Size() == Size(ins[..k + 1]) <= Size(ins)
    ensures Size(ins[..k]) < Size(ins) && Spread(ins, hs)[Size(ins[..k])] == hs[k]
  {
    if k > 0 {
      SpreadAt(ins[1..], hs[1..], k - 1);
      assert ins[..k] == [ins[0]] + ins[1..][..k - 1];
      assert ins[..k + 1] == [ins[0]] + ins[1..][..k];
    } else {
      assert ins[..1] == [ins[0]] && ins[..0] == [];
      EncodeOne(ins[0]);
    }
  }

  predicate AtMost(hs: seq<int>, m: int) { forall k :: 0 <= k < |hs| ==> hs[k] <= m }

  lemma {:induction false} SpreadAtMost(ins: seq<Instr>, hs: seq<int>, m: int)
    requires |hs| == |ins| && AtMost(hs, m) && 0 <= m
    ensures AtMost(Spread(ins, hs), m)
  {
    if ins != [] {
      SpreadAtMost(ins[1..], hs[1..], m);
    }
  }

  // ----- The scan of encoded instructions -----

  function StartsOf(at: nat, ins: seq<Instr>): (r: seq<nat>)
    ensures |r| == |ins|
    decreases ins
  {
    if ins == [] then [] else [at] + StartsOf(at + ins[0].Size(), ins[1..])
  }

  lemma {:induction false} StartsOfAt(at: nat, ins: seq<Instr>, k: nat)
    requires k < |ins|
    ensures StartsOf(at, ins)[k] == at + Size(ins[..k])
    decreases ins
  {
    if k > 0 {
      StartsOfAt(at + ins[0].Size(), ins[1..], k - 1);
      assert ins[..k] == [ins[0]] + ins[1..][..k - 1];
    }
  }

  /** The scan finds the instructions that were encoded, and ends where they end. */
  lemma {:induction false} ScanFinds(code: seq<Byte>, at: nat, ins: seq<Instr>)
    requires At(code, at, ins)
    ensures Scan(code, at, at + Size(ins)) == StartsOf(at, ins) && ScanEnd(code, at, at + Size(ins)) == at + Size(ins)
    decreases |ins|
  {
    hide At; hide Decode; hide Size; hide Instr.Size;
    if ins == [] {
      EmptyCode();
    } else {
      AtCons(code, at, ins);
      ScanFinds(code, at + ins[0].Size(), ins[1..]);
    }
  }

  lemma {:induction false} AtCons(code: seq<Byte>, at: nat, ins: seq<Instr>)
    requires At(code, at, ins) && ins != []
    ensures InstrAt(code, at, at + Size(ins)) && Decode(code, at) == Some(ins[0])
    ensures At(code, at + ins[0].Size(), ins[1..]) && Size(ins) == ins[0].Size() + Size(ins[1..])
  {
    hide Decode; hide EncodeAll;
    AtDecode(code, at, ins);
    assert ins == [ins[0]] + ins[1..];
    AtSplit(code, at, [ins[0]], ins[1..]);
    EncodeOne(ins[0]);
  }

  lemma EmptyCode()
    ensures Size([]) == 0
  {
  }

  lemma {:induction false} DecodesTo(code: seq<Byte>, at: nat, ins: seq<Instr>, k: nat)
    requires At(code, at, ins) && k < |ins|
    ensures at + Size(ins[..k]) < |code| && Decode(code, at + Size(ins[..k])) == Some(ins[k])
  {
    hide Decode; hide EncodeAll; hide Size;
    assert ins == ins[..k] + ins[k..];
    AtSplit(code, at, ins[..k], ins[k..]);
    AtDecode(code, at + Size(ins[..k]), ins[k..]);
  }

  // ----- The certificate -----

  /** The indices of an instruction are within the image's tables. */
  predicate IndicesOk(img: Image, f: FuncRecord, i: Instr) {
    match i
    case Const(k) => k < |img.constants|
    case LoadLocal(s) => s < f.localCount
    case StoreLocal(s) => s < f.localCount
    case Call(c, _) => c < |img.functions|
    case Intrinsic(id, _) => id < INTRINSIC_COUNT
    case _ => true
  }

  /** A function whose record covers exactly some encoded instructions. */
  ghost predicate Holding(img: Image, f: FuncRecord, ins: seq<Instr>) {
    && At(img.code, f.codeOffset, ins) && f.codeLength == Size(ins) && f.codeOffset + f.codeLength < TWO_32
    && forall k :: 0 <= k < |ins| ==> IndicesOk(img, f, ins[k])
  }

  /** A landing of the flow is a jump target inside the function. */
  lemma {:induction false} LandingTarget(f: FuncRecord, ins: seq<Instr>, hs: seq<int>, k: nat) returns (j: nat)
    requires |hs| == |ins| && k < |ins| && FlowsAt(ins, hs, 0, k) && IsJump(ins[k])
    requires f.codeLength == Size(ins) && f.codeOffset + f.codeLength < TWO_32
    ensures j <= |ins| && HeightAt(hs, 0, j) == Post(ins[k], hs[k])
    ensures JumpTarget(ins[k], f.codeOffset + Size(ins[..k])) == f.codeOffset + Size(ins[..j]) <= f.codeOffset + Size(ins)
  {
    hide Size; hide Instr.Size; hide Target; hide HeightAt; hide Instr.PopCount; hide Instr.PushCount;
    j :| 0 <= j <= |ins| && Size(ins[..j]) == Size(ins[..k + 1]) + ins[k].offset && HeightAt(hs, 0, j) == Post(ins[k], hs[k]);
    SpreadSize(ins, k);
    PrefixBelow(ins, j);
    SmallTarget(f.codeOffset + Size(ins[..k + 1]), ins[k].offset);
  }

  lemma {:induction false} SpreadSize(ins: seq<Instr>, k: nat)
    requires k < |ins|
    ensures Size(ins[..k]) + ins[k].Size() == Size(ins[..k + 1]) <= Size(ins)
  {
    SpreadAt(ins, seq(|ins|, _ => 0), k);
  }

  lemma SmallTarget(ip: nat, offset: int)
    requires 0 <= ip + offset < TWO_32
    ensures Target(ip, offset) == ip + offset
  {
  }

  lemma PrefixBelow(ins: seq<Instr>, j: nat)
    requires j <= |ins|
    ensures Size(ins[..j]) <= Size(ins) && (Size(ins[..j]) < Size(ins) ==> j < |ins|)
  {
    assert ins == ins[..j] + ins[j..];
    SizeConcat(ins[..j], ins[j..]);
    if j == |ins| {
      assert ins[..j] == ins;
    }
  }

  /** Where instruction `k` is, what it is and what its entry says. */
  lemma {:induction false} Located(img: Image, f: FuncRecord, ins: seq<Instr>, hs: seq<int>, k: nat)
    requires Holding(img, f, ins) && |hs| == |ins| && k < |ins|
    ensures var s := f.codeOffset + Size(ins[..k]); var cs := Spread(ins, hs);
            && |cs| == f.codeLength && End(f) == f.codeOffset + f.codeLength && s < |img.code|
            && InstrAt(img.code, s, End(f)) && Decode(img.code, s) == Some(ins[k]) && cs[s - f.codeOffset] == hs[k]
            && s + ins[k].Size() == f.codeOffset + Size(ins[..k + 1]) <= End(f)
            && (k + 1 < |ins| ==> s + ins[k].Size() < End(f) && cs[s + ins[k].Size() - f.codeOffset] == hs[k + 1])
            && (k + 1 == |ins| ==> s + ins[k].Size() == End(f))
  {
    HoldingBounds(img, f, ins);
    DecodesTo(img.code, f.codeOffset, ins, k);
    SpreadAt(ins, hs, k);
    hide Holding; hide Decode; hide Spread; hide End;
    if k + 1 < |ins| {
      SpreadAt(ins, hs, k + 1);
    } else {
      assert ins[..k + 1] == ins;
    }
    hide Size;
  }

  lemma {:induction false} LandsCertified(img: Image, f: FuncRecord, ins: seq<Instr>, hs: seq<int>, k: nat)
    requires Holding(img, f, ins) && |hs| == |ins| && k < |ins| && FlowsAt(ins, hs, 0, k)
    requires |Spread(ins, hs)| == f.codeLength && End(f) == f.codeOffset + f.codeLength
    ensures var s := f.codeOffset + Size(ins[..k]);
            Recorded(f, ins[k], s, hs[k], Spread(ins, hs)) &&
            (IsJump(ins[k]) ==> f.codeOffset <= JumpTarget(ins[k], s) <= End(f))
  {
    hide Holding; hide Target; hide FlowsAt; hide JumpTarget; hide Spread; hide End; hide Instr.Size;
    hide Instr.PopCount; hide Instr.PushCount; hide Size;
    HoldingBounds(img, f, ins);
    if IsJump(ins[k]) {
      var j := LandingTarget(f, ins, hs, k);
      PrefixBelow(ins, j);
      if j < |ins| {
        SpreadAt(ins, hs, j);
      } else {
        assert ins[..j] == ins;
      }
    }
  }

  /** What makes an instruction start certified. */
  lemma CertifiedFrom(img: Image, f: FuncRecord, cs: seq<int>, starts: seq<nat>, s: nat, i: Instr, h: int)
    requires |cs| == f.codeLength && End(f) == f.codeOffset + f.codeLength && f.codeOffset <= s && InstrAt(img.code, s, End(f))
    requires Decode(img.code, s) == Some(i) && cs[s - f.codeOffset] == h
    requires Checked(img, f, i, s, h) && Recorded(f, i, s, h, cs)
    requires s + i.Size() < End(f) ==> cs[s + i.Size() - f.codeOffset] == if Falls(i) then Post(i, h) else 0
    ensures StartCertified(img, f, cs, starts, s)
  {
    hide Decode; hide End; hide Checked; hide Recorded; hide JumpedTo; hide Instr.Size;
  }

  lemma FlowFacts(img: Image, f: FuncRecord, ins: seq<Instr>, hs: seq<int>, k: nat)
    requires Holding(img, f, ins) && Flow(ins, hs, 0, 0) && k < |ins|
    ensures |hs| == |ins| && FlowsAt(ins, hs, 0, k) && IndicesOk(img, f, ins[k])
    ensures hs[0] == 0 && Checked(img, f, ins[k], 0, hs[k]) == OperandsOk(img, f, ins[k], 0)
  {
    assert HeightAt(hs, 0, 0) == 0;
    assert FlowsAt(ins, hs, 0, k);
  }

  lemma {:induction false} CertifiedAt(img: Image, f: FuncRecord, ins: seq<Instr>, hs: seq<int>, k: nat, starts: seq<nat>)
    requires Holding(img, f, ins) && Flow(ins, hs, 0, 0) && k < |ins|
    requires |Spread(ins, hs)| == f.codeLength && End(f) == f.codeOffset + f.codeLength
    requires InstrAt(img.code, f.codeOffset + Size(ins[..k]), End(f))
    ensures StartCertified(img, f, Spread(ins, hs), starts, f.codeOffset + Size(ins[..k]))
  {
    hide Holding; hide Decode; hide Size; hide Spread; hide Recorded; hide JumpTarget; hide LandsAt; hide End; hide InstrAt; hide IndicesOk;
    hide OperandsOk; hide Instr.Size; hide Instr.PopCount; hide Instr.PushCount; hide Flow; hide Scan; hide ScanEnd; hide StartsOf;
    FlowFacts(img, f, ins, hs, k);
    Located(img, f, ins, hs, k);
    LandsCertified(img, f, ins, hs, k);
    IndicesAndTarget(img, f, ins[k], f.codeOffset + Size(ins[..k]));
    CertifiedFrom(img, f, Spread(ins, hs), starts, f.codeOffset + Size(ins[..k]), ins[k], hs[k]);
  }

  lemma IndicesAndTarget(img: Image, f: FuncRecord, i: Instr, at: nat)
    requires IndicesOk(img, f, i) && (IsJump(i) ==> f.codeOffset <= JumpTarget(i, at) <= End(f))
    ensures OperandsOk(img, f, i, at)
  {
    hide JumpTarget;
  }

  /** The scan of the function visits exactly the instructions it holds. */
  lemma {:induction false} ScanHolding(img: Image, f: FuncRecord, ins: seq<Instr>, s: nat) returns (k: nat)
    requires Holding(img, f, ins) && s in Scan(img.code, f.codeOffset, End(f))
    ensures k < |ins| && s == f.codeOffset + Size(ins[..k])
  {
    HoldingBounds(img, f, ins);
    ScanFinds(img.code, f.codeOffset, ins);
    hide Scan; hide End; hide EncodeAll; hide Size;
    var starts := StartsOf(f.codeOffset, ins);
    k :| 0 <= k < |starts| && starts[k] == s;
    StartsOfAt(f.codeOffset, ins, k);
  }

  lemma HoldingScan(img: Image, f: FuncRecord, ins: seq<Instr>)
    requires Holding(img, f, ins)
    ensures Scan(img.code, f.codeOffset, End(f)) == StartsOf(f.codeOffset, ins) && ScanEnd(img.code, f.codeOffset, End(f)) == End(f)
  {
    HoldingBounds(img, f, ins);
    ScanFinds(img.code, f.codeOffset, ins);
  }

  lemma NoSize(ins: seq<Instr>)
    ensures ins[..0] == [] && Size(ins[..0]) == 0
  {
  }

  lemma {:induction false} FlowCertifies(img: Image, f: FuncRecord, ins: seq<Instr>, hs: seq<int>)
    requires Holding(img, f, ins) && Flow(ins, hs, 0, 0) && ins != []
    ensures Certificate(img, f, Spread(ins, hs)) && ScanEnd(img.code, f.codeOffset, End(f)) == End(f)
    ensures Scan(img.code, f.codeOffset, End(f)) == StartsOf(f.codeOffset, ins)
  {
    hide Holding; hide Decode; hide Size; hide Spread; hide Recorded; hide JumpTarget; hide LandsAt; hide End; hide InstrAt; hide IndicesOk;
    hide OperandsOk; hide Instr.Size; hide Instr.PopCount; hide Instr.PushCount; hide Flow; hide Scan; hide ScanEnd; hide StartsOf;
    HoldingBounds(img, f, ins);
    HoldingScan(img, f, ins);
    FlowFacts(img, f, ins, hs, 0);
    Located(img, f, ins, hs, 0);
    NoSize(ins);
    var cs, starts := Spread(ins, hs), Scan(img.code, f.codeOffset, End(f));
    forall s | s in starts ensures StartCertified(img, f, cs, starts, s) {
      var k := ScanHolding(img, f, ins, s);
      Located(img, f, ins, hs, k);
      CertifiedAt(img, f, ins, hs, k, starts);
    }
  }

  /** Flowing code with a halt or return is accepted, and its jumps lead to instruction starts. */
  lemma {:induction false} FlowAccepted(img: Image, f: FuncRecord, ins: seq<Instr>, hs: seq<int>, stop: nat)
    requires Holding(img, f, ins) && Flow(ins, hs, 0, 0) && stop < |ins| && Stops(ins[stop])
    requires |img.code| < TWO_32 && f.codeLength <= 32767
    ensures Fields(f) && Accepts(img, f) && Certificate(img, f, Spread(ins, hs)) && Aligned(img, f)
  {
    hide Flow; hide Certificate; hide Pass; hide EncodeAll; hide Decode; hide Accepts;
    FlowCertifies(img, f, ins, hs);
    HoldingBounds(img, f, ins);
    DecodesTo(img.code, f.codeOffset, ins, stop);
    StartsOfAt(f.codeOffset, ins, stop);
    var s := f.codeOffset + Size(ins[..stop]);
    assert s in Scan(img.code, f.codeOffset, End(f));
    AcceptsExact(img, f);
    FlowAligned(img, f, ins, hs);
  }

  lemma HoldingBounds(img: Image, f: FuncRecord, ins: seq<Instr>)
    requires Holding(img, f, ins)
    ensures f.codeOffset + f.codeLength <= |img.code| && End(f) == f.codeOffset + f.codeLength
    ensures f.codeLength == Size(ins) && f.codeOffset + f.codeLength < TWO_32
  {
  }

  lemma {:induction false} FlowAligned(img: Image, f: FuncRecord, ins: seq<Instr>, hs: seq<int>)
    requires Holding(img, f, ins) && Flow(ins, hs, 0, 0) && ins != []
    ensures Aligned(img, f)
  {
    hide Holding; hide Decode; hide Size; hide Spread; hide JumpTarget; hide LandsAt; hide End; hide InstrAt; hide FlowsAt; hide AlignedAt;
    hide Instr.Size; hide Instr.PopCount; hide Instr.PushCount; hide Flow; hide Scan; hide ScanEnd; hide StartsOf; hide IndicesOk;
    HoldingScan(img, f, ins);
    HoldingBounds(img, f, ins);
    var starts := Scan(img.code, f.codeOffset, End(f));
    forall s | s in starts ensures AlignedAt(img, f, starts, s) {
      var k := ScanHolding(img, f, ins, s);
      FlowFacts(img, f, ins, hs, k);
      Located(img, f, ins, hs, k);
      JumpAligned(img, f, ins, hs, k, starts);
    }
  }

  lemma {:induction false} JumpAligned(img: Image, f: FuncRecord, ins: seq<Instr>, hs: seq<int>, k: nat, starts: seq<nat>)
    requires Holding(img, f, ins) && |hs| == |ins| && k < |ins| && FlowsAt(ins, hs, 0, k)
    requires starts == StartsOf(f.codeOffset, ins)
    requires InstrAt(img.code, f.codeOffset + Size(ins[..k]), End(f)) && Decode(img.code, f.codeOffset + Size(ins[..k])) == Some(ins[k])
    requires End(f) == f.codeOffset + f.codeLength
    ensures AlignedAt(img, f, starts, f.codeOffset + Size(ins[..k]))
  {
    hide Decode; hide End; hide EncodeAll; hide Spread;
    if IsJump(ins[k]) {
      var j := LandingTarget(f, ins, hs, k);
      hide Size; hide FlowsAt; hide JumpTarget; hide StartsOf; hide Instr.Size;
      if j < |ins| {
        StartsOfAt(f.codeOffset, ins, j);
        assert starts[j] in starts;
      } else {
        assert ins[..j] == ins;
      }
    }
  }
}
