/** What the bytecode verifier does not see: a jump into the middle of an instruction. */
module MisalignedJump {
  import opened Values
  import opened Bytecode
  import opened Machine
  import opened Verifier

  /** Main jumps to the operand of a constant load, whose low byte reads as a pop. */
  const MISALIGNED: Image :=
    Image([NullConst, NullConst, NullConst], [FuncRecord(0, 0, 0, 1, 0, 9)],
          [OP_JUMP, 1, 0, 0, 0, OP_CONST, 2, 0, OP_RETURN], [])

  lemma MisalignedDecodes()
    ensures var code := MISALIGNED.code;
            Decode(code, 0) == Some(Jump(1)) && Decode(code, 5) == Some(Const(2)) && Decode(code, 8) == Some(Return) &&
            Decode(code, 6) == Some(Pop)
    ensures JumpTarget(Jump(1), 0) == 6 && Target(5, 1) == 6
  {
  }

  lemma {:induction false} MisalignedScan()
    ensures var img, f := MISALIGNED, MISALIGNED.functions[0]; HasStop(img.code, 0, 9) && !Aligned(img, f)
  {
    var code := MISALIGNED.code;
    MisalignedDecodes();
    hide Decode; hide Target;
    assert Scan(code, 9, 9) == [];
    assert Scan(code, 8, 9) == [8];
    assert Scan(code, 5, 9) == [5, 8];
    assert Scan(code, 0, 9) == [0, 5, 8];
    assert 8 in Scan(code, 0, 9) && 0 in Scan(code, 0, 9) && 6 !in Scan(code, 0, 9);
  }

  /** A turn without errors from one position, table and height to the next. */
  ghost predicate Goes(img: Image, f: FuncRecord, hs: seq<int>, ip: nat, h: int, more: seq<int>, next: nat, out: int) {
    && TableFits(img, f, hs, ip) && InstrAt(img.code, ip, End(f)) && ip + Decode(img.code, ip).value.Size() == next
    && Turn(img, f, hs, ip, h) == Mark(true, more, out)
  }

  lemma {:induction false} GoesOn(img: Image, f: FuncRecord, hs: seq<int>, ip: nat, h: int, more: seq<int>, next: nat, out: int)
    requires Goes(img, f, hs, ip, h, more, next, out) && TableFits(img, f, more, next) && Pass(img, f, more, next, out)
    ensures TableFits(img, f, hs, ip) && Pass(img, f, hs, ip, h)
  {
    hide Turn; hide Decode;
  }

  /** The turn of a jump: its own height and its target's become known. */
  lemma {:induction false} JumpTurn(img: Image, f: FuncRecord, ip: nat, t: nat)
    requires TableFits(img, f, Unknowns(f.codeLength), ip) && f.codeLength > 0 && f.codeOffset == 0 && ip != t && f.codeLength < 100
    requires InstrAt(img.code, ip, End(f)) && Decode(img.code, ip).value.Jump? && JumpTarget(Decode(img.code, ip).value, ip) == t < End(f)
    requires ip + 5 < End(f) && ip + 5 != t
    ensures Turn(img, f, Unknowns(f.codeLength), ip, 0) == Mark(true, Unknowns(f.codeLength)[ip := 0][t := 0], 0)
  {
    SmallInt16(0);
    hide Decode; hide JumpTarget; hide Int16;
  }

  /** The turn of an instruction that does not jump. */
  lemma {:induction false} PlainTurn(img: Image, f: FuncRecord, hs: seq<int>, ip: nat, h: int)
    requires TableFits(img, f, hs, ip) && |hs| == f.codeLength > 0 && f.codeOffset == 0 && 0 <= h < 100
    requires InstrAt(img.code, ip, End(f)) && !IsJump(Decode(img.code, ip).value) && hs[ip] == UNKNOWN
    requires var i := Decode(img.code, ip).value;
             OperandsOk(img, f, i, ip) && i.PopCount() <= h && (Falls(i) || ip + i.Size() == f.codeLength)
    ensures Turn(img, f, hs, ip, h) == Mark(true, hs[ip := h], Post(Decode(img.code, ip).value, h))
  {
    SmallInt16(h);
    hide Decode; hide Int16; hide OperandsOk;
  }

  lemma MisalignedShape()
    ensures var img, f := MISALIGNED, MISALIGNED.functions[0];
            End(f) == |img.code| == f.codeLength == 9 && f.codeOffset == 0 &&
            InstrAt(img.code, 0, 9) && InstrAt(img.code, 5, 9) && InstrAt(img.code, 8, 9)
  {
    MisalignedDecodes();
  }

  const H0: seq<int> := Unknowns(9)
  const H1: seq<int> := H0[0 := 0][6 := 0]
  const H2: seq<int> := H1[5 := 0]
  const H3: seq<int> := H2[8 := 1]

  lemma {:induction false} FirstGoes()
    ensures Goes(MISALIGNED, MISALIGNED.functions[0], H0, 0, 0, H1, 5, 0)
  {
    MisalignedDecodes();
    MisalignedShape();
    hide Decode; hide JumpTarget; hide Turn; hide InstrAt; hide End; hide Unknowns; hide Target; hide Scan;
    JumpTurn(MISALIGNED, MISALIGNED.functions[0], 0, 6);
  }

  lemma {:induction false} SecondGoes()
    ensures Goes(MISALIGNED, MISALIGNED.functions[0], H1, 5, 0, H2, 8, 1)
  {
    MisalignedDecodes();
    MisalignedShape();
    hide Decode; hide JumpTarget; hide Turn; hide InstrAt; hide End; hide Unknowns; hide Target; hide Scan;
    PlainTurn(MISALIGNED, MISALIGNED.functions[0], H1, 5, 0);
  }

  lemma {:induction false} ThirdGoes()
    ensures Goes(MISALIGNED, MISALIGNED.functions[0], H2, 8, 1, H3, 9, 0)
  {
    MisalignedDecodes();
    MisalignedShape();
    hide Decode; hide JumpTarget; hide Turn; hide InstrAt; hide End; hide Unknowns; hide Target; hide Scan;
    PlainTurn(MISALIGNED, MISALIGNED.functions[0], H2, 8, 1);
  }

  lemma AtTheEnd()
    ensures TableFits(MISALIGNED, MISALIGNED.functions[0], H3, 9) && Pass(MISALIGNED, MISALIGNED.functions[0], H3, 9, 0)
    ensures TableFits(MISALIGNED, MISALIGNED.functions[0], H2, 8) && TableFits(MISALIGNED, MISALIGNED.functions[0], H1, 5)
  {
    MisalignedShape();
    hide End; hide InstrAt; hide Turn;
  }

  lemma {:induction false} MisalignedPasses()
    ensures Pass(MISALIGNED, MISALIGNED.functions[0], Unknowns(9), 0, 0)
  {
    var img, f := MISALIGNED, MISALIGNED.functions[0];
    FirstGoes();
    SecondGoes();
    ThirdGoes();
    AtTheEnd();
    hide Goes; hide Pass; hide TableFits;
    GoesOn(img, f, H2, 8, 1, H3, 9, 0);
    GoesOn(img, f, H1, 5, 0, H2, 8, 1);
    GoesOn(img, f, H0, 0, 0, H1, 5, 0);
  }

  lemma {:induction false} MisalignedRun()
    ensures Run(MISALIGNED, Next(Boot(MISALIGNED)), 2) == Machine.Fail(StackUnderflow)
  {
    var img, vm := MISALIGNED, Boot(MISALIGNED);
    MisalignedDecodes();
    hide Decode; hide Target;
    var next := vm.(ip := 6);
    StepDecodes(img, vm);
    StepDecodes(img, next);
    assert Run(img, Next(vm), 2) == Run(img, Step(img, vm), 1) == Run(img, Step(img, next), 0);
  }

  /** Without aligned jumps acceptance promises nothing: this image is accepted, and its run underflows. */
  lemma {:induction false} MisalignedUnderflows()
    ensures Accepts(MISALIGNED, MISALIGNED.functions[0]) && !Aligned(MISALIGNED, MISALIGNED.functions[0])
    ensures Run(MISALIGNED, Next(Boot(MISALIGNED)), 2) == Machine.Fail(StackUnderflow)
  {
    hide Pass; hide HasStop; hide Aligned; hide Run;
    MisalignedScan();
    MisalignedPasses();
    MisalignedRun();
  }
}
