/** The verifier accepts a function exactly if its instructions can be given heights from zero on. */
module ExactAcceptance {
  import opened Values
  import opened Bytecode
  import opened CodeGen
  import opened Machine
  import opened Verifier
  import opened StackFlow
  import opened HeightCertificates
  import opened HeightFlow
  import opened SimulationBase

  /** A byte table and instruction heights that say the same. */
  ghost predicate SameHeights(ins: seq<Instr>, hs: seq<int>, cs: seq<int>) {
    && |hs| == |ins| && |cs| == Size(ins)
    && forall k :: 0 <= k < |ins| ==> Size(ins[..k]) < Size(ins) && cs[Size(ins[..k])] == hs[k]
  }

  lemma {:induction false} SpreadSame(ins: seq<Instr>, hs: seq<int>)
    requires |hs| == |ins|
    ensures SameHeights(ins, hs, Spread(ins, hs))
  {
    hide Size; hide Spread;
    forall k | 0 <= k < |ins| ensures Size(ins[..k]) < Size(ins) && Spread(ins, hs)[Size(ins[..k])] == hs[k] {
      SpreadAt(ins, hs, k);
    }
  }

  /** Instruction heights read from a byte table. */
  ghost function ReadHeights(ins: seq<Instr>, cs: seq<int>): (hs: seq<int>)
    requires |cs| == Size(ins)
    ensures SameHeights(ins, hs, cs)
  {
    hide Size;
    assert forall k :: 0 <= k < |ins| ==> Size(ins[..k]) < Size(ins) by {
      forall k | 0 <= k < |ins| ensures Size(ins[..k]) < Size(ins) {
        SpreadSize(ins, k);
      }
    }
    seq(|ins|, k requires 0 <= k < |ins| => cs[Size(ins[..k])])
  }

  /** Where a jump of closed code leads in the image. */
  lemma {:induction false} TargetOf(f: FuncRecord, ins: seq<Instr>, k: nat, t: nat)
    requires Lands(ins, k, t) && f.codeLength == Size(ins) && f.codeOffset + f.codeLength < TWO_32
    ensures JumpTarget(ins[k], f.codeOffset + Size(ins[..k])) == f.codeOffset + Size(ins[..t])
    ensures Size(ins[..t]) <= Size(ins) && (t < |ins| <==> Size(ins[..t]) < Size(ins))
  {
    hide Size; hide Instr.Size; hide Target;
    SpreadSize(ins, k);
    PrefixBelow(ins, t);
    if t == |ins| {
      assert ins[..t] == ins;
    } else {
      SpreadSize(ins, t);
    }
    SmallTarget(f.codeOffset + Size(ins[..k + 1]), ins[k].offset);
  }

  lemma SomeLanding(ins: seq<Instr>, k: nat) returns (t: nat)
    requires Closed(ins) && k < |ins| && IsJump(ins[k])
    ensures Lands(ins, k, t)
  {
    t :| Lands(ins, k, t);
  }

  /** The height at a jump's target. */
  lemma {:induction false} RecordedIff(f: FuncRecord, ins: seq<Instr>, hs: seq<int>, cs: seq<int>, k: nat)
    requires k < |ins| && Closed(ins) && SameHeights(ins, hs, cs)
    requires f.codeLength == Size(ins) && f.codeOffset + f.codeLength < TWO_32 && End(f) == f.codeOffset + f.codeLength
    ensures var s := f.codeOffset + Size(ins[..k]);
            && (Recorded(f, ins[k], s, hs[k], cs) <==> (IsJump(ins[k]) ==> Leads(ins, hs, Free, k, Post(ins[k], hs[k]))))
            && (IsJump(ins[k]) ==> f.codeOffset <= JumpTarget(ins[k], s) <= End(f))
  {
    hide Size; hide End; hide Lands; hide JumpTarget; hide Leads; hide Closed; hide Instr.PopCount; hide Instr.PushCount;
    if IsJump(ins[k]) {
      var t := SomeLanding(ins, k);
      LandsBound(ins, k, t);
      TargetOf(f, ins, k, t);
      LeadsTo(ins, hs, Free, k, t, Post(ins[k], hs[k]));
    }
  }

  /** An earlier jump leads to a boundary. */
  lemma {:induction false} JumpedIff(img: Image, f: FuncRecord, ins: seq<Instr>, k: nat, t: nat)
    requires Holding(img, f, ins) && Closed(ins) && k < |ins| && t <= |ins|
    ensures JumpedTo(img, StartsOf(f.codeOffset, ins), f.codeOffset + Size(ins[..k]), f.codeOffset + Size(ins[..t])) <==> JumpedIn(ins, k, t)
  {
    hide Size; hide StartsOf; hide JumpsTo; hide EncodeAll; hide Closed; hide Holding; hide Lands;
    var at, starts := f.codeOffset, StartsOf(f.codeOffset, ins);
    if JumpedTo(img, starts, at + Size(ins[..k]), at + Size(ins[..t])) {
      var s :| s in starts && s <= at + Size(ins[..k]) && JumpsTo(img, s, at + Size(ins[..t]));
      var j :| 0 <= j < |starts| && starts[j] == s;
      StartsOfAt(at, ins, j);
      if j > k {
        PrefixGrows(ins, k, j);
      }
      JumpsToIff(img, f, ins, j, t);
    }
    if JumpedIn(ins, k, t) {
      var j: nat :| j <= k && Lands(ins, j, t);
      JumpsToIff(img, f, ins, j, t);
      StartsOfAt(at, ins, j);
      PrefixGrows(ins, j, k);
      assert starts[j] in starts;
    }
  }

  lemma JumpsMeans(img: Image, s: nat, i: Instr, x: nat)
    requires s < |img.code| && Decode(img.code, s) == Some(i)
    ensures JumpsTo(img, s, x) <==> IsJump(i) && JumpTarget(i, s) == x
  {
    hide Decode; hide JumpTarget;
  }

  lemma {:induction false} JumpsToIff(img: Image, f: FuncRecord, ins: seq<Instr>, j: nat, t: nat)
    requires Holding(img, f, ins) && Closed(ins) && j < |ins| && t <= |ins|
    ensures JumpsTo(img, f.codeOffset + Size(ins[..j]), f.codeOffset + Size(ins[..t])) <==> Lands(ins, j, t)
  {
    hide Size; hide JumpTarget; hide EncodeAll; hide Decode; hide Holding; hide Lands; hide JumpsTo; hide Closed; hide End;
    HoldingBounds(img, f, ins);
    Decoded(img, f, ins, j);
    JumpsMeans(img, f.codeOffset + Size(ins[..j]), ins[j], f.codeOffset + Size(ins[..t]));
    if IsJump(ins[j]) {
      OneTarget(f, ins, j, t);
    } else if Lands(ins, j, t) {
      LandsJump(ins, j, t);
    }
  }

  /** A jump leads to a boundary exactly if its target is there. */
  lemma {:induction false} OneTarget(f: FuncRecord, ins: seq<Instr>, j: nat, t: nat)
    requires Closed(ins) && j < |ins| && t <= |ins| && IsJump(ins[j]) && f.codeLength == Size(ins) && f.codeOffset + f.codeLength < TWO_32
    ensures JumpTarget(ins[j], f.codeOffset + Size(ins[..j])) == f.codeOffset + Size(ins[..t]) <==> Lands(ins, j, t)
  {
    hide Size; hide JumpTarget; hide Lands; hide Closed;
    var u := SomeLanding(ins, j);
    LandsBound(ins, j, u);
    TargetOf(f, ins, j, u);
    if u < t {
      PrefixGrows(ins, u, t);
    } else if t < u {
      PrefixGrows(ins, t, u);
    }
    if Lands(ins, j, t) {
      LandsOnce(ins, j, t, u);
    }
  }

  /** What comes after an instruction. */
  lemma {:induction false} ContinuesIff(img: Image, f: FuncRecord, ins: seq<Instr>, hs: seq<int>, cs: seq<int>, k: nat, s: nat)
    requires |cs| == f.codeLength && End(f) == f.codeOffset + f.codeLength && f.codeOffset <= s && InstrAt(img.code, s, End(f))
    requires |hs| == |ins| && k < |ins| && s == f.codeOffset + Size(ins[..k])
    requires Holding(img, f, ins) && Closed(ins) && SameHeights(ins, hs, cs)
    ensures Continues(img, f, cs, StartsOf(f.codeOffset, ins), s, End(f)) <==> GoesOn(ins, hs, Free, k)
  {
    hide Size; hide JumpedIn; hide JumpedTo; hide Holding; hide Decode; hide StartsOf; hide Closed; hide Spread; hide EncodeAll; hide Instr.Size;
    hide End; hide InstrAt; hide Instr.PopCount; hide Instr.PushCount;
    Located(img, f, ins, hs, k);
    HoldingBounds(img, f, ins);
    JumpedIff(img, f, ins, k, k + 1);
    if k + 1 < |ins| {
      assert cs[Size(ins[..k + 1])] == hs[k + 1];
    }
  }

  lemma CertifiedMeans(img: Image, f: FuncRecord, cs: seq<int>, starts: seq<nat>, s: nat, i: Instr)
    requires |cs| == f.codeLength && End(f) == f.codeOffset + f.codeLength && f.codeOffset <= s && InstrAt(img.code, s, End(f))
    requires Decode(img.code, s) == Some(i)
    ensures StartCertified(img, f, cs, starts, s) <==>
            Checked(img, f, i, s, cs[s - f.codeOffset]) && Recorded(f, i, s, cs[s - f.codeOffset], cs) && Continues(img, f, cs, starts, s, End(f))
  {
    hide Decode; hide End; hide Checked; hide Recorded; hide Continues; hide InstrAt;
  }

  lemma CheckedIff(img: Image, f: FuncRecord, i: Instr, s: nat, h: int)
    requires IndicesOk(img, f, i) && (IsJump(i) ==> f.codeOffset <= JumpTarget(i, s) <= End(f))
    ensures Checked(img, f, i, s, h) <==> 0 <= h && i.PopCount() <= h
  {
    IndicesAndTarget(img, f, i, s);
    hide JumpTarget; hide IndicesOk; hide OperandsOk; hide End; hide Instr.PopCount;
  }

  /** An instruction is certified by the bytes exactly if it is by the instructions. */
  lemma {:induction false} CertifiedIff(img: Image, f: FuncRecord, ins: seq<Instr>, hs: seq<int>, cs: seq<int>, k: nat, s: nat)
    requires |cs| == f.codeLength && End(f) == f.codeOffset + f.codeLength && f.codeOffset <= s && InstrAt(img.code, s, End(f))
    requires |hs| == |ins| && k < |ins| && s == f.codeOffset + Size(ins[..k])
    requires Holding(img, f, ins) && Closed(ins) && SameHeights(ins, hs, cs)
    ensures StartCertified(img, f, cs, StartsOf(f.codeOffset, ins), s) <==> HeightOk(ins, hs, Free, k)
  {
    hide Size; hide Decode; hide Continues; hide GoesOn; hide Recorded; hide Leads; hide Closed; hide Holding; hide Spread; hide StartsOf;
    hide JumpTarget; hide InstrAt; hide IndicesOk; hide StartCertified; hide Checked; hide Instr.Size; hide Instr.PopCount; hide Instr.PushCount;
    hide End;
    HoldingBounds(img, f, ins);
    Decoded(img, f, ins, k);
    RecordedIff(f, ins, hs, cs, k);
    ContinuesIff(img, f, ins, hs, cs, k, s);
    IndexOk(img, f, ins, k);
    CheckedIff(img, f, ins[k], s, hs[k]);
    CertifiedMeans(img, f, cs, StartsOf(f.codeOffset, ins), s, ins[k]);
  }

  lemma Decoded(img: Image, f: FuncRecord, ins: seq<Instr>, k: nat)
    requires Holding(img, f, ins) && k < |ins|
    ensures f.codeOffset + Size(ins[..k]) < |img.code| && Decode(img.code, f.codeOffset + Size(ins[..k])) == Some(ins[k])
    ensures InstrAt(img.code, f.codeOffset + Size(ins[..k]), End(f))
  {
    hide Holding; hide Decode; hide Size; hide Spread; hide End; hide InstrAt;
    Located(img, f, ins, seq(|ins|, _ => 0), k);
  }

  lemma IndexOk(img: Image, f: FuncRecord, ins: seq<Instr>, k: nat)
    requires Holding(img, f, ins) && k < |ins|
    ensures IndicesOk(img, f, ins[k])
  {
  }

  lemma {:induction false} HeightsCertify(img: Image, f: FuncRecord, ins: seq<Instr>, hs: seq<int>, cs: seq<int>)
    requires |hs| == |ins| && |cs| == f.codeLength && Holding(img, f, ins) && Closed(ins) && ins != [] && SameHeights(ins, hs, cs)
    requires AllOk(ins, hs, Free) && hs[0] == 0
    ensures Certificate(img, f, cs)
  {
    hide Size; hide Holding; hide Closed; hide StartCertified; hide HeightOk; hide Scan; hide ScanEnd; hide StartsOf; hide End; hide InstrAt;
    hide SameHeights; hide Decode;
    HoldingBounds(img, f, ins);
    HoldingScan(img, f, ins);
    SameLengths(ins, hs, cs);
    var starts := StartsOf(f.codeOffset, ins);
    forall s | s in starts ensures f.codeOffset <= s && InstrAt(img.code, s, End(f)) && StartCertified(img, f, cs, starts, s) {
      var k := ScanHolding(img, f, ins, s);
      Decoded(img, f, ins, k);
      assert HeightOk(ins, hs, Free, k);
      CertifiedIff(img, f, ins, hs, cs, k, s);
    }
  }

  lemma {:induction false} CertificateHeights(img: Image, f: FuncRecord, ins: seq<Instr>, hs: seq<int>, cs: seq<int>)
    requires |hs| == |ins| && |cs| == f.codeLength && Holding(img, f, ins) && Closed(ins) && ins != [] && SameHeights(ins, hs, cs)
    requires Certificate(img, f, cs)
    ensures AllOk(ins, hs, Free) && hs[0] == 0
  {
    hide Size; hide Holding; hide Closed; hide StartCertified; hide HeightOk; hide Scan; hide ScanEnd; hide StartsOf; hide End; hide InstrAt;
    hide SameHeights; hide Decode;
    HoldingBounds(img, f, ins);
    HoldingScan(img, f, ins);
    SameLengths(ins, hs, cs);
    forall k | 0 <= k < |ins| ensures HeightOk(ins, hs, Free, k) {
      var s := f.codeOffset + Size(ins[..k]);
      StartsOfAt(f.codeOffset, ins, k);
      assert StartsOf(f.codeOffset, ins)[k] == s;
      Decoded(img, f, ins, k);
      CertifiedIff(img, f, ins, hs, cs, k, s);
    }
  }

  lemma SameLengths(ins: seq<Instr>, hs: seq<int>, cs: seq<int>)
    requires SameHeights(ins, hs, cs) && ins != []
    ensures |hs| == |ins| && |cs| == Size(ins) > 0 && hs[0] == cs[0]
  {
    NoSize(ins);
    hide Size;
    assert cs[Size(ins[..0])] == hs[0];
  }

  /** Code with a halt or return has the shape the verifier wants. */
  lemma {:induction false} HoldingShaped(img: Image, f: FuncRecord, ins: seq<Instr>, stop: nat)
    requires Holding(img, f, ins) && stop < |ins| && Stops(ins[stop])
    ensures Shaped(img, f)
  {
    hide EncodeAll; hide Decode; hide Holding;
    HoldingBounds(img, f, ins);
    HoldingScan(img, f, ins);
    Decoded(img, f, ins, stop);
    StartsOfAt(f.codeOffset, ins, stop);
    hide Scan; hide ScanEnd; hide StartsOf; hide Size; hide End;
    assert StartsOf(f.codeOffset, ins)[stop] == f.codeOffset + Size(ins[..stop]);
  }

  /** Closed code has a certificate exactly if it can be run through from height zero. */
  lemma {:induction false} CertificateExists(img: Image, f: FuncRecord, ins: seq<Instr>)
    requires Holding(img, f, ins) && Closed(ins) && ins != []
    ensures (exists cs :: Certificate(img, f, cs)) <==> Runs(ins, Level(0), Free)
  {
    hide Certificate; hide AllOk; hide EndReached; hide Closed; hide Size; hide Holding; hide End;
    HoldingBounds(img, f, ins);
    if cs :| Certificate(img, f, cs) {
      CertificateLength(img, f, cs);
      var hs := ReadHeights(ins, cs);
      CertificateHeights(img, f, ins, hs, cs);
    }
    AllOkLength(ins);
    if hs :| AllOk(ins, hs, Free) && |hs| == |ins| && hs[0] == 0 {
      SpreadSame(ins, hs);
      HeightsCertify(img, f, ins, hs, Spread(ins, hs));
    }
  }

  /** Closed code with a halt or return is accepted exactly if it can be run through from height zero. */
  lemma {:induction false} AcceptsIff(img: Image, f: FuncRecord, ins: seq<Instr>, stop: nat)
    requires Holding(img, f, ins) && Closed(ins) && stop < |ins| && Stops(ins[stop])
    requires |img.code| < TWO_32 && f.codeLength <= 32767
    ensures Fields(f) && (Accepts(img, f) <==> Runs(ins, Level(0), Free))
  {
    hide Accepts; hide Certificate; hide Closed; hide Holding; hide Shaped; hide Runs; hide Stops; hide End;
    HoldingBounds(img, f, ins);
    AcceptsExact(img, f);
    HoldingShaped(img, f, ins, stop);
    CertificateExists(img, f, ins);
  }

  lemma CertificateLength(img: Image, f: FuncRecord, cs: seq<int>)
    requires Certificate(img, f, cs)
    ensures |cs| == f.codeLength
  {
  }

  lemma AllOkLength(ins: seq<Instr>)
    ensures forall hs :: AllOk(ins, hs, Free) ==> |hs| == |ins|
  {
  }

  // ----- Relocation -----

  lemma {:induction false} RelocateHeights(d: nat, ins: seq<Instr>, hs: seq<int>, x: Exit, k: nat)
    requires |hs| == |ins| && k < |ins|
    ensures HeightOk(Relocate(d, ins), hs, x, k) <==> HeightOk(ins, hs, x, k)
  {
    RelocateJumped(d, ins, k, k + 1);
    hide Size; hide Lands; hide JumpedIn; hide Leads;
    var r, post := Relocate(d, ins), Post(ins[k], hs[k]);
    RelocateLeads(d, ins, hs, x, k, post);
  }

  lemma {:induction false} RelocateLeads(d: nat, ins: seq<Instr>, hs: seq<int>, x: Exit, k: nat, post: int)
    ensures Leads(Relocate(d, ins), hs, x, k, post) <==> Leads(ins, hs, x, k, post)
  {
    hide Size; hide Lands;
    var r := Relocate(d, ins);
    if Leads(r, hs, x, k, post) {
      var t :| Lands(r, k, t) && EndsAt(AtEnd(hs, x, t), post);
      RelocateJump(d, ins, k, t);
    }
    if Leads(ins, hs, x, k, post) {
      var t :| Lands(ins, k, t) && EndsAt(AtEnd(hs, x, t), post);
      RelocateJump(d, ins, k, t);
    }
  }

  lemma {:induction false} RelocateJumped(d: nat, ins: seq<Instr>, k: nat, t: nat)
    ensures JumpedIn(Relocate(d, ins), k, t) <==> JumpedIn(ins, k, t)
  {
    hide Size; hide Lands;
    if JumpedIn(Relocate(d, ins), k, t) {
      var j: nat :| j <= k && Lands(Relocate(d, ins), j, t);
      RelocateJump(d, ins, j, t);
    }
    if JumpedIn(ins, k, t) {
      var j: nat :| j <= k && Lands(ins, j, t);
      RelocateJump(d, ins, j, t);
    }
  }

  lemma {:induction false} RelocateJump(d: nat, ins: seq<Instr>, j: nat, t: nat)
    ensures Lands(Relocate(d, ins), j, t) <==> Lands(ins, j, t)
  {
    hide Size;
    var r := Relocate(d, ins);
    if j < |ins| && t <= |ins| && IsJump(ins[j]) {
      assert r[..t] == Relocate(d, ins[..t]) && r[..j + 1] == Relocate(d, ins[..j + 1]);
      RelocateSize(d, ins[..t]);
      RelocateSize(d, ins[..j + 1]);
      assert r[j] == ins[j];
    }
  }

  /** Moving function indices changes no height. */
  lemma {:induction false} RelocateRuns(d: nat, ins: seq<Instr>)
    ensures Runs(Relocate(d, ins), Level(0), Free) <==> Runs(ins, Level(0), Free)
    ensures Closed(ins) ==> Closed(Relocate(d, ins))
  {
    hide Size; hide HeightOk; hide Lands;
    var r := Relocate(d, ins);
    forall hs ensures AllOk(r, hs, Free) <==> AllOk(ins, hs, Free) {
      if |hs| == |ins| {
        forall k | 0 <= k < |ins| ensures HeightOk(r, hs, Free, k) <==> HeightOk(ins, hs, Free, k) {
          RelocateHeights(d, ins, hs, Free, k);
        }
      }
    }
    hide AllOk;
    if Closed(ins) {
      forall k | 0 <= k < |r| && IsJump(r[k]) ensures exists t :: Lands(r, k, t) {
        assert IsJump(ins[k]);
        var t :| Lands(ins, k, t);
        LandsBound(ins, k, t);
        RelocateJump(d, ins, k, t);
      }
    }
  }
}
