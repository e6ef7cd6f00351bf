/** Operand heights along instruction lists whose jumps stay inside them, and how such lists compose. */
module StackFlow {
  import opened Values
  import opened Bytecode
  import opened CodeGen
  import opened Verifier

  /** Height before instruction `k`, or at the end. */
  function HeightAt(hs: seq<int>, end: int, k: nat): int
    requires k <= |hs|
  {
    if k < |hs| then hs[k] else end
  }

  /** The jump at `k` leads to an instruction boundary of the list with height `post`. */
  ghost predicate LandsAt(ins: seq<Instr>, hs: seq<int>, end: int, k: nat, post: int)
    requires |hs| == |ins| && k < |ins| && IsJump(ins[k])
  {
    exists j :: 0 <= j <= |ins| && Size(ins[..j]) == Size(ins[..k + 1]) + ins[k].offset && HeightAt(hs, end, j) == post
  }

  /** Instruction `k` has the values it pops and passes its height on; after a transfer the height is zero. */
  ghost predicate FlowsAt(ins: seq<Instr>, hs: seq<int>, end: int, k: nat)
    requires |hs| == |ins| && k < |ins|
  {
    && 0 <= hs[k] && ins[k].PopCount() <= hs[k]
    && HeightAt(hs, end, k + 1) == (if Falls(ins[k]) then Post(ins[k], hs[k]) else 0)
    && (IsJump(ins[k]) ==> LandsAt(ins, hs, end, k, Post(ins[k], hs[k])))
  }

  ghost predicate Flow(ins: seq<Instr>, hs: seq<int>, start: int, end: int) {
    |hs| == |ins| && HeightAt(hs, end, 0) == start && 0 <= end && forall k :: 0 <= k < |ins| ==> FlowsAt(ins, hs, end, k)
  }

  lemma {:induction false} PrefixSize(a: seq<Instr>, b: seq<Instr>, c: seq<Instr>, j: nat)
    requires j <= |b|
    ensures (a + b + c)[..|a| + j] == a + b[..j]
    ensures Size((a + b + c)[..|a| + j]) == Size(a) + Size(b[..j])
  {
    assert (a + b + c)[..|a| + j] == a + b[..j];
    SizeConcat(a, b[..j]);
  }

  /** An instruction keeps flowing when its list becomes part of a longer one. */
  lemma {:induction false} EmbedAt(a: seq<Instr>, b: seq<Instr>, c: seq<Instr>, ha: seq<int>, hb: seq<int>, hc: seq<int>,
                                   mid: int, end: int, k: nat)
    requires |ha| == |a| && |hb| == |b| && |hc| == |c| && k < |b| && FlowsAt(b, hb, mid, k) && HeightAt(hc, end, 0) == mid
    ensures FlowsAt(a + b + c, ha + hb + hc, end, |a| + k)
  {
    hide Size;
    var ins, hs := a + b + c, ha + hb + hc;
    assert ins[|a| + k] == b[k];
    EmbedHeight(ha, hb, hc, mid, end, k);
    EmbedHeight(ha, hb, hc, mid, end, k + 1);
    if IsJump(b[k]) {
      var j :| 0 <= j <= |b| && Size(b[..j]) == Size(b[..k + 1]) + b[k].offset && HeightAt(hb, mid, j) == Post(b[k], hb[k]);
      EmbedHeight(ha, hb, hc, mid, end, j);
      PrefixSize(a, b, c, j);
      PrefixSize(a, b, c, k + 1);
      assert |a| + k + 1 == |a| + (k + 1);
      assert HeightAt(hs, end, |a| + j) == Post(b[k], hb[k]);
      assert Size(ins[..|a| + j]) == Size(ins[..|a| + k + 1]) + ins[|a| + k].offset;
    }
  }

  lemma EmbedHeight(ha: seq<int>, hb: seq<int>, hc: seq<int>, mid: int, end: int, j: nat)
    requires j <= |hb| && HeightAt(hc, end, 0) == mid
    ensures HeightAt(ha + hb + hc, end, |ha| + j) == HeightAt(hb, mid, j)
  {
  }

  lemma {:induction false} EmbedAll(a: seq<Instr>, b: seq<Instr>, c: seq<Instr>, ha: seq<int>, hb: seq<int>, hc: seq<int>,
                                    start: int, mid: int, end: int)
    requires |ha| == |a| && |hc| == |c| && Flow(b, hb, start, mid) && HeightAt(hc, end, 0) == mid
    ensures forall k :: |a| <= k < |a| + |b| ==> FlowsAt(a + b + c, ha + hb + hc, end, k)
  {
    hide FlowsAt; hide HeightAt;
    forall k | |a| <= k < |a| + |b| ensures FlowsAt(a + b + c, ha + hb + hc, end, k) {
      EmbedAt(a, b, c, ha, hb, hc, mid, end, k - |a|);
    }
  }

  // ----- Composition -----

  lemma FlowEmpty(h: int)
    requires 0 <= h
    ensures Flow([], [], h, h)
  {
  }

  lemma {:induction false} FlowThen(a: seq<Instr>, ha: seq<int>, b: seq<Instr>, hb: seq<int>, start: int, mid: int, end: int)
    requires Flow(a, ha, start, mid) && Flow(b, hb, mid, end)
    ensures Flow(a + b, ha + hb, start, end)
  {
    hide FlowsAt;
    EmbedAll([], a, b, [], ha, hb, start, mid, end);
    EmbedAll(a, b, [], ha, hb, [], mid, end, end);
    assert [] + a + b == a + b && [] + ha + hb == ha + hb;
    assert a + b + [] == a + b && ha + hb + [] == ha + hb;
  }

  lemma FlowOne(i: Instr, h: int)
    requires Falls(i) && !IsJump(i) && i.PopCount() <= h && 0 <= h
    ensures Flow([i], [h], h, Post(i, h))
  {
    assert FlowsAt([i], [h], Post(i, h), 0);
  }

  /** A halt or return: whatever comes next starts at height zero. */
  lemma FlowStop(i: Instr, h: int)
    requires Stops(i) && i.PopCount() <= h
    ensures Flow([i], [h], h, 0)
  {
    assert FlowsAt([i], [h], 0, 0);
  }

  lemma {:induction false} LandsEnd(ins: seq<Instr>, hs: seq<int>, end: int, k: nat)
    requires |hs| == |ins| && k < |ins| && IsJump(ins[k]) && Size(ins) == Size(ins[..k + 1]) + ins[k].offset
    ensures LandsAt(ins, hs, end, k, end)
  {
    assert ins[..|ins|] == ins;
  }

  /** A jump over a list. */
  lemma {:induction false} FlowSkip(i: Instr, b: seq<Instr>, hb: seq<int>, h: int, end: int)
    requires IsJump(i) && i.offset == Size(b) && i.PopCount() <= h && 0 <= h
    requires Flow(b, hb, if Falls(i) then Post(i, h) else 0, end) && end == Post(i, h)
    ensures Flow([i] + b, [h] + hb, h, end)
  {
    hide Size;
    SkipAt(i, b, hb, h, end);
    hide FlowsAt;
    EmbedAll([i], b, [], [h], hb, [], if Falls(i) then Post(i, h) else 0, end, end);
    assert [i] + b + [] == [i] + b && [h] + hb + [] == [h] + hb;
  }

  lemma {:induction false} SkipAt(i: Instr, b: seq<Instr>, hb: seq<int>, h: int, end: int)
    requires IsJump(i) && i.offset == Size(b) && i.PopCount() <= h && 0 <= h && |hb| == |b|
    requires HeightAt(hb, end, 0) == (if Falls(i) then Post(i, h) else 0) && end == Post(i, h)
    ensures FlowsAt([i] + b, [h] + hb, end, 0)
  {
    hide Size;
    var ins, hs := [i] + b, [h] + hb;
    SizeConcat([i], b);
    assert ins[..1] == [i];
    LandsEnd(ins, hs, end, 0);
    assert HeightAt(hs, end, 1) == HeightAt(hb, end, 0);
  }

  /** A test at height one, the code for true with a jump past the code for false, and that code. */
  lemma {:induction false} FlowBranch(t: seq<Instr>, ht: seq<int>, e: seq<Instr>, he: seq<int>)
    requires Flow(t, ht, 0, 0) && Flow(e, he, 0, 0)
    ensures Flow([JumpIfFalse(Size(t) + 5)] + t + [Jump(Size(e))] + e, [1] + ht + [0] + he, 1, 0)
  {
    hide Size; hide FlowsAt;
    var test, skip := JumpIfFalse(Size(t) + 5), Jump(Size(e));
    var rest, hrest := [skip] + e, [0] + he;
    FlowSkip(skip, e, he, 0, 0);
    FlowThen(t, ht, rest, hrest, 0, 0, 0);
    var ins, hs := [test] + (t + rest), [1] + (ht + hrest);
    EmbedAll([test], t + rest, [], [1], ht + hrest, [], 0, 0, 0);
    assert [test] + (t + rest) + [] == ins && [1] + (ht + hrest) + [] == hs;
    BranchTest(t, ht, e, he);
    assert ins == [test] + t + [skip] + e && hs == [1] + ht + [0] + he;
  }

  lemma {:induction false} BranchTest(t: seq<Instr>, ht: seq<int>, e: seq<Instr>, he: seq<int>)
    requires Flow(t, ht, 0, 0) && Flow(e, he, 0, 0)
    ensures FlowsAt([JumpIfFalse(Size(t) + 5)] + (t + ([Jump(Size(e))] + e)), [1] + (ht + ([0] + he)), 0, 0)
  {
    hide Size;
    var test, skip := JumpIfFalse(Size(t) + 5), Jump(Size(e));
    var ins, hs := [test] + (t + ([skip] + e)), [1] + (ht + ([0] + he));
    var j := |t| + 2;
    assert ins[..1] == [test];
    assert ins[..j] == [test] + t + [skip];
    EncodeOne(test);
    SizeConcat([test], t);
    SizeSnoc([test] + t, skip);
    assert HeightAt(hs, 0, 1) == 0 && HeightAt(hs, 0, j) == 0;
  }

  /** A test, an exit past the body, the body and the jump back. */
  lemma {:induction false} FlowLoop(c: seq<Instr>, hc: seq<int>, exit: Instr, b: seq<Instr>, hb: seq<int>)
    requires exit == JumpIfFalse(Size(b) + 5) || exit == JumpIfTrue(Size(b) + 5)
    requires Flow(c, hc, 0, 1) && Flow(b, hb, 0, 0)
    ensures Flow(c + [exit] + b + [Jump(-(Size(c) + Size(b) + 10))], hc + [1] + hb + [0], 0, 0)
  {
    hide Size; hide FlowsAt;
    var back := Jump(-(Size(c) + Size(b) + 10));
    var ins, hs := c + [exit] + b + [back], hc + [1] + hb + [0];
    EmbedAll([], c, [exit] + b + [back], [], hc, [1] + hb + [0], 0, 1, 0);
    assert [] + c + ([exit] + b + [back]) == ins && [] + hc + ([1] + hb + [0]) == hs;
    EmbedAll(c + [exit], b, [back], hc + [1], hb, [0], 0, 0, 0);
    LoopExit(c, hc, exit, b, hb);
    LoopBack(c, hc, exit, b, hb);
    LoopStart(hc, hs);
  }

  lemma LoopStart(hc: seq<int>, hs: seq<int>)
    requires hc <= hs && HeightAt(hc, 1, 0) == 0
    ensures HeightAt(hs, 0, 0) == 0
  {
    assert hc != [];
  }

  lemma {:induction false} LoopExit(c: seq<Instr>, hc: seq<int>, exit: Instr, b: seq<Instr>, hb: seq<int>)
    requires exit == JumpIfFalse(Size(b) + 5) || exit == JumpIfTrue(Size(b) + 5)
    requires |hc| == |c| && |hb| == |b| && HeightAt(hb, 0, 0) == 0
    ensures var back := Jump(-(Size(c) + Size(b) + 10));
            FlowsAt(c + [exit] + b + [back], hc + [1] + hb + [0], 0, |c|)
  {
    hide Size;
    var back := Jump(-(Size(c) + Size(b) + 10));
    var ins, hs := c + [exit] + b + [back], hc + [1] + hb + [0];
    LoopSize(c, exit, b, back);
    assert ins[..|c| + 1] == c + [exit];
    SizeSnoc(c, exit);
    LandsEnd(ins, hs, 0, |c|);
    assert HeightAt(hs, 0, |c| + 1) == 0;
  }

  lemma {:induction false} LoopBack(c: seq<Instr>, hc: seq<int>, exit: Instr, b: seq<Instr>, hb: seq<int>)
    requires exit == JumpIfFalse(Size(b) + 5) || exit == JumpIfTrue(Size(b) + 5)
    requires |hc| == |c| && |hb| == |b| && HeightAt(hc, 1, 0) == 0
    ensures var back := Jump(-(Size(c) + Size(b) + 10));
            FlowsAt(c + [exit] + b + [back], hc + [1] + hb + [0], 0, |c| + 1 + |b|)
  {
    var back := Jump(-(Size(c) + Size(b) + 10));
    var ins, hs := c + [exit] + b + [back], hc + [1] + hb + [0];
    LoopSize(c, exit, b, back);
    assert ins[..|ins|] == ins && |ins| == |c| + 1 + |b| + 1;
    assert ins[..0] == [];
    assert hs[0] == 0 by { LoopStart(hc, hs); }
    hide Size;
  }

  /** A body and the jump back to its start. */
  lemma {:induction false} FlowEndless(b: seq<Instr>, hb: seq<int>)
    requires Flow(b, hb, 0, 0)
    ensures Flow(b + [Jump(-(Size(b) + 5))], hb + [0], 0, 0)
  {
    var back := Jump(-(Size(b) + 5));
    var ins, hs := b + [back], hb + [0];
    EmbedAll([], b, [back], [], hb, [0], 0, 0, 0);
    assert [] + b + [back] == ins && [] + hb + [0] == hs;
    SizeSnoc(b, back);
    assert ins[..|ins|] == ins && ins[..0] == [];
    assert HeightAt(hs, 0, 0) == 0;
    hide Size;
    assert FlowsAt(ins, hs, 0, |b|);
  }
}
