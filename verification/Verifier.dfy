/**
 The bytecode verifier: one forward pass over a function that records the operand
 height at each position, checks it where paths meet, and checks every operand.
 It accepts exactly the functions that have a height certificate, and a
 certificate makes every run inside the function safe.
 */
module Verifier {
  import opened Values
  import opened Bytecode
  import opened Machine

  const MAX_CODE_LEN: nat := 65536
  const INTRINSIC_COUNT: nat := 9
  const UNKNOWN: int := -2

  // ----- The shape of a function -----

  /** Records as stored: 32-bit offsets and lengths. */
  predicate Fields(f: FuncRecord) { f.codeOffset < TWO_32 && f.codeLength < TWO_32 }

  /** The end of the function's code, computed in 32 bits. */
  function End(f: FuncRecord): nat { (f.codeOffset + f.codeLength) % TWO_32 }

  /** A whole known instruction before `end`. */
  predicate InstrAt(code: seq<Byte>, at: nat, end: nat) {
    at < end && end <= |code| && Decode(code, at).Some? && at + Decode(code, at).value.Size() <= end
  }

  /** The instruction starts from `at` on, up to the first that is unknown or cut off. */
  function Scan(code: seq<Byte>, at: nat, end: nat): (r: seq<nat>)
    ensures forall s :: s in r ==> at <= s && InstrAt(code, s, end)
    decreases end - at
  {
    if !InstrAt(code, at, end) then []
    else [at] + Scan(code, at + Decode(code, at).value.Size(), end)
  }

  /** Where that scan stops. */
  function ScanEnd(code: seq<Byte>, at: nat, end: nat): (r: nat)
    ensures r >= at
    decreases end - at
  {
    if !InstrAt(code, at, end) then at
    else ScanEnd(code, at + Decode(code, at).value.Size(), end)
  }

  predicate IsJump(i: Instr) { i.Jump? || i.JumpIfFalse? || i.JumpIfTrue? }

  /** Execution goes on to the next instruction. */
  predicate Falls(i: Instr) { !i.Jump? && !i.Halt? && !i.Return? }

  predicate Stops(i: Instr) { i.Halt? || i.Return? }

  function JumpTarget(i: Instr, at: nat): nat
    requires IsJump(i)
  {
    Target(at + i.Size(), i.offset)
  }

  /** Height after an instruction by the opcode table; a variable pop count takes nothing off. */
  function Post(i: Instr, h: int): int { h - i.PopCount() + i.PushCount() }

  predicate OperandsOk(img: Image, f: FuncRecord, i: Instr, at: nat) {
    match i
    case Const(k) => k < |img.constants|
    case LoadLocal(s) => s < f.localCount
    case StoreLocal(s) => s < f.localCount
    case Call(c, _) => c < |img.functions|
    case Intrinsic(id, _) => id < INTRINSIC_COUNT
    case Jump(_) => f.codeOffset <= JumpTarget(i, at) <= End(f)
    case JumpIfFalse(_) => f.codeOffset <= JumpTarget(i, at) <= End(f)
    case JumpIfTrue(_) => f.codeOffset <= JumpTarget(i, at) <= End(f)
    case _ => true
  }

  // ----- Certificates -----

  /** A jump at or before `s` leads to `x`. */
  ghost predicate JumpedTo(img: Image, starts: seq<nat>, s: nat, x: nat) {
    exists j :: j in starts && j <= s && JumpsTo(img, j, x)
  }

  predicate JumpsTo(img: Image, j: nat, x: nat) {
    j < |img.code| && Decode(img.code, j).Some? && IsJump(Decode(img.code, j).value) &&
    JumpTarget(Decode(img.code, j).value, j) == x
  }

  /** The instruction at `s` has sound operands, enough values, and agrees with the heights where it leads. */
  ghost predicate StartCertified(img: Image, f: FuncRecord, hs: seq<int>, starts: seq<nat>, s: nat)
    requires InstrAt(img.code, s, End(f)) && f.codeOffset <= s && |hs| == f.codeLength && End(f) == f.codeOffset + f.codeLength
  {
    var i := Decode(img.code, s).value;
    var h := hs[s - f.codeOffset];
    Checked(img, f, i, s, h) && Recorded(f, i, s, h, hs) && Continues(img, f, hs, starts, s, End(f))
  }

  predicate Checked(img: Image, f: FuncRecord, i: Instr, s: nat, h: int) {
    OperandsOk(img, f, i, s) && 0 <= h && i.PopCount() <= h
  }

  /** The height at a jump's target is the jump's. */
  predicate Recorded(f: FuncRecord, i: Instr, s: nat, h: int, hs: seq<int>)
    requires |hs| == f.codeLength && End(f) == f.codeOffset + f.codeLength
  {
    IsJump(i) && f.codeOffset <= JumpTarget(i, s) < End(f) ==> hs[JumpTarget(i, s) - f.codeOffset] == Post(i, h)
  }

  /** The height at the next instruction; after a transfer it is zero unless an earlier jump leads there. */
  ghost predicate Continues(img: Image, f: FuncRecord, hs: seq<int>, starts: seq<nat>, s: nat, limit: nat)
    requires InstrAt(img.code, s, End(f)) && f.codeOffset <= s && |hs| == f.codeLength && End(f) == f.codeOffset + f.codeLength
    requires limit <= End(f)
  {
    var i := Decode(img.code, s).value;
    var next := s + i.Size();
    next < limit ==>
      if Falls(i) then hs[next - f.codeOffset] == Post(i, hs[s - f.codeOffset])
      else hs[next - f.codeOffset] == 0 || JumpedTo(img, starts, s, next)
  }

  ghost predicate Certificate(img: Image, f: FuncRecord, hs: seq<int>) {
    && End(f) == f.codeOffset + f.codeLength && |hs| == f.codeLength && f.codeLength > 0 && hs[0] == 0
    && var starts := Scan(img.code, f.codeOffset, End(f));
       forall s :: s in starts ==> StartCertified(img, f, hs, starts, s)
  }

  /** The code is inside the image, is a sequence of whole known instructions, and halts or returns somewhere. */
  ghost predicate Shaped(img: Image, f: FuncRecord) {
    && f.codeOffset + f.codeLength < TWO_32 && f.codeOffset + f.codeLength <= |img.code|
    && ScanEnd(img.code, f.codeOffset, End(f)) == End(f)
    && exists s :: s in Scan(img.code, f.codeOffset, End(f)) && Stops(Decode(img.code, s).value)
  }

  ghost predicate Verifiable(img: Image, f: FuncRecord) {
    Shaped(img, f) && exists hs :: Certificate(img, f, hs)
  }

  // ----- The pass as a function -----

  function Int16(x: int): int { (x + 32768) % 65536 - 32768 }

  datatype Mark = Mark(ok: bool, hs: seq<int>, h: int)

  /** A recorded height must match; an unknown one is recorded. Without a table nothing is checked. */
  function Join(hs: seq<int>, rel: nat, h: int): (m: Mark)
    requires hs == [] || rel < |hs|
    ensures |m.hs| == |hs|
  {
    if hs == [] then Mark(true, hs, h)
    else if hs[rel] == UNKNOWN then Mark(true, hs[rel := Int16(h)], h)
    else Mark(hs[rel] == h, hs, hs[rel])
  }

  function Effect(i: Instr, h: int): (m: Mark) {
    if h < i.PopCount() then Mark(false, [], i.PushCount()) else Mark(true, [], Post(i, h))
  }

  /** The height after a jump is recorded, or checked, at its target. */
  function RecordJump(f: FuncRecord, i: Instr, at: nat, hs: seq<int>, post: int): (m: Mark)
    requires hs == [] || (|hs| == f.codeLength && End(f) == f.codeOffset + f.codeLength)
    ensures |m.hs| == |hs|
  {
    if hs != [] && IsJump(i) && f.codeOffset <= JumpTarget(i, at) < End(f) then
      var rel := JumpTarget(i, at) - f.codeOffset;
      if hs[rel] == UNKNOWN then Mark(true, hs[rel := Int16(post)], post) else Mark(hs[rel] == post, hs, post)
    else Mark(true, hs, post)
  }

  /** After a transfer the next height is the recorded one, or zero. */
  function NextHeight(f: FuncRecord, i: Instr, next: nat, hs: seq<int>, post: int): int
    requires f.codeOffset <= next && (hs == [] || |hs| == f.codeLength)
  {
    if Falls(i) || hs == [] || next - f.codeOffset >= |hs| then post
    else if hs[next - f.codeOffset] != UNKNOWN then hs[next - f.codeOffset]
    else 0
  }

  ghost predicate TableFits(img: Image, f: FuncRecord, hs: seq<int>, ip: nat) {
    && End(f) == f.codeOffset + f.codeLength <= |img.code| && f.codeOffset <= ip
    && (hs == [] || |hs| == f.codeLength)
  }

  function Turn(img: Image, f: FuncRecord, hs: seq<int>, ip: nat, h: int): (m: Mark)
    requires TableFits(img, f, hs, ip) && InstrAt(img.code, ip, End(f))
    ensures |m.hs| == |hs|
  {
    var i := Decode(img.code, ip).value;
    var j := Join(hs, ip - f.codeOffset, h);
    var e := Effect(i, j.h);
    var r := RecordJump(f, i, ip, j.hs, e.h);
    Mark(j.ok && OperandsOk(img, f, i, ip) && e.ok && r.ok, r.hs, NextHeight(f, i, ip + i.Size(), r.hs, e.h))
  }

  predicate Pass(img: Image, f: FuncRecord, hs: seq<int>, ip: nat, h: int)
    requires TableFits(img, f, hs, ip)
    decreases End(f) - ip
  {
    ip >= End(f) ||
    (InstrAt(img.code, ip, End(f)) &&
     var m := Turn(img, f, hs, ip, h);
     m.ok && Pass(img, f, m.hs, ip + Decode(img.code, ip).value.Size(), m.h))
  }

  /** The height table after the pass. */
  function FinalHeights(img: Image, f: FuncRecord, hs: seq<int>, ip: nat, h: int): seq<int>
    requires TableFits(img, f, hs, ip)
    decreases End(f) - ip
  {
    if !InstrAt(img.code, ip, End(f)) then hs
    else
      var m := Turn(img, f, hs, ip, h);
      FinalHeights(img, f, m.hs, ip + Decode(img.code, ip).value.Size(), m.h)
  }

  // ----- An accepted function has a certificate -----

  /** Entries once known stay. */
  predicate Extends(hs: seq<int>, more: seq<int>) {
    |hs| == |more| && forall x :: 0 <= x < |hs| && hs[x] != UNKNOWN ==> more[x] == hs[x]
  }

  /** A scanned instruction is certified by the heights so far. */
  ghost predicate Scanned(img: Image, f: FuncRecord, hs: seq<int>, starts: seq<nat>, s: nat, ip: nat)
    requires |hs| == f.codeLength && End(f) == f.codeOffset + f.codeLength && ip <= End(f)
  {
    f.codeOffset <= s && InstrAt(img.code, s, End(f)) && s + Decode(img.code, s).value.Size() <= ip &&
    var i := Decode(img.code, s).value;
    var h := hs[s - f.codeOffset];
    Checked(img, f, i, s, h) && Recorded(f, i, s, h, hs) && Continues(img, f, hs, starts, s, ip)
  }

  /** Where the height on arrival at `ip` comes from. */
  ghost predicate Arrives(img: Image, f: FuncRecord, hs: seq<int>, starts: seq<nat>, s: nat, ip: nat, h: int)
    requires |hs| == f.codeLength && End(f) == f.codeOffset + f.codeLength && f.codeOffset <= ip < End(f)
  {
    f.codeOffset <= s < ip && InstrAt(img.code, s, End(f)) &&
    var i := Decode(img.code, s).value;
    s + i.Size() == ip &&
    if Falls(i) then h == Post(i, hs[s - f.codeOffset])
    else (hs[ip - f.codeOffset] == UNKNOWN && h == 0) || (hs[ip - f.codeOffset] == h && JumpedTo(img, starts, s, ip))
  }

  /** A height recorded ahead is small and comes from an earlier jump. */
  ghost predicate Ahead(img: Image, f: FuncRecord, hs: seq<int>, done: seq<nat>, x: nat)
    requires |hs| == f.codeLength && f.codeOffset <= x < f.codeOffset + f.codeLength
  {
    hs[x - f.codeOffset] != UNKNOWN ==>
      0 <= hs[x - f.codeOffset] <= x - f.codeOffset && exists j :: j in done && JumpsTo(img, j, x)
  }

  ghost predicate PassInv(img: Image, f: FuncRecord, hs: seq<int>, done: seq<nat>, ip: nat, h: int) {
    && TableFits(img, f, hs, ip) && |hs| == f.codeLength && 0 < f.codeLength <= 32767 && ip <= End(f)
    && 0 <= h <= ip - f.codeOffset
    && (var starts := Scan(img.code, f.codeOffset, End(f));
        && starts == done + Scan(img.code, ip, End(f))
        && (forall s :: s in done ==> Scanned(img, f, hs, starts, s, ip))
        && (if done == [] then ip == f.codeOffset && h == 0 && hs[0] == UNKNOWN
            else hs[0] == 0 && (ip < End(f) ==> Arrives(img, f, hs, starts, done[|done| - 1], ip, h)))
        && (forall x: nat :: ip <= x < End(f) ==> Ahead(img, f, hs, done, x)))
  }

  /** Recording more heights keeps what is certified. */
  lemma {:induction false} ScannedStays(img: Image, f: FuncRecord, hs: seq<int>, more: seq<int>, starts: seq<nat>, s: nat, ip: nat)
    requires |hs| == f.codeLength && End(f) == f.codeOffset + f.codeLength && ip <= End(f)
    requires Scanned(img, f, hs, starts, s, ip) && Extends(hs, more)
    ensures Scanned(img, f, more, starts, s, ip)
  {
  }

  /** The heights after the join at `ip`. */
  lemma {:induction false} JoinKeeps(img: Image, f: FuncRecord, hs: seq<int>, done: seq<nat>, ip: nat, h: int)
    requires PassInv(img, f, hs, done, ip, h) && InstrAt(img.code, ip, End(f)) && Join(hs, ip - f.codeOffset, h).ok
    ensures var m := Join(hs, ip - f.codeOffset, h); var starts := Scan(img.code, f.codeOffset, End(f));
            && m.h == h && Extends(hs, m.hs) && m.hs[ip - f.codeOffset] == h && m.hs[0] == 0
            && (done != [] ==> Continues(img, f, m.hs, starts, done[|done| - 1], ip + 1))
            && forall x: nat :: ip < x < End(f) ==> Ahead(img, f, m.hs, done, x)
  {
    hide Decode; hide Target; hide Int16; hide Checked; hide Recorded;
    SmallInt16(h);
    var m := Join(hs, ip - f.codeOffset, h);
    var starts := Scan(img.code, f.codeOffset, End(f));
    if done != [] {
      var s := done[|done| - 1];
      assert Scanned(img, f, hs, starts, s, ip) && Arrives(img, f, hs, starts, s, ip, h);
    }
    forall x: nat | ip < x < End(f) ensures Ahead(img, f, m.hs, done, x) {
      assert Ahead(img, f, hs, done, x);
    }
  }

  /** An entry that changed is the target of the jump at `ip`. */
  predicate OnlyJump(img: Image, f: FuncRecord, hs: seq<int>, more: seq<int>, ip: nat, post: int, x: nat)
    requires |hs| == |more| == f.codeLength && f.codeOffset <= x < f.codeOffset + f.codeLength
  {
    more[x - f.codeOffset] != hs[x - f.codeOffset] ==> more[x - f.codeOffset] == post && JumpsTo(img, ip, x)
  }

  /** Recording the jump at `ip`: its own entry and its target's. */
  lemma {:induction false} RecordKeeps(img: Image, f: FuncRecord, hs: seq<int>, ip: nat, h: int)
    requires TableFits(img, f, hs, ip) && |hs| == f.codeLength && 0 < f.codeLength <= 32767 && InstrAt(img.code, ip, End(f))
    requires hs[ip - f.codeOffset] == h && 0 <= h <= ip - f.codeOffset
    requires var i := Decode(img.code, ip).value; Effect(i, h).ok && RecordJump(f, i, ip, hs, Post(i, h)).ok
    ensures var i := Decode(img.code, ip).value; var m := RecordJump(f, i, ip, hs, Post(i, h)); var starts := Scan(img.code, f.codeOffset, End(f));
            && Extends(hs, m.hs) && Recorded(f, i, ip, h, m.hs) && 0 <= Post(i, h) <= ip + i.Size() - f.codeOffset
            && forall x: nat :: f.codeOffset <= x < End(f) ==> OnlyJump(img, f, hs, m.hs, ip, Post(i, h), x)
  {
    hide Decode; hide Target; hide Int16; hide End;
    var i := Decode(img.code, ip).value;
    SmallEffect(i);
    SmallInt16(Post(i, h));
  }

  lemma SmallInt16(x: int)
    ensures -32768 <= x <= 32767 ==> Int16(x) == x
  {
  }

  lemma SmallEffect(i: Instr)
    ensures i.PushCount() - i.PopCount() <= 1 <= i.Size()
  {
  }

  /** A turn without errors certifies its instruction. */
  lemma {:induction false} TurnKeeps(img: Image, f: FuncRecord, hs: seq<int>, done: seq<nat>, ip: nat, h: int)
    requires PassInv(img, f, hs, done, ip, h) && InstrAt(img.code, ip, End(f)) && Turn(img, f, hs, ip, h).ok
    ensures var m := Turn(img, f, hs, ip, h);
            PassInv(img, f, m.hs, done + [ip], ip + Decode(img.code, ip).value.Size(), m.h)
  {
    hide Decode; hide Int16; hide Join; hide RecordJump; hide Scanned; hide OperandsOk; hide Continues; hide JumpsTo; hide Ahead; hide Arrives; hide Recorded;
    var i := Decode(img.code, ip).value;
    var next := ip + i.Size();
    var starts := Scan(img.code, f.codeOffset, End(f));
    var j := Join(hs, ip - f.codeOffset, h);
    DoneBefore(img, f, hs, done, ip, h);
    JoinKeeps(img, f, hs, done, ip, h);
    RecordKeeps(img, f, j.hs, ip, h);
    var r := RecordJump(f, i, ip, j.hs, Post(i, h));
    var m := Turn(img, f, hs, ip, h);
    assert m.hs == r.hs;
    ExtendsThen(hs, j.hs, r.hs);
    assert starts == done + [ip] + Scan(img.code, next, End(f));
    assert ip in starts;
    TurnScanned(img, f, hs, j.hs, m.hs, done, ip, h);
    TurnAhead(img, f, j.hs, m.hs, done, ip, Post(i, h));
    if next < End(f) {
      assert Ahead(img, f, m.hs, done + [ip], next);
      ArrivesNext(img, f, m.hs, starts, done + [ip], ip, h);
    }
  }

  lemma {:induction false} TurnScanned(img: Image, f: FuncRecord, hs: seq<int>, joined: seq<int>, more: seq<int>, done: seq<nat>,
                                       ip: nat, h: int)
    requires PassInv(img, f, hs, done, ip, h) && InstrAt(img.code, ip, End(f))
    requires Extends(hs, joined) && Extends(joined, more) && joined[ip - f.codeOffset] == h
    requires done != [] ==> Continues(img, f, joined, Scan(img.code, f.codeOffset, End(f)), done[|done| - 1], ip + 1)
    requires var i := Decode(img.code, ip).value; Checked(img, f, i, ip, h) && Recorded(f, i, ip, h, more)
    ensures var starts := Scan(img.code, f.codeOffset, End(f)); var next := ip + Decode(img.code, ip).value.Size();
            forall s :: s in done + [ip] ==> Scanned(img, f, more, starts, s, next)
  {
    hide Scanned; hide Continues; hide Recorded; hide Checked; hide Arrives; hide Ahead;
    var starts := Scan(img.code, f.codeOffset, End(f));
    var next := ip + Decode(img.code, ip).value.Size();
    forall s | s in done + [ip] ensures Scanned(img, f, more, starts, s, next) {
      if s in done {
        assert Scanned(img, f, hs, starts, s, ip);
        ScannedFurther(img, f, hs, joined, done, s, ip, h);
        ScannedStays(img, f, joined, more, starts, s, ip + 1);
        ScannedLater(img, f, hs, more, starts, s, ip, next);
      } else {
        ScannedNew(img, f, more, starts, ip, h);
      }
    }
  }

  lemma {:induction false} TurnAhead(img: Image, f: FuncRecord, hs: seq<int>, more: seq<int>, done: seq<nat>, ip: nat, post: int)
    requires |hs| == |more| == f.codeLength && End(f) == f.codeOffset + f.codeLength && InstrAt(img.code, ip, End(f)) && f.codeOffset <= ip
    requires 0 <= post <= ip + Decode(img.code, ip).value.Size() - f.codeOffset
    requires forall x: nat :: ip < x < End(f) ==> Ahead(img, f, hs, done, x)
    requires forall x: nat :: f.codeOffset <= x < End(f) ==> OnlyJump(img, f, hs, more, ip, post, x)
    ensures var next := ip + Decode(img.code, ip).value.Size();
            forall x: nat :: next <= x < End(f) ==> Ahead(img, f, more, done + [ip], x)
  {
    hide Ahead; hide OnlyJump;
    var next := ip + Decode(img.code, ip).value.Size();
    forall x: nat | next <= x < End(f) ensures Ahead(img, f, more, done + [ip], x) {
      assert OnlyJump(img, f, hs, more, ip, post, x);
      AheadStays(img, f, hs, more, done, ip, x, post);
    }
  }

  lemma DoneBefore(img: Image, f: FuncRecord, hs: seq<int>, done: seq<nat>, ip: nat, h: int)
    requires PassInv(img, f, hs, done, ip, h)
    ensures forall j :: j in done ==> j in Scan(img.code, f.codeOffset, End(f)) && j < ip
  {
    forall j | j in done ensures j < ip {
      assert Scanned(img, f, hs, Scan(img.code, f.codeOffset, End(f)), j, ip);
    }
  }

  lemma ExtendsThen(a: seq<int>, b: seq<int>, c: seq<int>)
    requires Extends(a, b) && Extends(b, c)
    ensures Extends(a, c)
  {
  }

  /** The join certifies what the instruction before `ip` leads to. */
  lemma {:induction false} ScannedFurther(img: Image, f: FuncRecord, hs: seq<int>, more: seq<int>, done: seq<nat>, s: nat, ip: nat, h: int)
    requires PassInv(img, f, hs, done, ip, h) && ip < End(f) && s in done && Extends(hs, more)
    requires done != [] ==> Continues(img, f, more, Scan(img.code, f.codeOffset, End(f)), done[|done| - 1], ip + 1)
    ensures Scanned(img, f, more, Scan(img.code, f.codeOffset, End(f)), s, ip + 1)
  {
    var starts := Scan(img.code, f.codeOffset, End(f));
    assert Scanned(img, f, hs, starts, s, ip);
    ScannedStays(img, f, hs, more, starts, s, ip);
    var next := s + Decode(img.code, s).value.Size();
    if next == ip {
      var last := done[|done| - 1];
      assert Arrives(img, f, hs, starts, last, ip, h);
      OneBefore(img.code, f.codeOffset, End(f), s, last, ip);
    }
  }

  /** Two scanned instructions that end at the same place are the same. */
  lemma {:induction false} OneBefore(code: seq<Byte>, at: nat, end: nat, s: nat, t: nat, x: nat)
    requires s in Scan(code, at, end) && t in Scan(code, at, end)
    requires s + Decode(code, s).value.Size() == x && t + Decode(code, t).value.Size() == x
    ensures s == t
    decreases end - at
  {
    var next := at + Decode(code, at).value.Size();
    if s != at && t != at {
      OneBefore(code, next, end, s, t, x);
    }
  }

  /** No scanned instruction before `ip` leads strictly between `ip` and the next. */
  lemma ScannedLater(img: Image, f: FuncRecord, hs: seq<int>, more: seq<int>, starts: seq<nat>, s: nat, ip: nat, next: nat)
    requires |hs| == |more| == f.codeLength && End(f) == f.codeOffset + f.codeLength && ip < next <= End(f)
    requires Scanned(img, f, hs, starts, s, ip) && Scanned(img, f, more, starts, s, ip + 1)
    ensures Scanned(img, f, more, starts, s, next)
  {
  }

  lemma ScannedNew(img: Image, f: FuncRecord, hs: seq<int>, starts: seq<nat>, ip: nat, h: int)
    requires |hs| == f.codeLength && End(f) == f.codeOffset + f.codeLength && f.codeOffset <= ip && InstrAt(img.code, ip, End(f))
    requires hs[ip - f.codeOffset] == h
    requires var i := Decode(img.code, ip).value; Checked(img, f, i, ip, h) && Recorded(f, i, ip, h, hs)
    ensures Scanned(img, f, hs, starts, ip, ip + Decode(img.code, ip).value.Size())
  {
  }

  lemma AheadStays(img: Image, f: FuncRecord, hs: seq<int>, more: seq<int>, done: seq<nat>, ip: nat, x: nat, post: int)
    requires |hs| == |more| == f.codeLength && End(f) == f.codeOffset + f.codeLength && InstrAt(img.code, ip, End(f)) && f.codeOffset <= ip
    requires ip + Decode(img.code, ip).value.Size() <= x < End(f) && Ahead(img, f, hs, done, x)
    requires 0 <= post <= ip + Decode(img.code, ip).value.Size() - f.codeOffset
    requires OnlyJump(img, f, hs, more, ip, post, x)
    ensures Ahead(img, f, more, done + [ip], x)
  {
    assert ip in done + [ip];
  }

  lemma {:induction false} ArrivesNext(img: Image, f: FuncRecord, hs: seq<int>, starts: seq<nat>, done: seq<nat>, ip: nat, h: int)
    requires |hs| == f.codeLength && End(f) == f.codeOffset + f.codeLength && f.codeOffset <= ip && InstrAt(img.code, ip, End(f))
    requires hs[ip - f.codeOffset] == h && forall j :: j in done ==> j in starts && j <= ip
    requires var next := ip + Decode(img.code, ip).value.Size(); next < End(f) && Ahead(img, f, hs, done, next)
    ensures var i := Decode(img.code, ip).value; var next := ip + i.Size();
            Arrives(img, f, hs, starts, ip, next, NextHeight(f, i, next, hs, Post(i, h)))
    ensures var i := Decode(img.code, ip).value; var next := ip + i.Size();
            !Falls(i) ==> 0 <= NextHeight(f, i, next, hs, Post(i, h)) <= next - f.codeOffset
  {
    hide JumpsTo; hide Decode;
  }

  lemma {:induction false} PassSound(img: Image, f: FuncRecord, hs: seq<int>, done: seq<nat>, ip: nat, h: int)
    requires PassInv(img, f, hs, done, ip, h) && Pass(img, f, hs, ip, h)
    ensures Certificate(img, f, FinalHeights(img, f, hs, ip, h)) && ScanEnd(img.code, ip, End(f)) == End(f)
    decreases End(f) - ip
  {
    hide Turn; hide Scanned; hide Arrives; hide Ahead;
    if ip < End(f) {
      TurnKeeps(img, f, hs, done, ip, h);
      var m := Turn(img, f, hs, ip, h);
      PassSound(img, f, m.hs, done + [ip], ip + Decode(img.code, ip).value.Size(), m.h);
    } else {
      AllScanned(img, f, hs, done, ip, h);
    }
  }

  lemma AllScanned(img: Image, f: FuncRecord, hs: seq<int>, done: seq<nat>, ip: nat, h: int)
    requires PassInv(img, f, hs, done, ip, h) && ip == End(f)
    ensures Certificate(img, f, hs)
  {
    var starts := Scan(img.code, f.codeOffset, End(f));
    assert starts == done;
    forall s | s in starts ensures StartCertified(img, f, hs, starts, s) {
      assert Scanned(img, f, hs, starts, s, ip);
    }
  }

  // ----- A function with a certificate is accepted -----

  /** What is recorded agrees with a certificate. */
  predicate Agrees(hs: seq<int>, cs: seq<int>) {
    |hs| == |cs| && forall x :: 0 <= x < |hs| && hs[x] != UNKNOWN ==> hs[x] == cs[x]
  }

  /** The jump at `s` has recorded its target. */
  predicate TargetKnown(img: Image, f: FuncRecord, hs: seq<int>, s: nat)
    requires |hs| == f.codeLength && End(f) == f.codeOffset + f.codeLength
  {
    s < |img.code| && Decode(img.code, s).Some? &&
    var i := Decode(img.code, s).value;
    IsJump(i) && f.codeOffset <= JumpTarget(i, s) < End(f) ==> hs[JumpTarget(i, s) - f.codeOffset] != UNKNOWN
  }

  /** The pass so far, next to a certificate. */
  ghost predicate BesideCertificate(img: Image, f: FuncRecord, hs: seq<int>, done: seq<nat>, ip: nat, h: int, cs: seq<int>) {
    && PassInv(img, f, hs, done, ip, h) && Certificate(img, f, cs) && Agrees(hs, cs)
    && (forall s :: s in done ==> TargetKnown(img, f, hs, s))
    && (ip < End(f) ==> h == cs[ip - f.codeOffset])
  }

  /** Next to a certificate no check of a turn fails. */
  lemma {:induction false} TurnSucceeds(img: Image, f: FuncRecord, hs: seq<int>, done: seq<nat>, ip: nat, h: int, cs: seq<int>)
    requires BesideCertificate(img, f, hs, done, ip, h, cs) && InstrAt(img.code, ip, End(f))
    ensures var m := Turn(img, f, hs, ip, h);
            m.ok && BesideCertificate(img, f, m.hs, done + [ip], ip + Decode(img.code, ip).value.Size(), m.h, cs)
  {
    hide Decode; hide Int16; hide Target; hide Scanned; hide OperandsOk; hide JumpsTo; hide Ahead; hide Arrives; hide PassInv;
    hide TargetKnown; hide Certificate;
    var i := Decode(img.code, ip).value;
    var starts := Scan(img.code, f.codeOffset, End(f));
    PassFacts(img, f, hs, done, ip, h);
    CertificateAt(img, f, cs, done, ip);
    SmallEffect(i);
    SmallInt16(h);
    SmallInt16(Post(i, h));
    var m := Turn(img, f, hs, ip, h);
    TargetRecorded(img, f, hs, ip, h, cs);
    TurnKeeps(img, f, hs, done, ip, h);
    forall s | s in done + [ip] ensures TargetKnown(img, f, m.hs, s) {
      if s in done {
        KnownStays(img, f, hs, m.hs, s);
      }
    }
    if ip + i.Size() < End(f) {
      StartsUpTo(img.code, f, done, ip);
      NextAgrees(img, f, m.hs, done + [ip], ip, h, cs);
    }
  }

  lemma StartsUpTo(code: seq<Byte>, f: FuncRecord, done: seq<nat>, ip: nat)
    requires InstrAt(code, ip, End(f)) && Scan(code, f.codeOffset, End(f)) == done + Scan(code, ip, End(f))
    ensures forall s :: s in Scan(code, f.codeOffset, End(f)) && s <= ip ==> s in done + [ip]
  {
    ScanHead(code, ip, End(f));
    hide Scan; hide End; hide Decode;
  }

  lemma ScanHead(code: seq<Byte>, ip: nat, end: nat)
    requires InstrAt(code, ip, end)
    ensures forall s :: s in Scan(code, ip, end) && s <= ip ==> s == ip
  {
    hide Decode;
    var next := ip + Decode(code, ip).value.Size();
    assert Scan(code, ip, end) == [ip] + Scan(code, next, end);
  }

  lemma PassFacts(img: Image, f: FuncRecord, hs: seq<int>, done: seq<nat>, ip: nat, h: int)
    requires PassInv(img, f, hs, done, ip, h)
    ensures TableFits(img, f, hs, ip) && |hs| == f.codeLength && 0 < f.codeLength <= 32767 && 0 <= h <= ip - f.codeOffset
    ensures Scan(img.code, f.codeOffset, End(f)) == done + Scan(img.code, ip, End(f)) && ip <= End(f)
  {
  }

  lemma CertificateAt(img: Image, f: FuncRecord, cs: seq<int>, done: seq<nat>, ip: nat)
    requires Certificate(img, f, cs) && InstrAt(img.code, ip, End(f)) && f.codeOffset <= ip
    requires Scan(img.code, f.codeOffset, End(f)) == done + Scan(img.code, ip, End(f))
    ensures StartCertified(img, f, cs, Scan(img.code, f.codeOffset, End(f)), ip)
  {
    assert ip in Scan(img.code, ip, End(f));
  }

  lemma {:induction false} TargetRecorded(img: Image, f: FuncRecord, hs: seq<int>, ip: nat, h: int, cs: seq<int>)
    requires TableFits(img, f, hs, ip) && |hs| == |cs| == f.codeLength && 0 < f.codeLength <= 32767 && InstrAt(img.code, ip, End(f))
    requires 0 <= h <= ip - f.codeOffset && Agrees(hs, cs) && h == cs[ip - f.codeOffset]
    requires var i := Decode(img.code, ip).value; Checked(img, f, i, ip, h) && Recorded(f, i, ip, h, cs)
    ensures var m := Turn(img, f, hs, ip, h); m.ok && Agrees(m.hs, cs) && Extends(hs, m.hs) && TargetKnown(img, f, m.hs, ip)
  {
    hide Decode; hide Int16; hide Target; hide OperandsOk; hide End;
    var i := Decode(img.code, ip).value;
    SmallEffect(i);
    SmallInt16(h);
    SmallInt16(Post(i, h));
  }

  lemma KnownStays(img: Image, f: FuncRecord, hs: seq<int>, more: seq<int>, s: nat)
    requires |hs| == f.codeLength && End(f) == f.codeOffset + f.codeLength
    requires Extends(hs, more) && TargetKnown(img, f, hs, s)
    ensures TargetKnown(img, f, more, s)
  {
  }

  /** The height carried to the next instruction is the certificate's. */
  lemma {:induction false} NextAgrees(img: Image, f: FuncRecord, hs: seq<int>, done: seq<nat>, ip: nat, h: int, cs: seq<int>)
    requires TableFits(img, f, hs, ip) && |hs| == |cs| == f.codeLength && InstrAt(img.code, ip, End(f)) && Agrees(hs, cs)
    requires (forall s :: s in done ==> TargetKnown(img, f, hs, s)) && h == cs[ip - f.codeOffset]
    requires forall s :: s in Scan(img.code, f.codeOffset, End(f)) && s <= ip ==> s in done
    requires Continues(img, f, cs, Scan(img.code, f.codeOffset, End(f)), ip, End(f))
    requires ip + Decode(img.code, ip).value.Size() < End(f)
    ensures var i := Decode(img.code, ip).value; var next := ip + i.Size();
            NextHeight(f, i, next, hs, Post(i, h)) == cs[next - f.codeOffset]
  {
    hide Decode; hide Target; hide Scan;
    var i := Decode(img.code, ip).value;
    var next := ip + i.Size();
    var starts := Scan(img.code, f.codeOffset, End(f));
    if JumpedTo(img, starts, ip, next) {
      JumpRecorded(img, f, hs, starts, done, ip, next);
    }
  }

  lemma JumpRecorded(img: Image, f: FuncRecord, hs: seq<int>, starts: seq<nat>, done: seq<nat>, ip: nat, x: nat)
    requires |hs| == f.codeLength && End(f) == f.codeOffset + f.codeLength && f.codeOffset <= x < End(f)
    requires (forall s :: s in done ==> TargetKnown(img, f, hs, s)) && (forall s :: s in starts && s <= ip ==> s in done)
    requires JumpedTo(img, starts, ip, x)
    ensures hs[x - f.codeOffset] != UNKNOWN
  {
    var j :| j in starts && j <= ip && JumpsTo(img, j, x);
    assert TargetKnown(img, f, hs, j);
  }

  lemma {:induction false} PassComplete(img: Image, f: FuncRecord, hs: seq<int>, done: seq<nat>, ip: nat, h: int, cs: seq<int>)
    requires BesideCertificate(img, f, hs, done, ip, h, cs) && ScanEnd(img.code, ip, End(f)) == End(f)
    ensures Pass(img, f, hs, ip, h)
    decreases End(f) - ip
  {
    hide Turn; hide Certificate; hide PassInv; hide Agrees; hide TargetKnown;
    PassFacts(img, f, hs, done, ip, h);
    if ip < End(f) {
      TurnSucceeds(img, f, hs, done, ip, h, cs);
      var m := Turn(img, f, hs, ip, h);
      PassComplete(img, f, m.hs, done + [ip], ip + Decode(img.code, ip).value.Size(), m.h, cs);
    }
  }

  function Unknowns(n: nat): (r: seq<int>)
    ensures |r| == n && forall x :: 0 <= x < n ==> r[x] == UNKNOWN
  {
    seq(n, _ => UNKNOWN)
  }

  lemma {:induction false} StartInv(img: Image, f: FuncRecord)
    requires TableFits(img, f, Unknowns(f.codeLength), f.codeOffset) && 0 < f.codeLength <= 32767
    ensures PassInv(img, f, Unknowns(f.codeLength), [], f.codeOffset, 0)
  {
    assert [] + Scan(img.code, f.codeOffset, End(f)) == Scan(img.code, f.codeOffset, End(f));
  }

  /** For functions of at most 32767 bytes the pass succeeds exactly when there is a certificate. */
  lemma {:induction false} PassExact(img: Image, f: FuncRecord)
    requires TableFits(img, f, Unknowns(f.codeLength), f.codeOffset) && 0 < f.codeLength <= 32767
    ensures Pass(img, f, Unknowns(f.codeLength), f.codeOffset, 0) <==>
            ScanEnd(img.code, f.codeOffset, End(f)) == End(f) && exists cs :: Certificate(img, f, cs)
  {
    hide Pass; hide Certificate;
    var hs := Unknowns(f.codeLength);
    StartInv(img, f);
    if Pass(img, f, hs, f.codeOffset, 0) {
      PassSound(img, f, hs, [], f.codeOffset, 0);
    }
    if ScanEnd(img.code, f.codeOffset, End(f)) == End(f) && exists cs :: Certificate(img, f, cs) {
      var cs :| Certificate(img, f, cs);
      CertificateStart(img, f, cs);
      PassComplete(img, f, hs, [], f.codeOffset, 0, cs);
    }
  }

  lemma CertificateStart(img: Image, f: FuncRecord, cs: seq<int>)
    requires Certificate(img, f, cs)
    ensures |cs| == f.codeLength > 0 && cs[0] == 0 && End(f) == f.codeOffset + f.codeLength
  {
  }

  // ----- The pass as it runs -----

  /** Checks the operands of the instruction whose operand bytes start at `ip`. */
  method VerifyOperands(img: Image, f: FuncRecord, op: Byte, ip: nat) returns (ok: bool)
    requires 0 < ip <= |img.code| && op == img.code[ip - 1] && Decode(img.code, ip - 1).Some?
    ensures ok <==> OperandsOk(img, f, Decode(img.code, ip - 1).value, ip - 1)
  {
    ok := true;
    if op == OP_CONST {
      var idx := ReadU16(img.code, ip);
      ok := idx < |img.constants|;
    } else if op == OP_LOAD_LOCAL || op == OP_STORE_LOCAL {
      var slot := ReadU16(img.code, ip);
      ok := slot < f.localCount;
    } else if op == OP_CALL {
      var idx := ReadU16(img.code, ip);
      ok := idx < |img.functions|;
    } else if op == OP_INTRINSIC {
      var idx := ReadU16(img.code, ip);
      ok := idx < INTRINSIC_COUNT;
    } else if op == OP_JUMP || op == OP_JUMP_IF_FALSE || op == OP_JUMP_IF_TRUE {
      var target := Target(ip + 4, ReadI32(img.code, ip));
      ok := f.codeOffset <= target <= End(f);
    }
  }

  /** Records or checks the height at a jump's target, and finds the height to go on with. */
  method RecordJumpHeights(img: Image, f: FuncRecord, heights: array<int>, op: Byte, ip: nat, h: int, opBytes: nat)
      returns (ok: bool, out: int)
    requires heights.Length == f.codeLength > 0 && End(f) == f.codeOffset + f.codeLength <= |img.code|
    requires f.codeOffset < ip <= |img.code| && op == img.code[ip - 1] && Decode(img.code, ip - 1).Some? && opBytes == OperandBytes(op)
    modifies heights
    ensures var i := Decode(img.code, ip - 1).value; var m := RecordJump(f, i, ip - 1, old(heights[..]), h);
            heights[..] == m.hs && ok == m.ok && out == NextHeight(f, i, ip - 1 + i.Size(), m.hs, h)
  {
    ghost var i := Decode(img.code, ip - 1).value;
    InstrTable(i);
    ok := true;
    if op == OP_JUMP || op == OP_JUMP_IF_FALSE || op == OP_JUMP_IF_TRUE {
      var target := Target(ip + 4, ReadI32(img.code, ip));
      if f.codeOffset <= target < End(f) {
        var rel := target - f.codeOffset;
        if heights[rel] == UNKNOWN {
          heights[rel] := Int16(h);
        } else if heights[rel] != h {
          ok := false;
        }
      }
    }
    out := h;
    if op == OP_JUMP || op == OP_HALT || op == OP_RETURN {
      var next := ip + opBytes - f.codeOffset;
      if next < f.codeLength {
        out := if heights[next] != UNKNOWN then heights[next] else 0;
      }
    }
  }

  /** One turn of the pass. */
  method VerifyInstr(img: Image, f: FuncRecord, heights: array<int>, ip: nat, h: int) returns (ok: bool, next: nat, out: int)
    requires TableFits(img, f, heights[..], ip) && InstrAt(img.code, ip, End(f))
    modifies heights
    ensures var m := Turn(img, f, old(heights[..]), ip, h);
            heights[..] == m.hs && ok == m.ok && out == m.h && next == ip + Decode(img.code, ip).value.Size()
  {
    hide Decode; hide Target; hide Int16; hide OpcodeBinary; hide OpcodeUnary; hide OperandBytes; hide Pops; hide Pushes;
    hide OperandsOk; hide Instr.Size; hide Instr.PopCount; hide Instr.PushCount; hide Instr.Opcode;
    ghost var i := Decode(img.code, ip).value;
    DecodedBytes(img.code, ip);
    var height := h;
    ok := true;
    var rel := ip - f.codeOffset;
    if heights.Length > 0 {
      if heights[rel] == UNKNOWN {
        heights[rel] := Int16(height);
      } else if heights[rel] != height {
        ok := false;
        height := heights[rel];
      }
    }
    ghost var joined := heights[..];
    assert Join(old(heights[..]), rel, h) == Mark(ok, joined, height);
    var op := img.code[ip];
    var opBytes := OperandBytes(op);
    var sound := VerifyOperands(img, f, op, ip + 1);
    var pops, pushes := Pops(op), Pushes(op);
    if pops >= 0 { height := height - pops; }
    if height < 0 {
      ok := false;
      height := 0;
    }
    if pushes >= 0 { height := height + pushes; }
    out := height;
    var recorded := true;
    if heights.Length > 0 {
      recorded, out := RecordJumpHeights(img, f, heights, op, ip + 1, height, opBytes);
    }
    ok := ok && sound && recorded;
    next := ip + 1 + opBytes;
  }

  lemma DecodedBytes(code: seq<Byte>, at: nat)
    requires at < |code| && Decode(code, at).Some?
    ensures var i := Decode(code, at).value;
            i.Opcode() == code[at] && i.Size() == 1 + OperandBytes(code[at]) && i.PushCount() == Pushes(code[at]) >= 0
    ensures Decode(code, at).value.PopCount() == if Pops(code[at]) > 0 then Pops(code[at]) else 0
  {
    InstrTable(Decode(code, at).value);
  }

  /** Whether some scanned instruction from `ip` on halts or returns. */
  predicate HasStop(code: seq<Byte>, ip: nat, end: nat) {
    exists s :: s in Scan(code, ip, end) && Stops(Decode(code, s).value)
  }

  /** What the pass over one function decides; beyond MAX_CODE_LEN no heights are kept. */
  predicate Accepts(img: Image, f: FuncRecord)
    requires Fields(f) && |img.code| < TWO_32
  {
    f.codeOffset + f.codeLength <= |img.code| &&
    Pass(img, f, Unknowns(if f.codeLength <= MAX_CODE_LEN then f.codeLength else 0), f.codeOffset, 0) &&
    HasStop(img.code, f.codeOffset, End(f))
  }

  lemma {:induction false} StopStep(code: seq<Byte>, ip: nat, end: nat)
    requires InstrAt(code, ip, end)
    ensures HasStop(code, ip, end) <==>
            Stops(Decode(code, ip).value) || HasStop(code, ip + Decode(code, ip).value.Size(), end)
  {
    var next := ip + Decode(code, ip).value.Size();
    assert Scan(code, ip, end) == [ip] + Scan(code, next, end);
    assert ip in Scan(code, ip, end);
    if HasStop(code, next, end) {
      var s :| s in Scan(code, next, end) && Stops(Decode(code, s).value);
      assert s in Scan(code, ip, end);
    }
  }

  method VerifyFunction(img: Image, f: FuncRecord) returns (valid: bool)
    requires Fields(f) && |img.code| < TWO_32
    ensures valid <==> Accepts(img, f)
  {
    hide Decode; hide Turn; hide HasStop; hide Pass; hide Scan;
    if (f.codeOffset + f.codeLength) % TWO_32 > |img.code| {
      return false;
    }
    var end := (f.codeOffset + f.codeLength) % TWO_32;
    if f.codeOffset + f.codeLength >= TWO_32 {
      NothingScanned(img.code, f.codeOffset, end);
      return false;
    }
    var tracked := if f.codeLength <= MAX_CODE_LEN then f.codeLength else 0;
    var heights := new int[tracked](_ => UNKNOWN);
    assert heights[..] == Unknowns(tracked);
    var ip, h, stops := f.codeOffset, 0, false;
    valid := true;
    while ip < end
      invariant TableFits(img, f, heights[..], ip)
      invariant valid ==> Pass(img, f, Unknowns(tracked), f.codeOffset, 0) == Pass(img, f, heights[..], ip, h)
      invariant !valid ==> !Pass(img, f, Unknowns(tracked), f.codeOffset, 0)
      invariant HasStop(img.code, f.codeOffset, end) == (stops || HasStop(img.code, ip, end))
      decreases end - ip
    {
      PassStep(img, f, heights[..], ip, h);
      var op := img.code[ip];
      if OperandBytes(op) < 0 || ip + 1 + OperandBytes(op) > end {
        NotWhole(img.code, ip, end);
        return false;
      }
      WholeInstr(img.code, ip, end);
      StopStep(img.code, ip, end);
      if op == OP_HALT || op == OP_RETURN { stops := true; }
      var ok;
      ok, ip, h := VerifyInstr(img, f, heights, ip, h);
      if !ok { valid := false; }
    }
    PassStep(img, f, heights[..], ip, h);
    NothingScanned(img.code, ip, end);
    if !stops { valid := false; }
  }

  lemma NothingScanned(code: seq<Byte>, ip: nat, end: nat)
    requires ip >= end
    ensures !HasStop(code, ip, end)
  {
  }

  lemma PassStep(img: Image, f: FuncRecord, hs: seq<int>, ip: nat, h: int)
    requires TableFits(img, f, hs, ip)
    ensures ip >= End(f) ==> Pass(img, f, hs, ip, h)
    ensures ip < End(f) && !InstrAt(img.code, ip, End(f)) ==> !Pass(img, f, hs, ip, h)
    ensures InstrAt(img.code, ip, End(f)) ==>
              var m := Turn(img, f, hs, ip, h);
              Pass(img, f, hs, ip, h) == (m.ok && Pass(img, f, m.hs, ip + Decode(img.code, ip).value.Size(), m.h))
  {
  }

  lemma NotWhole(code: seq<Byte>, ip: nat, end: nat)
    requires ip < end <= |code| && (OperandBytes(code[ip]) < 0 || ip + 1 + OperandBytes(code[ip]) > end)
    ensures !InstrAt(code, ip, end)
  {
    if Decode(code, ip).Some? {
      DecodedBytes(code, ip);
    }
  }

  lemma WholeInstr(code: seq<Byte>, ip: nat, end: nat)
    requires ip < end <= |code| && OperandBytes(code[ip]) >= 0 && ip + 1 + OperandBytes(code[ip]) <= end
    ensures InstrAt(code, ip, end) && Stops(Decode(code, ip).value) == (code[ip] == OP_HALT || code[ip] == OP_RETURN)
  {
    DecodedBytes(code, ip);
  }

  /** The verifier's verdict on a whole image. */
  ghost predicate AllAccepted(img: Image)
    requires |img.code| < TWO_32 && forall k :: 0 <= k < |img.functions| ==> Fields(img.functions[k])
  {
    img.functions != [] && forall k :: 0 <= k < |img.functions| ==> Accepts(img, img.functions[k])
  }

  /** An image is valid when it has functions and each is accepted. */
  method VerifyImage(img: Image) returns (valid: bool)
    requires |img.code| < TWO_32 && forall k :: 0 <= k < |img.functions| ==> Fields(img.functions[k])
    ensures valid <==> AllAccepted(img)
  {
    if |img.functions| == 0 {
      return false;
    }
    valid := true;
    var fi := 0;
    while fi < |img.functions|
      invariant 0 <= fi <= |img.functions|
      invariant valid <==> forall k :: 0 <= k < fi ==> Accepts(img, img.functions[k])
    {
      var ok := VerifyFunction(img, img.functions[fi]);
      if !ok { valid := false; }
      fi := fi + 1;
    }
  }

  /** Acceptance of a function of at most 32767 bytes is exactly having a shape and a height certificate. */
  lemma {:induction false} AcceptsExact(img: Image, f: FuncRecord)
    requires Fields(f) && |img.code| < TWO_32 && f.codeLength <= 32767
    ensures Accepts(img, f) <==> Verifiable(img, f)
  {
    hide Pass; hide Certificate;
    if f.codeOffset + f.codeLength <= |img.code| {
      if f.codeLength > 0 {
        PassExact(img, f);
      } else {
        NothingScanned(img.code, f.codeOffset, End(f));
      }
    }
  }

  // ----- Runs of accepted functions -----

  /** A jump at `s` leads to the start of an instruction or to the end. */
  predicate AlignedAt(img: Image, f: FuncRecord, starts: seq<nat>, s: nat)
    requires InstrAt(img.code, s, End(f))
  {
    var i := Decode(img.code, s).value;
    IsJump(i) ==> JumpTarget(i, s) in starts || JumpTarget(i, s) >= End(f)
  }

  predicate Aligned(img: Image, f: FuncRecord) {
    var starts := Scan(img.code, f.codeOffset, End(f));
    forall s :: s in starts ==> AlignedAt(img, f, starts, s)
  }

  /** No instruction has a variable pop count. */
  predicate FixedEffects(img: Image, f: FuncRecord) {
    forall s :: s in Scan(img.code, f.codeOffset, End(f)) ==>
      !Decode(img.code, s).value.Call? && !Decode(img.code, s).value.Intrinsic?
  }

  /** The machine is at an instruction of function `fi`, with exactly the certified height above its locals. */
  ghost predicate Inside(img: Image, fi: nat, hs: seq<int>, vm: Vm) {
    fi < |img.functions| && Alive(vm) &&
    var f := img.functions[fi];
    && Certificate(img, f, hs) && vm.frames[|vm.frames| - 1].func == fi
    && vm.ip in Scan(img.code, f.codeOffset, End(f))
    && |vm.stack| == Base(vm) + f.localCount + hs[vm.ip - f.codeOffset]
  }

  /** Type errors and stack overflow depend on values and depth, which the verifier does not track. */
  predicate Tolerated(fault: Fault) { fault == StackOverflow || fault == BadOperand }

  /** The machine has halted, returned from the frame, or run off the function's end. */
  ghost predicate Left(img: Image, fi: nat, depth: nat, vm: Vm) {
    vm.halted || |vm.frames| < depth || (fi < |img.functions| && vm.ip == End(img.functions[fi]))
  }

  lemma CertificateMeans(img: Image, f: FuncRecord, hs: seq<int>, s: nat)
    requires Certificate(img, f, hs) && s in Scan(img.code, f.codeOffset, End(f))
    ensures InstrAt(img.code, s, End(f)) && f.codeOffset <= s
    ensures StartCertified(img, f, hs, Scan(img.code, f.codeOffset, End(f)), s)
  {
  }

  lemma StepDecodes(img: Image, vm: Vm)
    requires Alive(vm) && vm.ip < |img.code| && Decode(img.code, vm.ip).Some?
    ensures var i := Decode(img.code, vm.ip).value; Step(img, vm) == Exec(img, vm.(ip := vm.ip + i.Size()), i)
  {
  }

  /** After a scanned instruction comes another, or the end of the scan. */
  lemma {:induction false} NextStart(code: seq<Byte>, at: nat, end: nat, s: nat)
    requires s in Scan(code, at, end)
    ensures var next := s + Decode(code, s).value.Size(); next in Scan(code, at, end) || next == ScanEnd(code, at, end)
    decreases end - at
  {
    var next := at + Decode(code, at).value.Size();
    if s != at {
      NextStart(code, next, end, s);
    }
  }

  /** Where an instruction without calls leaves the stack and the instruction pointer. */
  lemma {:induction false} ExecEffect(img: Image, vm: Vm, i: Instr)
    requires vm.frames != [] && i.PopCount() <= |vm.stack| && !i.Call? && !i.Intrinsic? && !Stops(i)
    requires i.Const? ==> i.idx < |img.constants|
    requires i.LoadLocal? ==> Base(vm) + i.slot < |vm.stack|
    requires i.StoreLocal? ==> Base(vm) + i.slot < |vm.stack| - 1
    ensures match Exec(img, vm, i)
            case Fail(fault) => Tolerated(fault)
            case Next(vm') =>
              |vm'.stack| == |vm.stack| - i.PopCount() + i.PushCount() && vm'.frames == vm.frames && vm'.halted == vm.halted &&
              ((Falls(i) && vm'.ip == vm.ip) || (IsJump(i) && vm'.ip == Target(vm.ip, i.offset)))
  {
    hide MachineBinary; hide MachineUnary;
  }

  /** One step of an accepted function: no underflow, no bad index, and the certified height again. */
  lemma {:induction false} StepSafe(img: Image, fi: nat, hs: seq<int>, vm: Vm)
    requires Inside(img, fi, hs, vm) && Shaped(img, img.functions[fi])
    requires Aligned(img, img.functions[fi]) && FixedEffects(img, img.functions[fi])
    ensures match Step(img, vm)
            case Fail(fault) => Tolerated(fault)
            case Next(vm') => Left(img, fi, |vm.frames|, vm') || (Inside(img, fi, hs, vm') && |vm'.frames| == |vm.frames|)
  {
    hide Certificate; hide Scan; hide Decode; hide Exec; hide Step; hide Target; hide Shaped;
    var f := img.functions[fi];
    var starts := Scan(img.code, f.codeOffset, End(f));
    CertificateMeans(img, f, hs, vm.ip);
    var i := Decode(img.code, vm.ip).value;
    var after := vm.(ip := vm.ip + i.Size());
    StepDecodes(img, vm);
    NextStart(img.code, f.codeOffset, End(f), vm.ip);
    ShapedEnds(img, f);
    assert !i.Call? && !i.Intrinsic?;
    if Stops(i) {
      StopLeaves(img, after, i);
    } else {
      ExecEffect(img, after, i);
      assert AlignedAt(img, f, starts, vm.ip);
      var r := Exec(img, after, i);
      if r.Next? && r.vm.ip < End(f) {
        CertificateMeans(img, f, hs, r.vm.ip);
      }
    }
  }

  lemma ShapedEnds(img: Image, f: FuncRecord)
    requires Shaped(img, f)
    ensures ScanEnd(img.code, f.codeOffset, End(f)) == End(f) == f.codeOffset + f.codeLength
  {
  }

  lemma StopLeaves(img: Image, vm: Vm, i: Instr)
    requires vm.frames != [] && Stops(i) && (i.Return? ==> Base(vm) < |vm.stack|)
    ensures var r := Exec(img, vm, i); r.Next? && (r.vm.halted || |r.vm.frames| < |vm.frames|)
  {
  }

  /** After any number of steps: still at the certified height, stopped by a tolerated fault, or having left before. */
  lemma {:induction false} RunSafe(img: Image, fi: nat, hs: seq<int>, vm: Vm, k: nat)
    requires Inside(img, fi, hs, vm) && Shaped(img, img.functions[fi])
    requires Aligned(img, img.functions[fi]) && FixedEffects(img, img.functions[fi])
    ensures SafeAfter(img, fi, hs, vm, k)
    decreases k
  {
    hide Inside; hide Shaped; hide Aligned; hide FixedEffects; hide Left; hide Step;
    InsideAlive(img, fi, hs, vm);
    if k > 0 {
      StepSafe(img, fi, hs, vm);
      var o := Step(img, vm);
      assert Run(img, Next(vm), 1) == Run(img, o, 0) == o;
      if o.Next? && !Left(img, fi, |vm.frames|, o.vm) {
        RunSafe(img, fi, hs, o.vm, k - 1);
        InsideAlive(img, fi, hs, o.vm);
        SafeLater(img, fi, hs, vm, k);
      } else if o.Fail? {
        RunStaysFailed(img, o, k - 1);
      } else {
        assert LeavesAt(img, fi, |vm.frames|, vm, 1);
      }
    }
  }

  ghost predicate LeavesAt(img: Image, fi: nat, depth: nat, vm: Vm, j: nat)
    requires Alive(vm)
  {
    var o := Run(img, Next(vm), j);
    o.Next? && Left(img, fi, depth, o.vm)
  }

  ghost predicate SafeAfter(img: Image, fi: nat, hs: seq<int>, vm: Vm, k: nat)
    requires Alive(vm)
  {
    (var o := Run(img, Next(vm), k);
     if o.Fail? then Tolerated(o.fault) else Inside(img, fi, hs, o.vm) && |o.vm.frames| == |vm.frames|) ||
    exists j :: 0 < j <= k && LeavesAt(img, fi, |vm.frames|, vm, j)
  }

  lemma InsideAlive(img: Image, fi: nat, hs: seq<int>, vm: Vm)
    requires Inside(img, fi, hs, vm)
    ensures Alive(vm) && Run(img, Next(vm), 0) == Next(vm)
  {
  }

  lemma RunStaysFailed(img: Image, o: Outcome, k: nat)
    requires o.Fail?
    ensures Run(img, o, k) == o
  {
  }

  lemma SafeLater(img: Image, fi: nat, hs: seq<int>, vm: Vm, k: nat)
    requires k > 0 && Alive(vm) && Step(img, vm).Next? && Alive(Step(img, vm).vm) && |Step(img, vm).vm.frames| == |vm.frames|
    requires SafeAfter(img, fi, hs, Step(img, vm).vm, k - 1)
    ensures SafeAfter(img, fi, hs, vm, k)
  {
    hide Inside; hide Left; hide Step;
    var next := Step(img, vm).vm;
    assert Run(img, Next(vm), k) == Run(img, Next(next), k - 1);
    if exists j :: 0 < j <= k - 1 && LeavesAt(img, fi, |next.frames|, next, j) {
      var j :| 0 < j <= k - 1 && LeavesAt(img, fi, |next.frames|, next, j);
      assert Run(img, Next(vm), j + 1) == Run(img, Next(next), j);
      assert LeavesAt(img, fi, |vm.frames|, vm, j + 1);
    }
  }

  /**
   If the verifier accepts main, its jumps are aligned and its effects fixed, then a
   run of the image keeps main's certified heights until it halts, returns, runs off
   the end or stops with a type error or stack overflow.
   */
  lemma {:induction false} VerifiedMainIsSafe(img: Image, k: nat) returns (hs: seq<int>)
    requires img.functions != [] && Fields(img.functions[0]) && |img.code| < TWO_32 && img.functions[0].codeLength <= 32767
    requires Accepts(img, img.functions[0]) && Aligned(img, img.functions[0]) && FixedEffects(img, img.functions[0])
    ensures Certificate(img, img.functions[0], hs) && SafeAfter(img, 0, hs, Boot(img), k)
  {
    hide Pass; hide Certificate;
    var f := img.functions[0];
    AcceptsExact(img, f);
    hs :| Certificate(img, f, hs);
    CertificateStart(img, f, hs);
    FirstStart(img, f);
    BootInside(img, hs);
    hide Aligned; hide FixedEffects; hide Accepts; hide Inside; hide Shaped; hide SafeAfter; hide Boot;
    RunSafe(img, 0, hs, Boot(img), k);
  }

  lemma BootInside(img: Image, hs: seq<int>)
    requires img.functions != [] && Certificate(img, img.functions[0], hs)
    requires img.functions[0].codeOffset in Scan(img.code, img.functions[0].codeOffset, End(img.functions[0]))
    ensures Inside(img, 0, hs, Boot(img))
  {
    hide Scan;
  }

  lemma FirstStart(img: Image, f: FuncRecord)
    requires Shaped(img, f)
    ensures f.codeOffset in Scan(img.code, f.codeOffset, End(f))
  {
  }
}
