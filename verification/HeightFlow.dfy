/**
 Operand heights along instruction lists, exactly: from a height at the entry, which
 height a list that the verifier has no objection to leaves at its end. The relation is
 computed from the pieces of a list, in both directions.
 */
module HeightFlow {
  import opened Values
  import opened Bytecode
  import opened CodeGen
  import opened Verifier
  import opened StackFlow

  /** The end of a list: reached at a height, reached by nothing, or not looked at. */
  datatype Exit = Level(h: int) | Cut | Free

  /** Where nothing leads, the verifier goes on with zero. */
  function Enter(x: Exit): int { if x.Level? then x.h else 0 }

  /** The jump at `k` leads to boundary `t`. */
  predicate Lands(code: seq<Instr>, k: nat, t: nat) {
    k < |code| && t <= |code| && IsJump(code[k]) && Size(code[..t]) == Size(code[..k + 1]) + code[k].offset
  }

  ghost predicate JumpedIn(code: seq<Instr>, k: int, t: nat) { exists j: nat :: j <= k && Lands(code, j, t) }

  predicate EndsAt(x: Exit, post: int) { x.Free? || x == Level(post) }

  /** The height at a boundary. */
  function AtEnd(hs: seq<int>, x: Exit, t: nat): Exit { if t < |hs| then Level(hs[t]) else x }

  /** Every jump stays in the list. */
  ghost predicate Closed(code: seq<Instr>) {
    forall k :: 0 <= k < |code| && IsJump(code[k]) ==> exists t :: Lands(code, k, t)
  }

  /** The height after instruction `k` is the one it leaves, or after a transfer zero unless an earlier jump leads there. */
  ghost predicate GoesOn(code: seq<Instr>, hs: seq<int>, x: Exit, k: nat)
    requires |hs| == |code| && k < |code|
  {
    if Falls(code[k]) then EndsAt(AtEnd(hs, x, k + 1), Post(code[k], hs[k]))
    else k + 1 == |code| || hs[k + 1] == 0 || JumpedIn(code, k, k + 1)
  }

  /** The jump at `k` leads to a boundary with this height. */
  ghost predicate Leads(code: seq<Instr>, hs: seq<int>, x: Exit, k: nat, post: int) {
    exists t :: Lands(code, k, t) && EndsAt(AtEnd(hs, x, t), post)
  }

  ghost predicate HeightOk(code: seq<Instr>, hs: seq<int>, x: Exit, k: nat)
    requires |hs| == |code| && k < |code|
  {
    && 0 <= hs[k] && code[k].PopCount() <= hs[k]
    && (IsJump(code[k]) ==> Leads(code, hs, x, k, Post(code[k], hs[k])))
    && GoesOn(code, hs, x, k)
  }

  ghost predicate AllOk(code: seq<Instr>, hs: seq<int>, x: Exit) {
    |hs| == |code| && forall k :: 0 <= k < |code| ==> HeightOk(code, hs, x, k)
  }

  ghost predicate RangeOk(code: seq<Instr>, hs: seq<int>, x: Exit, lo: nat, hi: nat)
    requires |hs| == |code| && hi <= |code|
  {
    forall k :: lo <= k < hi ==> HeightOk(code, hs, x, k)
  }

  /** Something in the list leads to its end. */
  ghost predicate EndReached(code: seq<Instr>) {
    code != [] && (Falls(code[|code| - 1]) || JumpedIn(code, |code| - 1, |code|))
  }

  /** Entered with one exit, the list can be left with the other. */
  ghost predicate Runs(code: seq<Instr>, entry: Exit, x: Exit) {
    if code == [] then x == entry || x.Free?
    else (x.Level? ==> EndReached(code)) && exists hs :: AllOk(code, hs, x) && hs[0] == Enter(entry)
  }

  // ----- Boundaries -----

  lemma {:induction false} PrefixGrows(code: seq<Instr>, a: nat, b: nat)
    requires a <= b <= |code|
    ensures Size(code[..a]) <= Size(code[..b])
    ensures a < b ==> Size(code[..a]) < Size(code[..b])
  {
    assert code[..b] == code[..a] + code[a..b];
    SizeConcat(code[..a], code[a..b]);
    if a < b {
      SomeInstr(code[a..b]);
    }
  }

  lemma SomeInstr(code: seq<Instr>)
    requires code != []
    ensures Size(code) > 0
  {
  }

  lemma LandsOnce(code: seq<Instr>, k: nat, s: nat, t: nat)
    requires Lands(code, k, s) && Lands(code, k, t)
    ensures s == t
  {
    hide Size;
    if s < t {
      PrefixGrows(code, s, t);
    } else {
      PrefixGrows(code, t, s);
    }
  }

  /** A piece's jumps are the same jumps in the whole. */
  lemma {:induction false} EmbedLands(a: seq<Instr>, b: seq<Instr>, c: seq<Instr>, k: nat, t: nat)
    requires k < |b| && t <= |b|
    ensures Lands(a + b + c, |a| + k, |a| + t) <==> Lands(b, k, t)
  {
    hide Size;
    PrefixSize(a, b, c, t);
    PrefixSize(a, b, c, k + 1);
    assert |a| + k + 1 == |a| + (k + 1);
    assert (a + b + c)[|a| + k] == b[k];
  }

  // ----- A piece of a list -----

  /** No jump from in front of the piece leads into its middle. */
  ghost predicate Undisturbed(a: seq<Instr>, b: seq<Instr>, c: seq<Instr>) {
    forall j: nat, t: nat :: j < |a| && |a| < t < |a| + |b| ==> !Lands(a + b + c, j, t)
  }

  function ExitOf(reached: bool, x: Exit): Exit { if x.Free? || reached then x else Cut }

  /** After the piece nothing is known unless something in it leads to its end. */
  ghost predicate Joined(code: seq<Instr>, hs: seq<int>, p: nat) {
    p >= |code| || p >= |hs| || hs[p] == 0 || JumpedIn(code, p - 1, p)
  }

  lemma {:induction false} PieceJumped(a: seq<Instr>, b: seq<Instr>, c: seq<Instr>, k: nat, t: nat)
    requires k < |b| && 0 < t <= |b| && (t < |b| ==> Undisturbed(a, b, c))
    ensures JumpedIn(b, k, t) ==> JumpedIn(a + b + c, |a| + k, |a| + t)
    ensures t < |b| && JumpedIn(a + b + c, |a| + k, |a| + t) ==> JumpedIn(b, k, t)
  {
    hide Size;
    if JumpedIn(b, k, t) {
      var j: nat :| j <= k && Lands(b, j, t);
      EmbedLands(a, b, c, j, t);
    }
    if t < |b| && JumpedIn(a + b + c, |a| + k, |a| + t) {
      var j: nat :| j <= |a| + k && Lands(a + b + c, j, |a| + t);
      assert j >= |a|;
      EmbedLands(a, b, c, j - |a|, t);
    }
  }

  /** An instruction of a piece meets its conditions in the whole exactly if it does in the piece. */
  lemma {:induction false} PieceAt(a: seq<Instr>, b: seq<Instr>, c: seq<Instr>, hs: seq<int>, x: Exit, k: nat)
    requires |hs| == |a + b + c| && k < |b| && Closed(b) && Undisturbed(a, b, c)
    ensures var p := |a| + |b|;
            HeightOk(a + b + c, hs, x, |a| + k) <==>
            HeightOk(b, hs[|a|..p], ExitOf(EndReached(b), AtEnd(hs, x, p)), k) &&
            (k + 1 == |b| && !Falls(b[k]) ==> Joined(a + b + c, hs, p))
  {
    hide Size; hide EndReached; hide Undisturbed; hide Closed;
    var code, p := a + b + c, |a| + |b|;
    var hb, m := hs[|a|..p], ExitOf(EndReached(b), AtEnd(hs, x, p));
    assert code[|a| + k] == b[k] && hb[k] == hs[|a| + k];
    if IsJump(b[k]) {
      PieceLanding(a, b, c, hs, x, k);
    }
    PieceGoesOn(a, b, c, hs, x, k);
  }

  lemma LeadsTo(code: seq<Instr>, hs: seq<int>, x: Exit, k: nat, t: nat, post: int)
    requires Lands(code, k, t)
    ensures Leads(code, hs, x, k, post) <==> EndsAt(AtEnd(hs, x, t), post)
  {
    hide Size; hide Lands;
    if Leads(code, hs, x, k, post) {
      var s :| Lands(code, k, s) && EndsAt(AtEnd(hs, x, s), post);
      LandsOnce(code, k, s, t);
    }
  }

  lemma {:induction false} PieceLanding(a: seq<Instr>, b: seq<Instr>, c: seq<Instr>, hs: seq<int>, x: Exit, k: nat)
    requires |hs| == |a + b + c| && k < |b| && Closed(b) && IsJump(b[k])
    ensures var code, p, post := a + b + c, |a| + |b|, Post(b[k], hs[|a| + k]);
            Leads(code, hs, x, |a| + k, post) <==> Leads(b, hs[|a|..p], ExitOf(EndReached(b), AtEnd(hs, x, p)), k, post)
  {
    hide Size;
    var code, p, post := a + b + c, |a| + |b|, Post(b[k], hs[|a| + k]);
    var t :| Lands(b, k, t);
    EmbedLands(a, b, c, k, t);
    LandsBound(b, k, t);
    LeadsTo(code, hs, x, |a| + k, |a| + t, post);
    LeadsTo(b, hs[|a|..p], ExitOf(EndReached(b), AtEnd(hs, x, p)), k, t, post);
    hide Lands; hide Leads;
    if t == |b| {
      assert JumpedIn(b, |b| - 1, |b|);
    }
  }

  lemma LandsBound(code: seq<Instr>, k: nat, t: nat)
    requires Lands(code, k, t)
    ensures k < |code| && t <= |code|
  {
  }

  lemma {:induction false} PieceGoesOn(a: seq<Instr>, b: seq<Instr>, c: seq<Instr>, hs: seq<int>, x: Exit, k: nat)
    requires |hs| == |a + b + c| && k < |b| && Undisturbed(a, b, c)
    ensures var p := |a| + |b|;
            GoesOn(a + b + c, hs, x, |a| + k) <==>
            GoesOn(b, hs[|a|..p], ExitOf(EndReached(b), AtEnd(hs, x, p)), k) &&
            (k + 1 == |b| && !Falls(b[k]) ==> Joined(a + b + c, hs, p))
  {
    hide Size; hide Lands; hide Undisturbed; hide JumpedIn;
    var code, p := a + b + c, |a| + |b|;
    assert code[|a| + k] == b[k] && |a| + k + 1 == |a| + (k + 1);
    if k + 1 < |b| {
      PieceJumped(a, b, c, k, k + 1);
    }
  }

  /** A piece runs in the whole exactly as by itself. */
  lemma {:induction false} PieceIff(a: seq<Instr>, b: seq<Instr>, c: seq<Instr>, hs: seq<int>, x: Exit)
    requires |hs| == |a + b + c| && b != [] && Closed(b) && Undisturbed(a, b, c)
    ensures var p := |a| + |b|;
            RangeOk(a + b + c, hs, x, |a|, p) <==>
            AllOk(b, hs[|a|..p], ExitOf(EndReached(b), AtEnd(hs, x, p))) && (EndReached(b) || Joined(a + b + c, hs, p))
  {
    hide HeightOk; hide Closed; hide Undisturbed; hide JumpedIn;
    var code, p := a + b + c, |a| + |b|;
    var hb, m := hs[|a|..p], ExitOf(EndReached(b), AtEnd(hs, x, p));
    forall k | 0 <= k < |b|
      ensures HeightOk(code, hs, x, |a| + k) <==> HeightOk(b, hb, m, k) && (k + 1 == |b| && !Falls(b[k]) ==> Joined(code, hs, p))
    {
      PieceAt(a, b, c, hs, x, k);
    }
    if EndReached(b) && !Falls(b[|b| - 1]) {
      PieceJumped(a, b, c, |b| - 1, |b|);
    }
    if forall k :: |a| <= k < p ==> HeightOk(code, hs, x, k) {
      forall k | 0 <= k < |b| ensures HeightOk(b, hb, m, k) {
        assert HeightOk(code, hs, x, |a| + k);
      }
      assert HeightOk(code, hs, x, |a| + (|b| - 1));
    }
    if AllOk(b, hb, m) && (EndReached(b) || Joined(code, hs, p)) {
      forall k | |a| <= k < p ensures HeightOk(code, hs, x, k) {
        assert HeightOk(b, hb, m, k - |a|);
      }
    }
  }

  /** At a cut end nothing arrives. */
  lemma CutMeans(code: seq<Instr>, hs: seq<int>)
    requires code != [] && AllOk(code, hs, Cut)
    ensures !EndReached(code)
  {
    hide Size;
    var n := |code|;
    assert HeightOk(code, hs, Cut, n - 1);
    if JumpedIn(code, n - 1, n) {
      var j: nat :| j <= n - 1 && Lands(code, j, n);
      assert HeightOk(code, hs, Cut, j);
      LeadsTo(code, hs, Cut, j, n, Post(code[j], hs[j]));
    }
  }

  // ----- Composition -----

  lemma {:induction false} ClosedThen(a: seq<Instr>, b: seq<Instr>)
    requires Closed(a) && Closed(b)
    ensures Closed(a + b)
  {
    hide Size; hide Lands;
    var code := a + b;
    forall k | 0 <= k < |code| && IsJump(code[k]) ensures exists t :: Lands(code, k, t) {
      if k < |a| {
        var t :| Lands(a, k, t);
        LandsBound(a, k, t);
        EmbedLands([], a, b, k, t);
        assert [] + a + b == code && 0 + k == k && 0 + t == t;
      } else {
        var t :| Lands(b, k - |a|, t);
        LandsBound(b, k - |a|, t);
        EmbedLands(a, b, [], k - |a|, t);
        assert a + b + [] == code && |a| + (k - |a|) == k;
      }
    }
  }

  /** Where a jump of the first part leads, in the whole. */
  lemma {:induction false} FirstLands(a: seq<Instr>, b: seq<Instr>, j: nat, t: nat)
    requires Closed(a) && j < |a| && Lands(a + b, j, t)
    ensures t <= |a| && Lands(a, j, t)
  {
    hide Size;
    var s :| Lands(a, j, s);
    LandsBound(a, j, s);
    EmbedLands([], a, b, j, s);
    assert [] + a + b == a + b && 0 + j == j && 0 + s == s;
    LandsOnce(a + b, j, s, t);
  }

  lemma {:induction false} ThenUndisturbed(a: seq<Instr>, b: seq<Instr>)
    requires Closed(a)
    ensures Undisturbed(a, b, []) && Undisturbed([], a, b)
  {
    hide Size; hide Lands; hide Closed;
    forall j: nat, t: nat | j < |a| && |a| < t < |a| + |b| ensures !Lands(a + b + [], j, t) {
      assert a + b + [] == a + b;
      if Lands(a + b, j, t) {
        FirstLands(a, b, j, t);
      }
    }
  }

  /** The end of the whole is reached exactly if the end of the second part is. */
  lemma {:induction false} ThenReached(a: seq<Instr>, b: seq<Instr>)
    requires Closed(a) && b != []
    ensures EndReached(a + b) <==> EndReached(b)
  {
    hide Size; hide Lands; hide Closed;
    var n := |a| + |b|;
    assert a + b + [] == a + b;
    PieceJumped(a, b, [], |b| - 1, |b|);
    if JumpedIn(a + b, n - 1, n) {
      var j: nat :| j <= n - 1 && Lands(a + b, j, n);
      if j < |a| {
        FirstLands(a, b, j, n);
      }
      EmbedLands(a, b, [], j - |a|, |b|);
      assert Lands(b, j - |a|, |b|);
    }
  }

  /** The height between two parts. */
  lemma {:induction false} Between(a: seq<Instr>, b: seq<Instr>, hs: seq<int>)
    requires Closed(a) && a != [] && b != [] && |hs| == |a + b| && (EndReached(a) || Joined(a + b, hs, |a|))
    ensures hs[|a|] == Enter(ExitOf(EndReached(a), Level(hs[|a|])))
  {
    hide Size; hide Lands; hide Closed;
    if !EndReached(a) && JumpedIn(a + b, |a| - 1, |a|) {
      var j: nat :| j <= |a| - 1 && Lands(a + b, j, |a|);
      FirstLands(a, b, j, |a|);
    }
  }

  lemma {:induction false} ThenSplits(a: seq<Instr>, b: seq<Instr>, entry: Exit, x: Exit) returns (m: Exit)
    requires Closed(a) && Closed(b) && a != [] && b != [] && Runs(a + b, entry, x)
    ensures !m.Free? && Runs(a, entry, m) && Runs(b, m, x)
  {
    hide Closed; hide EndReached; hide Undisturbed; hide HeightOk; hide Joined; hide JumpedIn;
    var hs :| AllOk(a + b, hs, x) && hs[0] == Enter(entry);
    ThenUndisturbed(a, b);
    ThenReached(a, b);
    assert [] + a + b == a + b && a + b + [] == a + b;
    PieceIff([], a, b, hs, x);
    PieceIff(a, b, [], hs, x);
    Between(a, b, hs);
    m := ExitOf(EndReached(a), Level(hs[|a|]));
    assert hs[0..|a|][0] == hs[0] && hs[|a|..|a| + |b|][0] == hs[|a|];
  }

  lemma {:induction false} ThenJoins(a: seq<Instr>, b: seq<Instr>, entry: Exit, m: Exit, x: Exit)
    requires Closed(a) && Closed(b) && a != [] && b != [] && !m.Free? && Runs(a, entry, m) && Runs(b, m, x)
    ensures Runs(a + b, entry, x)
  {
    hide Closed; hide EndReached; hide Undisturbed; hide HeightOk; hide JumpedIn;
    var ha :| AllOk(a, ha, m) && ha[0] == Enter(entry);
    var hb :| AllOk(b, hb, x) && hb[0] == Enter(m);
    var hs := ha + hb;
    if m.Cut? {
      CutMeans(a, ha);
    }
    if x.Cut? {
      CutMeans(b, hb);
    }
    ThenUndisturbed(a, b);
    ThenReached(a, b);
    assert [] + a + b == a + b && a + b + [] == a + b;
    assert hs[0..|a|] == ha && hs[|a|..|a| + |b|] == hb;
    PieceIff([], a, b, hs, x);
    PieceIff(a, b, [], hs, x);
    forall k | 0 <= k < |a + b| ensures HeightOk(a + b, hs, x, k) {
      assert k < |a| || |a| <= k < |a| + |b|;
    }
  }

  /** A plain instruction. */
  lemma {:induction false} OneRuns(i: Instr, entry: Exit, x: Exit)
    requires !IsJump(i)
    ensures Closed([i])
    ensures Runs([i], entry, x) <==>
            0 <= Enter(entry) && i.PopCount() <= Enter(entry) &&
            if Falls(i) then EndsAt(x, Post(i, Enter(entry))) else !x.Level?
  {
    hide Size; hide Lands;
    var h := Enter(entry);
    if Runs([i], entry, x) {
      var hs :| AllOk([i], hs, x) && hs[0] == h;
      assert HeightOk([i], hs, x, 0);
      if !Falls(i) && x.Level? {
        var j: nat :| j <= 0 && Lands([i], j, 1);
        NoJumpLands(i, j);
      }
    }
    if 0 <= h && i.PopCount() <= h && if Falls(i) then EndsAt(x, Post(i, h)) else !x.Level? {
      OneFits(i, h, x);
    }
  }

  lemma NoJumpLands(i: Instr, j: nat)
    requires !IsJump(i)
    ensures !Lands([i], j, 1)
  {
  }

  lemma OneFits(i: Instr, h: int, x: Exit)
    requires !IsJump(i) && 0 <= h && i.PopCount() <= h && if Falls(i) then EndsAt(x, Post(i, h)) else !x.Level?
    ensures AllOk([i], [h], x) && (x.Level? ==> EndReached([i]))
  {
    assert HeightOk([i], [h], x, 0);
  }

  // ----- A jump over a list -----

  /** What must be left by a part whose end another path reaches at a height. */
  predicate Meets(x: Exit, m: Exit, h: int) {
    if x.Free? then m.Free? else x == Level(h) && !m.Free? && (m.Level? ==> m.h == h)
  }

  function Behind(i: Instr, h: int): Exit { if Falls(i) then Level(Post(i, h)) else Cut }

  lemma {:induction false} SkipFacts(i: Instr, b: seq<Instr>)
    requires IsJump(i) && i.offset == Size(b) && Closed(b)
    ensures Lands([i] + b, 0, |b| + 1) && Undisturbed([i], b, []) && Closed([i] + b) && EndReached([i] + b)
  {
    var code := [i] + b;
    SizeConcat([i], b);
    assert code[..1] == [i] && code[..|code|] == code;
    assert Lands(code, 0, |b| + 1);
    hide Size; hide Lands;
    forall j: nat, t: nat | j < 1 && 1 < t < 1 + |b| ensures !Lands([i] + b + [], j, t) {
      assert [i] + b + [] == code;
      if Lands(code, j, t) {
        LandsOnce(code, 0, t, |b| + 1);
      }
    }
    forall k | 0 <= k < |code| && IsJump(code[k]) ensures exists t :: Lands(code, k, t) {
      if k > 0 {
        var t :| Lands(b, k - 1, t);
        LandsBound(b, k - 1, t);
        EmbedLands([i], b, [], k - 1, t);
        assert [i] + b + [] == code && 1 + (k - 1) == k;
      }
    }
    assert JumpedIn(code, |code| - 1, |code|);
  }

  lemma {:induction false} SkipSplits(i: Instr, b: seq<Instr>, entry: Exit, x: Exit) returns (m: Exit)
    requires IsJump(i) && i.offset == Size(b) && Closed(b) && Runs([i] + b, entry, x)
    ensures var h := Enter(entry); 0 <= h && i.PopCount() <= h && Runs(b, Behind(i, h), m) && Meets(x, m, Post(i, h))
  {
    hide Size; hide Closed; hide Undisturbed; hide Lands; hide JumpedIn;
    var code, h := [i] + b, Enter(entry);
    SkipFacts(i, b);
    var hs :| AllOk(code, hs, x) && hs[0] == h;
    assert HeightOk(code, hs, x, 0);
    LeadsTo(code, hs, x, 0, |b| + 1, Post(i, h));
    if b == [] {
      m := if x.Free? then Free else Behind(i, h);
    } else {
      SkipMiddle(i, b, hs, x);
      assert [i] + b + [] == code;
      PieceIff([i], b, [], hs, x);
      m := ExitOf(EndReached(b), x);
      assert hs[1..1 + |b|][0] == hs[1];
    }
  }

  /** After an unconditional jump nothing leads to the next instruction. */
  lemma {:induction false} SkipMiddle(i: Instr, b: seq<Instr>, hs: seq<int>, x: Exit)
    requires IsJump(i) && i.offset == Size(b) && b != [] && |hs| == |[i] + b| && GoesOn([i] + b, hs, x, 0)
    ensures hs[1] == Enter(Behind(i, hs[0]))
  {
    var code := [i] + b;
    SizeConcat([i], b);
    assert code[..1] == [i] && code[..|code|] == code;
    assert Lands(code, 0, |b| + 1);
  }

  lemma {:induction false} SkipJoins(i: Instr, b: seq<Instr>, entry: Exit, m: Exit, x: Exit)
    requires IsJump(i) && i.offset == Size(b) && Closed(b)
    requires var h := Enter(entry); 0 <= h && i.PopCount() <= h && Runs(b, Behind(i, h), m) && Meets(x, m, Post(i, h))
    ensures Runs([i] + b, entry, x)
  {
    hide Size; hide Closed; hide Undisturbed; hide Lands; hide JumpedIn;
    var code, h := [i] + b, Enter(entry);
    SkipFacts(i, b);
    if b == [] {
      LeadsTo(code, [h], x, 0, |b| + 1, Post(i, h));
      assert HeightOk(code, [h], x, 0);
    } else {
      var hb :| AllOk(b, hb, m) && hb[0] == Enter(Behind(i, h));
      var hs := [h] + hb;
      if m.Cut? {
        CutMeans(b, hb);
      }
      assert [i] + b + [] == code && hs[1..1 + |b|] == hb;
      PieceIff([i], b, [], hs, x);
      LeadsTo(code, hs, x, 0, |b| + 1, Post(i, h));
      assert HeightOk(code, hs, x, 0);
    }
  }

  // ----- A test with two branches -----

  function BranchCode(t: seq<Instr>, e: seq<Instr>): seq<Instr> {
    [JumpIfFalse(Size(t) + 5)] + t + [Jump(Size(e))] + e
  }

  lemma {:induction false} BranchFacts(t: seq<Instr>, e: seq<Instr>)
    requires Closed(t) && Closed(e)
    ensures var code := BranchCode(t, e);
            Lands(code, 0, |t| + 2) && Lands(code, |t| + 1, |code|) && Closed(code) && EndReached(code) &&
            Undisturbed([JumpIfFalse(Size(t) + 5)], t, [Jump(Size(e))] + e) &&
            Undisturbed([JumpIfFalse(Size(t) + 5)] + t + [Jump(Size(e))], e, [])
  {
    var test, skip, code := JumpIfFalse(Size(t) + 5), Jump(Size(e)), BranchCode(t, e);
    BranchLands(t, e);
    var front := [test] + t + [skip];
    hide Size; hide Lands; hide Closed;
    assert [test] + t + ([skip] + e) == code && front + e + [] == code && front + e == code;
    forall j: nat, s: nat | j < 1 && 1 < s < 1 + |t| ensures !Lands([test] + t + ([skip] + e), j, s) {
      if Lands(code, j, s) {
        LandsOnce(code, 0, s, |t| + 2);
      }
    }
    forall j: nat, s: nat | j < |front| && |front| < s < |front| + |e| ensures !Lands(front + e + [], j, s) {
      if Lands(code, j, s) {
        BranchSource(t, e, j, s);
      }
    }
    BranchClosed(t, e);
    assert JumpedIn(code, |code| - 1, |code|);
  }

  lemma BranchLands(t: seq<Instr>, e: seq<Instr>)
    ensures var code := BranchCode(t, e); Lands(code, 0, |t| + 2) && Lands(code, |t| + 1, |code|)
  {
    var test, skip, code := JumpIfFalse(Size(t) + 5), Jump(Size(e)), BranchCode(t, e);
    assert code[..1] == [test] && code[..|t| + 2] == [test] + t + [skip] && code[..|code|] == code;
    SizeConcat([test], t);
    SizeSnoc([test] + t, skip);
    SizeConcat([test] + t + [skip], e);
    EncodeOne(test);
  }

  /** The jumps in front of the second branch lead to its start, to its end or inside the first. */
  lemma {:induction false} BranchSource(t: seq<Instr>, e: seq<Instr>, j: nat, s: nat)
    requires Closed(t) && j < |t| + 2 && Lands(BranchCode(t, e), j, s)
    ensures s <= |t| + 2 || s == |BranchCode(t, e)|
  {
    var test, skip, code := JumpIfFalse(Size(t) + 5), Jump(Size(e)), BranchCode(t, e);
    BranchLands(t, e);
    hide Size; hide Lands;
    if j == 0 {
      LandsOnce(code, 0, s, |t| + 2);
    } else if j == |t| + 1 {
      LandsOnce(code, j, s, |code|);
    } else {
      assert [test] + t + ([skip] + e) == code && code[j] == t[j - 1] && 1 + (j - 1) == j;
      LandsJump(code, j, s);
      var q: nat :| Lands(t, j - 1, q);
      LandsBound(t, j - 1, q);
      EmbedLands([test], t, [skip] + e, j - 1, q);
      LandsOnce(code, j, s, 1 + q);
    }
  }

  lemma LandsJump(code: seq<Instr>, k: nat, t: nat)
    requires Lands(code, k, t)
    ensures k < |code| && IsJump(code[k])
  {
  }

  lemma {:induction false} BranchClosed(t: seq<Instr>, e: seq<Instr>)
    requires Closed(t) && Closed(e)
    ensures Closed(BranchCode(t, e))
  {
    var test, skip, code := JumpIfFalse(Size(t) + 5), Jump(Size(e)), BranchCode(t, e);
    BranchLands(t, e);
    hide Size; hide Lands;
    var front := [test] + t + [skip];
    assert [test] + t + ([skip] + e) == code && front + e + [] == code;
    forall k | 0 <= k < |code| && IsJump(code[k]) ensures exists s :: Lands(code, k, s) {
      if 0 < k <= |t| {
        assert code[k] == t[k - 1] && 1 + (k - 1) == k;
        var q :| Lands(t, k - 1, q);
        LandsBound(t, k - 1, q);
        EmbedLands([test], t, [skip] + e, k - 1, q);
      } else if k > |t| + 1 {
        assert code[k] == e[k - |front|] && |front| + (k - |front|) == k;
        var q :| Lands(e, k - |front|, q);
        LandsBound(e, k - |front|, q);
        EmbedLands(front, e, [], k - |front|, q);
      }
    }
  }

  lemma {:induction false} BranchTestOk(t: seq<Instr>, e: seq<Instr>, hs: seq<int>, x: Exit)
    requires |hs| == |BranchCode(t, e)|
    ensures HeightOk(BranchCode(t, e), hs, x, 0) <==>
            1 <= hs[0] && hs[1] == hs[0] - 1 && EndsAt(AtEnd(hs, x, |t| + 2), hs[0] - 1)
  {
    BranchLands(t, e);
    hide Size; hide Lands; hide JumpedIn;
    LeadsTo(BranchCode(t, e), hs, x, 0, |t| + 2, hs[0] - 1);
    hide Leads;
  }

  lemma {:induction false} BranchSkipOk(t: seq<Instr>, e: seq<Instr>, hs: seq<int>, x: Exit)
    requires |hs| == |BranchCode(t, e)|
    ensures HeightOk(BranchCode(t, e), hs, x, |t| + 1) <==> 0 <= hs[|t| + 1] && EndsAt(x, hs[|t| + 1])
  {
    var code, n := BranchCode(t, e), |t|;
    BranchLands(t, e);
    assert code[n + 1] == Jump(Size(e));
    hide Size; hide Lands;
    LeadsTo(code, hs, x, n + 1, |code|, hs[n + 1]);
    Reaches(code, 0, n + 1, n + 2);
    hide Leads; hide JumpedIn;
  }

  /** The conditions on the whole, part by part. */
  lemma {:induction false} BranchAllOk(t: seq<Instr>, e: seq<Instr>, hs: seq<int>, x: Exit)
    requires Closed(t) && Closed(e) && |hs| == |BranchCode(t, e)|
    ensures var n := |t|;
            AllOk(BranchCode(t, e), hs, x) <==>
            && 1 <= hs[0] && hs[1] == hs[0] - 1 && EndsAt(AtEnd(hs, x, n + 2), hs[0] - 1)
            && (t == [] || (AllOk(t, hs[1..1 + n], ExitOf(EndReached(t), Level(hs[n + 1]))) &&
                            (EndReached(t) || Joined(BranchCode(t, e), hs, n + 1))))
            && 0 <= hs[n + 1] && EndsAt(x, hs[n + 1])
            && (e == [] || AllOk(e, hs[n + 2..n + 2 + |e|], ExitOf(EndReached(e), x)))
  {
    hide Size; hide Closed; hide BranchCode; hide HeightOk; hide EndReached; hide RangeOk; hide AllOk; hide Joined; hide ExitOf; hide EndsAt;
    hide AtEnd;
    BranchSize(t, e);
    BranchTestOk(t, e, hs, x);
    BranchSkipOk(t, e, hs, x);
    BranchFirst(t, e, hs, x);
    BranchSecond(t, e, hs, x);
    FourRanges(BranchCode(t, e), hs, x, |t|);
  }

  lemma BranchSize(t: seq<Instr>, e: seq<Instr>)
    ensures |BranchCode(t, e)| == |t| + |e| + 2
  {
    hide Size;
  }

  lemma {:induction false} BranchFirst(t: seq<Instr>, e: seq<Instr>, hs: seq<int>, x: Exit)
    requires Closed(t) && Closed(e) && |hs| == |BranchCode(t, e)|
    ensures var code, n := BranchCode(t, e), |t|;
            RangeOk(code, hs, x, 1, 1 + n) <==>
            t == [] || (AllOk(t, hs[1..1 + n], ExitOf(EndReached(t), Level(hs[n + 1]))) && (EndReached(t) || Joined(code, hs, n + 1)))
  {
    var test, skip, code := JumpIfFalse(Size(t) + 5), Jump(Size(e)), BranchCode(t, e);
    BranchFacts(t, e);
    hide Size; hide Closed; hide Undisturbed; hide Lands; hide JumpedIn; hide HeightOk; hide EndReached; hide Joined;
    assert [test] + t + ([skip] + e) == code;
    if t != [] {
      PieceIff([test], t, [skip] + e, hs, x);
    }
  }

  lemma {:induction false} BranchSecond(t: seq<Instr>, e: seq<Instr>, hs: seq<int>, x: Exit)
    requires Closed(t) && Closed(e) && |hs| == |BranchCode(t, e)|
    ensures var code, n := BranchCode(t, e), |t|;
            RangeOk(code, hs, x, n + 2, |code|) <==> e == [] || AllOk(e, hs[n + 2..n + 2 + |e|], ExitOf(EndReached(e), x))
  {
    var test, skip, code := JumpIfFalse(Size(t) + 5), Jump(Size(e)), BranchCode(t, e);
    BranchFacts(t, e);
    hide Size; hide Closed; hide Undisturbed; hide Lands; hide JumpedIn; hide HeightOk; hide EndReached;
    assert [test] + t + [skip] + e + [] == code;
    if e != [] {
      PieceIff([test] + t + [skip], e, [], hs, x);
    }
  }

  lemma {:induction false} FourRanges(code: seq<Instr>, hs: seq<int>, x: Exit, n: nat)
    requires |hs| == |code| && n + 2 <= |code|
    ensures AllOk(code, hs, x) <==>
            HeightOk(code, hs, x, 0) && RangeOk(code, hs, x, 1, 1 + n) && HeightOk(code, hs, x, n + 1) && RangeOk(code, hs, x, n + 2, |code|)
  {
    hide HeightOk;
  }

  lemma {:induction false} BranchSplits(t: seq<Instr>, e: seq<Instr>, entry: Exit, x: Exit) returns (mt: Exit, me: Exit)
    requires Closed(t) && Closed(e) && Runs(BranchCode(t, e), entry, x)
    ensures var h := Enter(entry);
            1 <= h && !mt.Free? && Runs(t, Level(h - 1), mt) && Runs(e, Level(h - 1), me) && Meets(x, me, Enter(mt))
  {
    hide Size; hide Closed; hide JumpedIn; hide HeightOk; hide EndReached; hide Joined;
    var h, n := Enter(entry), |t|;
    var hs := PickHeights(BranchCode(t, e), entry, x);
    BranchAllOk(t, e, hs, x);
    hide AllOk;
    if t == [] {
      mt := Level(h - 1);
    } else {
      mt := ExitOf(EndReached(t), Level(hs[n + 1]));
      assert hs[1..1 + n][0] == hs[1];
      BranchBetween(t, e, hs);
    }
    if e == [] {
      me := if x.Free? then Free else Level(h - 1);
    } else {
      me := ExitOf(EndReached(e), x);
      assert hs[n + 2..n + 2 + |e|][0] == hs[n + 2];
    }
  }

  /** The height at the jump that ends the first branch. */
  lemma {:induction false} BranchBetween(t: seq<Instr>, e: seq<Instr>, hs: seq<int>)
    requires Closed(t) && t != [] && |hs| == |BranchCode(t, e)|
    requires EndReached(t) || Joined(BranchCode(t, e), hs, |t| + 1)
    ensures hs[|t| + 1] == Enter(ExitOf(EndReached(t), Level(hs[|t| + 1])))
  {
    var code, n := BranchCode(t, e), |t|;
    BranchLands(t, e);
    hide Size; hide Lands; hide Closed;
    if !EndReached(t) && JumpedIn(code, n, n + 1) {
      var j: nat :| j <= n && Lands(code, j, n + 1);
      BranchInto(t, e, j);
    }
  }

  lemma {:induction false} BranchInto(t: seq<Instr>, e: seq<Instr>, j: nat)
    requires Closed(t) && j <= |t| && Lands(BranchCode(t, e), j, |t| + 1)
    ensures t != [] && EndReached(t)
  {
    var test, skip, code, n := JumpIfFalse(Size(t) + 5), Jump(Size(e)), BranchCode(t, e), |t|;
    BranchLands(t, e);
    hide Size; hide Lands; hide Closed;
    if j == 0 {
      LandsOnce(code, 0, n + 1, n + 2);
    }
    assert [test] + t + ([skip] + e) == code && 1 + (j - 1) == j;
    EmbedLands([test], t, [skip] + e, j - 1, n);
    assert 1 + n == n + 1;
    assert Lands(t, j - 1, n);
  }

  lemma {:induction false} BranchJoins(t: seq<Instr>, e: seq<Instr>, entry: Exit, mt: Exit, me: Exit, x: Exit)
    requires Closed(t) && Closed(e)
    requires var h := Enter(entry);
             1 <= h && !mt.Free? && Runs(t, Level(h - 1), mt) && Runs(e, Level(h - 1), me) && Meets(x, me, Enter(mt)) && 0 <= Enter(mt)
    ensures Runs(BranchCode(t, e), entry, x)
  {
    hide Size; hide Closed; hide JumpedIn; hide HeightOk; hide EndReached;
    var h, n := Enter(entry), |t|;
    var ht := if t == [] then [] else PickHeights(t, Level(h - 1), mt);
    var he := if e == [] then [] else PickHeights(e, Level(h - 1), me);
    var hs := [h] + ht + [Enter(mt)] + he;
    if t != [] && mt.Cut? {
      CutMeans(t, ht);
    }
    if e != [] && me.Cut? {
      CutMeans(e, he);
    }
    ReachedLevels(t, Level(h - 1), mt);
    ReachedLevels(e, Level(h - 1), me);
    BranchFacts(t, e);
    BranchSize(t, e);
    BranchLengths(t, ht, e, he, hs, h, mt);
    hide Runs; hide AllOk; hide Undisturbed; hide Lands; hide BranchCode;
    BranchAllOk(t, e, hs, x);
    FromHeights(BranchCode(t, e), entry, x, hs);
  }

  lemma BranchLengths(t: seq<Instr>, ht: seq<int>, e: seq<Instr>, he: seq<int>, hs: seq<int>, h: int, mt: Exit)
    requires |ht| == |t| && |he| == |e| && hs == [h] + ht + [Enter(mt)] + he
    ensures var n := |t|;
            |hs| == n + |e| + 2 && hs[0] == h && hs[1..1 + n] == ht && hs[n + 2..n + 2 + |e|] == he && hs[n + 1] == Enter(mt) &&
            hs[1] == (if t == [] then Enter(mt) else ht[0]) && (e != [] ==> hs[n + 2] == he[0])
  {
  }

  lemma ReachedLevels(code: seq<Instr>, entry: Exit, x: Exit)
    requires Runs(code, entry, x)
    ensures code != [] && x.Level? ==> EndReached(code)
    ensures code == [] ==> x == entry || x.Free?
  {
  }

  lemma FromHeights(code: seq<Instr>, entry: Exit, x: Exit, hs: seq<int>)
    requires code != [] && AllOk(code, hs, x) && hs[0] == Enter(entry) && (x.Level? ==> EndReached(code))
    ensures Runs(code, entry, x)
  {
  }

  lemma Reaches(code: seq<Instr>, j: nat, k: nat, t: nat)
    requires j <= k && Lands(code, j, t)
    ensures JumpedIn(code, k, t)
  {
  }

  ghost function PickHeights(code: seq<Instr>, entry: Exit, x: Exit): (hs: seq<int>)
    requires code != [] && Runs(code, entry, x)
    ensures AllOk(code, hs, x) && hs[0] == Enter(entry)
  {
    var hs :| AllOk(code, hs, x) && hs[0] == Enter(entry);
    hs
  }

  // ----- Loops -----

  predicate IsExit(i: Instr) { i.JumpIfFalse? || i.JumpIfTrue? }

  /** A test, an exit past the body, the body, and the jump back to the test. */
  function LoopCode(c: seq<Instr>, exit: Instr, b: seq<Instr>): seq<Instr> {
    c + [exit] + b + [Jump(-(Size(c) + Size(b) + 10))]
  }

  lemma LoopShape(c: seq<Instr>, exit: Instr, b: seq<Instr>)
    ensures var back, code := Jump(-(Size(c) + Size(b) + 10)), LoopCode(c, exit, b);
            |code| == |c| + |b| + 2 && code[|c|] == exit && code[|c| + |b| + 1] == back &&
            code[..|c| + 1] == c + [exit] && code[..|code|] == code && code[..0] == []
  {
    hide Size;
  }

  lemma LoopLands(c: seq<Instr>, exit: Instr, b: seq<Instr>)
    requires IsExit(exit) && exit.offset == Size(b) + 5
    ensures var code := LoopCode(c, exit, b);
            |code| == |c| + |b| + 2 && Lands(code, |c|, |code|) && Lands(code, |c| + |b| + 1, 0) && code[|c|] == exit && code[|c| + |b| + 1].Jump?
  {
    hide Size; hide LoopCode; hide Lands;
    LoopShape(c, exit, b);
    LoopSizes(c, exit, b);
    var code := LoopCode(c, exit, b);
    LandsFrom(code, |c|, |code|, c + [exit]);
    LandsFrom(code, |c| + |b| + 1, 0, code);
  }

  lemma LandsFrom(code: seq<Instr>, k: nat, t: nat, front: seq<Instr>)
    requires k < |code| && t <= |code| && IsJump(code[k]) && code[..k + 1] == front
    requires Size(code[..t]) == Size(front) + code[k].offset
    ensures Lands(code, k, t)
  {
  }

  lemma LoopSizes(c: seq<Instr>, exit: Instr, b: seq<Instr>)
    requires IsExit(exit)
    ensures Size(c + [exit]) == Size(c) + 5 && Size(LoopCode(c, exit, b)) == Size(c) + Size(b) + 10 && Size([]) == 0
  {
    SizeSnoc(c, exit);
    LoopSize(c, exit, b, Jump(-(Size(c) + Size(b) + 10)));
  }

  /** A jump of the test, or the exit, does not lead into the body or to its end. */
  lemma {:induction false} LoopSource(c: seq<Instr>, exit: Instr, b: seq<Instr>, j: nat, s: nat)
    requires IsExit(exit) && exit.offset == Size(b) + 5 && Closed(c) && j <= |c| && Lands(LoopCode(c, exit, b), j, s)
    ensures s <= |c| || s == |LoopCode(c, exit, b)|
  {
    var back, code := Jump(-(Size(c) + Size(b) + 10)), LoopCode(c, exit, b);
    LoopLands(c, exit, b);
    hide Size; hide Lands;
    if j == |c| {
      LandsOnce(code, j, s, |code|);
    } else {
      assert c + ([exit] + b + [back]) == code;
      FirstLands(c, [exit] + b + [back], j, s);
    }
  }

  lemma {:induction false} LoopFacts(c: seq<Instr>, exit: Instr, b: seq<Instr>)
    requires IsExit(exit) && exit.offset == Size(b) + 5 && Closed(c) && Closed(b)
    ensures var back, code := Jump(-(Size(c) + Size(b) + 10)), LoopCode(c, exit, b);
            EndReached(code) && Undisturbed([], c, [exit] + b + [back]) && Undisturbed(c + [exit], b, [back])
  {
    var back, code := Jump(-(Size(c) + Size(b) + 10)), LoopCode(c, exit, b);
    LoopLands(c, exit, b);
    hide Size; hide Lands; hide Closed;
    Reaches(code, |c|, |code| - 1, |code|);
    assert c + [exit] + b + [back] == code;
    forall j: nat, s: nat | j < |c| + 1 && |c| + 1 < s < |c| + 1 + |b| ensures !Lands(c + [exit] + b + [back], j, s) {
      if Lands(code, j, s) {
        LoopSource(c, exit, b, j, s);
      }
    }
  }

  /** A jump of a closed piece stays in the whole. */
  lemma {:induction false} PieceLands(a: seq<Instr>, b: seq<Instr>, c: seq<Instr>, k: nat)
    requires Closed(b) && |a| <= k < |a| + |b| && IsJump((a + b + c)[k])
    ensures exists s :: Lands(a + b + c, k, s)
  {
    hide Size; hide Lands;
    var i := k - |a|;
    assert (a + b + c)[k] == b[i];
    var q :| Lands(b, i, q);
    LandsBound(b, i, q);
    EmbedLands(a, b, c, i, q);
  }

  lemma {:induction false} LoopClosed(c: seq<Instr>, exit: Instr, b: seq<Instr>)
    requires IsExit(exit) && exit.offset == Size(b) + 5 && Closed(c) && Closed(b)
    ensures Closed(LoopCode(c, exit, b))
  {
    var back, code := Jump(-(Size(c) + Size(b) + 10)), LoopCode(c, exit, b);
    LoopLands(c, exit, b);
    hide Size; hide Lands;
    assert [] + c + ([exit] + b + [back]) == code && c + [exit] + b + [back] == code;
    hide LoopCode;
    forall k | 0 <= k < |code| && IsJump(code[k]) ensures exists s :: Lands(code, k, s) {
      hide Closed;
      if k < |c| {
        PieceLands([], c, [exit] + b + [back], k);
      } else if |c| < k <= |c| + |b| {
        PieceLands(c + [exit], b, [back], k);
      }
    }
  }

  lemma {:induction false} LoopExitOk(c: seq<Instr>, exit: Instr, b: seq<Instr>, hs: seq<int>, x: Exit)
    requires IsExit(exit) && exit.offset == Size(b) + 5 && |hs| == |LoopCode(c, exit, b)| == |c| + |b| + 2
    ensures HeightOk(LoopCode(c, exit, b), hs, x, |c|) <==>
            1 <= hs[|c|] && hs[|c| + 1] == hs[|c|] - 1 && EndsAt(x, hs[|c|] - 1)
  {
    LoopLands(c, exit, b);
    hide Size; hide Lands; hide JumpedIn; hide LoopCode;
    LeadsTo(LoopCode(c, exit, b), hs, x, |c|, |hs|, hs[|c|] - 1);
    hide Leads;
  }

  lemma {:induction false} LoopBackOk(c: seq<Instr>, exit: Instr, b: seq<Instr>, hs: seq<int>, x: Exit)
    requires IsExit(exit) && exit.offset == Size(b) + 5 && |hs| == |LoopCode(c, exit, b)| == |c| + |b| + 2
    ensures HeightOk(LoopCode(c, exit, b), hs, x, |c| + |b| + 1) <==>
            0 <= hs[|c| + |b| + 1] && hs[0] == hs[|c| + |b| + 1]
  {
    LoopLands(c, exit, b);
    hide Size; hide Lands; hide JumpedIn; hide LoopCode;
    LeadsTo(LoopCode(c, exit, b), hs, x, |c| + |b| + 1, 0, hs[|c| + |b| + 1]);
    hide Leads;
  }

  lemma {:induction false} LoopTestPart(c: seq<Instr>, exit: Instr, b: seq<Instr>, hs: seq<int>, x: Exit)
    requires IsExit(exit) && exit.offset == Size(b) + 5 && Closed(c) && Closed(b) && c != []
    requires |hs| == |LoopCode(c, exit, b)| == |c| + |b| + 2
    ensures var code, n := LoopCode(c, exit, b), |c|;
            RangeOk(code, hs, x, 0, n) <==>
            AllOk(c, hs[0..n], ExitOf(EndReached(c), Level(hs[n]))) && (EndReached(c) || Joined(code, hs, n))
  {
    var back, code := Jump(-(Size(c) + Size(b) + 10)), LoopCode(c, exit, b);
    LoopFacts(c, exit, b);
    hide Size; hide Closed; hide Undisturbed; hide Lands; hide JumpedIn; hide HeightOk; hide EndReached; hide Joined;
    assert [] + c + ([exit] + b + [back]) == code;
    PieceIff([], c, [exit] + b + [back], hs, x);
  }

  lemma {:induction false} LoopBodyPart(c: seq<Instr>, exit: Instr, b: seq<Instr>, hs: seq<int>, x: Exit)
    requires IsExit(exit) && exit.offset == Size(b) + 5 && Closed(c) && Closed(b)
    requires |hs| == |LoopCode(c, exit, b)| == |c| + |b| + 2
    ensures var code, n, m := LoopCode(c, exit, b), |c| + 1, |c| + 1 + |b|;
            RangeOk(code, hs, x, n, m) <==>
            b == [] || (AllOk(b, hs[n..m], ExitOf(EndReached(b), Level(hs[m]))) && (EndReached(b) || Joined(code, hs, m)))
  {
    var back, code := Jump(-(Size(c) + Size(b) + 10)), LoopCode(c, exit, b);
    LoopFacts(c, exit, b);
    hide Size; hide Closed; hide Undisturbed; hide Lands; hide JumpedIn; hide HeightOk; hide EndReached; hide Joined;
    assert c + [exit] + b + [back] == code;
    if b != [] {
      PieceIff(c + [exit], b, [back], hs, x);
    }
  }

  lemma {:induction false} LoopRanges(code: seq<Instr>, hs: seq<int>, x: Exit, n: nat)
    requires |hs| == |code| && n + 2 <= |code|
    ensures AllOk(code, hs, x) <==>
            RangeOk(code, hs, x, 0, n) && HeightOk(code, hs, x, n) && RangeOk(code, hs, x, n + 1, |code| - 1) && HeightOk(code, hs, x, |code| - 1)
  {
    hide HeightOk;
  }

  /** The conditions on a loop, part by part. */
  lemma {:induction false} LoopAllOk(c: seq<Instr>, exit: Instr, b: seq<Instr>, hs: seq<int>, x: Exit)
    requires IsExit(exit) && exit.offset == Size(b) + 5 && Closed(c) && Closed(b) && c != []
    requires |hs| == |LoopCode(c, exit, b)| == |c| + |b| + 2
    ensures var code, n, m := LoopCode(c, exit, b), |c|, |c| + 1 + |b|;
            AllOk(code, hs, x) <==>
            && AllOk(c, hs[0..n], ExitOf(EndReached(c), Level(hs[n]))) && (EndReached(c) || Joined(code, hs, n))
            && 1 <= hs[n] && hs[n + 1] == hs[n] - 1 && EndsAt(x, hs[n] - 1)
            && (b == [] || (AllOk(b, hs[n + 1..m], ExitOf(EndReached(b), Level(hs[m]))) && (EndReached(b) || Joined(code, hs, m))))
            && 0 <= hs[m] && hs[0] == hs[m]
  {
    hide Size; hide Closed; hide LoopCode; hide HeightOk; hide EndReached; hide RangeOk; hide AllOk; hide Joined; hide ExitOf; hide EndsAt;
    LoopTestPart(c, exit, b, hs, x);
    LoopExitOk(c, exit, b, hs, x);
    LoopBodyPart(c, exit, b, hs, x);
    LoopBackOk(c, exit, b, hs, x);
    LoopRanges(LoopCode(c, exit, b), hs, x, |c|);
  }

  lemma {:induction false} LoopBetween(c: seq<Instr>, exit: Instr, b: seq<Instr>, hs: seq<int>)
    requires IsExit(exit) && exit.offset == Size(b) + 5 && Closed(c) && Closed(b) && c != []
    requires |hs| == |LoopCode(c, exit, b)| == |c| + |b| + 2
    ensures var code, n := LoopCode(c, exit, b), |c|;
            EndReached(c) || Joined(code, hs, n) ==> hs[n] == Enter(ExitOf(EndReached(c), Level(hs[n])))
    ensures var code, m := LoopCode(c, exit, b), |c| + 1 + |b|;
            b != [] && (EndReached(b) || Joined(code, hs, m)) ==> hs[m] == Enter(ExitOf(EndReached(b), Level(hs[m])))
  {
    var back, code, m := Jump(-(Size(c) + Size(b) + 10)), LoopCode(c, exit, b), |c| + 1 + |b|;
    hide Size; hide Lands; hide Closed; hide EndReached;
    assert c + ([exit] + b + [back]) == code;
    if EndReached(c) || Joined(code, hs, |c|) {
      Between(c, [exit] + b + [back], hs);
    }
    if b != [] && !EndReached(b) && JumpedIn(code, m - 1, m) {
      var j: nat :| j <= m - 1 && Lands(code, j, m);
      LoopInto(c, exit, b, j);
    }
  }

  lemma {:induction false} LoopInto(c: seq<Instr>, exit: Instr, b: seq<Instr>, j: nat)
    requires IsExit(exit) && exit.offset == Size(b) + 5 && Closed(c) && Closed(b) && b != []
    requires j <= |c| + |b| && Lands(LoopCode(c, exit, b), j, |c| + 1 + |b|)
    ensures EndReached(b)
  {
    var back, code, m := Jump(-(Size(c) + Size(b) + 10)), LoopCode(c, exit, b), |c| + 1 + |b|;
    LoopLands(c, exit, b);
    hide Size; hide Lands; hide Closed;
    if j <= |c| {
      LoopSource(c, exit, b, j, m);
    }
    var i := j - |c| - 1;
    assert c + [exit] + b + [back] == code && |c + [exit]| + i == j && |c + [exit]| + |b| == m;
    EmbedLands(c + [exit], b, [back], i, |b|);
    assert Lands(b, i, |b|);
  }

  lemma {:induction false} LoopSplits(c: seq<Instr>, exit: Instr, b: seq<Instr>, entry: Exit, x: Exit) returns (mc: Exit, mb: Exit)
    requires IsExit(exit) && exit.offset == Size(b) + 5 && Closed(c) && Closed(b) && c != [] && Runs(LoopCode(c, exit, b), entry, x)
    ensures !mc.Free? && Runs(c, entry, mc) && 1 <= Enter(mc) && EndsAt(x, Enter(mc) - 1)
    ensures !mb.Free? && Runs(b, Level(Enter(mc) - 1), mb) && Enter(mb) == Enter(entry)
  {
    hide Size; hide Closed; hide JumpedIn; hide HeightOk; hide EndReached; hide Joined;
    LoopLands(c, exit, b);
    hide Lands;
    var n, m := |c|, |c| + 1 + |b|;
    var hs := PickHeights(LoopCode(c, exit, b), entry, x);
    LoopAllOk(c, exit, b, hs, x);
    LoopBetween(c, exit, b, hs);
    hide AllOk; hide LoopCode;
    mc := ExitOf(EndReached(c), Level(hs[n]));
    assert hs[0..n][0] == hs[0];
    FromHeights(c, entry, mc, hs[0..n]);
    if b == [] {
      mb := Level(hs[n] - 1);
    } else {
      mb := ExitOf(EndReached(b), Level(hs[m]));
      assert hs[n + 1..m][0] == hs[n + 1];
      FromHeights(b, Level(hs[n] - 1), mb, hs[n + 1..m]);
    }
  }

  lemma {:induction false} LoopJoins(c: seq<Instr>, exit: Instr, b: seq<Instr>, entry: Exit, mc: Exit, mb: Exit, x: Exit)
    requires IsExit(exit) && exit.offset == Size(b) + 5 && Closed(c) && Closed(b) && c != []
    requires !mc.Free? && Runs(c, entry, mc) && 1 <= Enter(mc) && EndsAt(x, Enter(mc) - 1)
    requires !mb.Free? && Runs(b, Level(Enter(mc) - 1), mb) && Enter(mb) == Enter(entry)
    ensures Runs(LoopCode(c, exit, b), entry, x)
  {
    hide Size; hide Closed; hide JumpedIn; hide HeightOk; hide EndReached;
    LoopLands(c, exit, b);
    LoopFacts(c, exit, b);
    var n, m := |c|, |c| + 1 + |b|;
    var hc := PickHeights(c, entry, mc);
    var hb := if b == [] then [] else PickHeights(b, Level(Enter(mc) - 1), mb);
    var hs := hc + [Enter(mc)] + hb + [Enter(mb)];
    if mc.Cut? {
      CutMeans(c, hc);
    }
    if b != [] && mb.Cut? {
      CutMeans(b, hb);
    }
    ReachedLevels(c, entry, mc);
    ReachedLevels(b, Level(Enter(mc) - 1), mb);
    LoopLengths(c, hc, b, hb, hs, mc, mb);
    EntryLow(c, entry, mc);
    hide Runs; hide AllOk; hide Undisturbed; hide Lands; hide LoopCode;
    LoopAllOk(c, exit, b, hs, x);
    FromHeights(LoopCode(c, exit, b), entry, x, hs);
  }

  lemma LoopLengths(c: seq<Instr>, hc: seq<int>, b: seq<Instr>, hb: seq<int>, hs: seq<int>, mc: Exit, mb: Exit)
    requires |hc| == |c| && |hb| == |b| && hs == hc + [Enter(mc)] + hb + [Enter(mb)] && c != []
    ensures |hs| == |c| + |b| + 2 && hs[0..|c|] == hc && hs[|c| + 1..|c| + 1 + |b|] == hb && hs[0] == hc[0]
    ensures hs[|c|] == Enter(mc) && hs[|c| + 1 + |b|] == Enter(mb) && hs[|c| + 1] == if b == [] then Enter(mb) else hb[0]
  {
  }

  lemma EntryLow(c: seq<Instr>, entry: Exit, x: Exit)
    requires c != [] && Runs(c, entry, x)
    ensures 0 <= Enter(entry)
  {
    var hs := PickHeights(c, entry, x);
    assert HeightOk(c, hs, x, 0);
  }

  // ----- Endless loops -----

  function EndlessCode(b: seq<Instr>): seq<Instr> { b + [Jump(-(Size(b) + 5))] }

  lemma {:induction false} EndlessFacts(b: seq<Instr>)
    requires Closed(b)
    ensures var code := EndlessCode(b);
            |code| == |b| + 1 && Lands(code, |b|, 0) && code[|b|].Jump? && Closed(code) && !EndReached(code) &&
            Undisturbed([], b, [Jump(-(Size(b) + 5))])
  {
    var back, code := Jump(-(Size(b) + 5)), EndlessCode(b);
    SizeSnoc(b, back);
    assert code[..|code|] == code && code[..0] == [];
    assert Lands(code, |b|, 0);
    hide Size; hide Lands;
    assert [] + b + [back] == code;
    forall k | 0 <= k < |code| && IsJump(code[k]) ensures exists s :: Lands(code, k, s) {
      if k < |b| {
        assert code[k] == b[k] && 0 + k == k;
        var q :| Lands(b, k, q);
        LandsBound(b, k, q);
        EmbedLands([], b, [back], k, q);
      }
    }
    if JumpedIn(code, |code| - 1, |code|) {
      var j: nat :| j <= |code| - 1 && Lands(code, j, |code|);
      if j < |b| {
        FirstLands(b, [back], j, |code|);
      } else {
        LandsOnce(code, j, |code|, 0);
      }
    }
  }

  lemma {:induction false} EndlessAllOk(b: seq<Instr>, hs: seq<int>, x: Exit)
    requires Closed(b) && |hs| == |b| + 1
    ensures AllOk(EndlessCode(b), hs, x) <==>
            && (b == [] || (AllOk(b, hs[0..|b|], ExitOf(EndReached(b), Level(hs[|b|]))) && (EndReached(b) || Joined(EndlessCode(b), hs, |b|))))
            && 0 <= hs[|b|] && hs[0] == hs[|b|]
  {
    hide Size; hide Closed; hide EndlessCode; hide HeightOk; hide EndReached; hide RangeOk; hide AllOk; hide Joined; hide ExitOf;
    EndlessBackOk(b, hs, x);
    EndlessPart(b, hs, x);
    LastRange(EndlessCode(b), hs, x);
  }

  lemma {:induction false} EndlessBackOk(b: seq<Instr>, hs: seq<int>, x: Exit)
    requires Closed(b) && |hs| == |b| + 1
    ensures |EndlessCode(b)| == |b| + 1 && (HeightOk(EndlessCode(b), hs, x, |b|) <==> 0 <= hs[|b|] && hs[0] == hs[|b|])
  {
    EndlessFacts(b);
    hide Size; hide Lands; hide Closed; hide Undisturbed; hide JumpedIn; hide EndReached; hide EndlessCode;
    LeadsTo(EndlessCode(b), hs, x, |b|, 0, hs[|b|]);
    hide Leads;
  }

  lemma {:induction false} EndlessPart(b: seq<Instr>, hs: seq<int>, x: Exit)
    requires Closed(b) && |hs| == |b| + 1 == |EndlessCode(b)|
    ensures var code, n := EndlessCode(b), |b|;
            RangeOk(code, hs, x, 0, n) <==>
            b == [] || (AllOk(b, hs[0..n], ExitOf(EndReached(b), Level(hs[n]))) && (EndReached(b) || Joined(code, hs, n)))
  {
    var back, code := Jump(-(Size(b) + 5)), EndlessCode(b);
    EndlessFacts(b);
    hide Size; hide Lands; hide Closed; hide Undisturbed; hide JumpedIn; hide EndReached; hide Joined; hide HeightOk;
    assert [] + b + [back] == code;
    if b != [] {
      PieceIff([], b, [back], hs, x);
    }
  }

  lemma LastRange(code: seq<Instr>, hs: seq<int>, x: Exit)
    requires code != [] && |hs| == |code|
    ensures AllOk(code, hs, x) <==> RangeOk(code, hs, x, 0, |code| - 1) && HeightOk(code, hs, x, |code| - 1)
  {
    hide HeightOk;
  }

  lemma {:induction false} EndlessSplits(b: seq<Instr>, entry: Exit, x: Exit) returns (m: Exit)
    requires Closed(b) && !entry.Free? && Runs(EndlessCode(b), entry, x)
    ensures !x.Level? && 0 <= Enter(entry) && !m.Free? && Runs(b, entry, m) && Enter(m) == Enter(entry)
  {
    EndlessFacts(b);
    hide Size; hide Lands; hide Closed; hide Undisturbed; hide JumpedIn; hide EndReached; hide Joined; hide HeightOk;
    var back, n := Jump(-(Size(b) + 5)), |b|;
    var hs := PickHeights(EndlessCode(b), entry, x);
    EndlessAllOk(b, hs, x);
    if b == [] {
      m := entry;
    } else {
      Between(b, [back], hs);
      m := ExitOf(EndReached(b), Level(hs[n]));
      assert hs[0..n][0] == hs[0];
      FromHeights(b, entry, m, hs[0..n]);
    }
  }

  lemma {:induction false} EndlessJoins(b: seq<Instr>, entry: Exit, m: Exit, x: Exit)
    requires Closed(b) && !x.Level? && 0 <= Enter(entry) && !m.Free? && Runs(b, entry, m) && Enter(m) == Enter(entry)
    ensures Runs(EndlessCode(b), entry, x)
  {
    EndlessFacts(b);
    hide Size; hide Lands; hide Closed; hide Undisturbed; hide JumpedIn; hide EndReached; hide HeightOk;
    var hb := if b == [] then [] else PickHeights(b, entry, m);
    var hs := hb + [Enter(m)];
    if b != [] && m.Cut? {
      CutMeans(b, hb);
    }
    ReachedLevels(b, entry, m);
    assert hs[0..|b|] == hb;
    EndlessAllOk(b, hs, x);
    FromHeights(EndlessCode(b), entry, x, hs);
  }

  // ----- What a list makes of its entry -----

  /** Entered so, the list is left exactly so, or not at all. */
  ghost predicate Yields(code: seq<Instr>, entry: Exit, o: Option<Exit>) {
    Closed(code) && (o.Some? ==> !o.value.Free?) && forall x: Exit :: !x.Free? ==> (Runs(code, entry, x) <==> o == Some(x))
  }

  /** Entered so, the list has no objection inside it. */
  ghost predicate Tails(code: seq<Instr>, entry: Exit, b: bool) { Runs(code, entry, Free) <==> b }

  /** Heights stay non-negative. */
  lemma {:induction false} ExitLow(code: seq<Instr>, entry: Exit, x: Exit)
    requires Runs(code, entry, x) && 0 <= Enter(entry)
    ensures 0 <= Enter(x)
  {
    hide Size; hide Lands;
    if code != [] && x.Level? {
      var hs, n := PickHeights(code, entry, x), |code|;
      if Falls(code[n - 1]) {
        assert HeightOk(code, hs, x, n - 1);
      } else {
        var j: nat :| j <= n - 1 && Lands(code, j, n);
        LandsBound(code, j, n);
        LandsJump(code, j, n);
        assert HeightOk(code, hs, x, j);
        LeadsTo(code, hs, x, j, n, Post(code[j], hs[j]));
      }
    }
  }

  lemma YieldsNothing(entry: Exit)
    requires !entry.Free?
    ensures Yields([], entry, Some(entry))
  {
  }

  lemma {:induction false} OneYields(i: Instr, entry: Exit)
    requires !IsJump(i) && 0 <= Enter(entry)
    ensures Yields([i], entry, if Enter(entry) < i.PopCount() then None else Some(if Falls(i) then Level(Post(i, Enter(entry))) else Cut))
    ensures Tails([i], entry, i.PopCount() <= Enter(entry))
  {
    hide Runs; hide Closed; hide Instr.PopCount; hide Instr.PushCount;
    OneRuns(i, entry, Free);
    forall x: Exit | !x.Free? ensures Runs([i], entry, x) <==> i.PopCount() <= Enter(entry) && x == (if Falls(i) then Level(Post(i, Enter(entry))) else Cut) {
      OneRuns(i, entry, x);
    }
  }

  /** One list after another. */
  lemma {:induction false} ThenYields(a: seq<Instr>, b: seq<Instr>, entry: Exit, oa: Option<Exit>, ob: Option<Exit>)
    requires !entry.Free? && Yields(a, entry, oa) && Closed(b) && (oa.Some? ==> Yields(b, oa.value, ob))
    ensures Yields(a + b, entry, if oa.Some? then ob else None)
  {
    ClosedThen(a, b);
    if a == [] {
      assert Runs(a, entry, entry);
      assert a + b == b;
    } else if b == [] {
      assert a + b == a;
      EmptyThen(a, entry, oa, ob);
    } else {
      hide Runs; hide Closed;
      forall x: Exit | !x.Free? ensures Runs(a + b, entry, x) <==> oa.Some? && ob == Some(x) {
        if Runs(a + b, entry, x) {
          var m := ThenSplits(a, b, entry, x);
        }
        if oa.Some? && ob == Some(x) {
          ThenJoins(a, b, entry, oa.value, x);
        }
      }
    }
  }

  lemma EmptyThen(a: seq<Instr>, entry: Exit, oa: Option<Exit>, ob: Option<Exit>)
    requires Yields(a, entry, oa) && (oa.Some? ==> Yields([], oa.value, ob))
    ensures oa.Some? ==> ob == oa
  {
    if oa.Some? {
      assert Runs([], oa.value, oa.value);
    }
  }

  lemma {:induction false} ThenTails(a: seq<Instr>, b: seq<Instr>, entry: Exit, oa: Option<Exit>, tb: bool)
    requires !entry.Free? && Yields(a, entry, oa) && Closed(b) && b != [] && (oa.Some? ==> Tails(b, oa.value, tb))
    ensures Tails(a + b, entry, oa.Some? && tb)
  {
    if a == [] {
      assert Runs(a, entry, entry);
      assert a + b == b;
    } else {
      hide Runs; hide Closed;
      if Runs(a + b, entry, Free) {
        var m := ThenSplits(a, b, entry, Free);
      }
      if oa.Some? && tb {
        ThenJoins(a, b, entry, oa.value, Free);
      }
    }
  }

  /** A test at some height with two branches. */
  function BranchExit(ot: Option<Exit>, oe: Option<Exit>): Option<Exit> {
    if ot.None? || oe.None? || (oe.value.Level? && oe.value.h != Enter(ot.value)) then None else Some(Level(Enter(ot.value)))
  }

  lemma {:induction false} BranchYields(t: seq<Instr>, e: seq<Instr>, h: int, ot: Option<Exit>, oe: Option<Exit>, te: bool)
    requires 1 <= h && Yields(t, Level(h - 1), ot) && Yields(e, Level(h - 1), oe) && Tails(e, Level(h - 1), te)
    ensures Yields(BranchCode(t, e), Level(h), BranchExit(ot, oe)) && Tails(BranchCode(t, e), Level(h), ot.Some? && te)
  {
    BranchFacts(t, e);
    hide Runs; hide Closed; hide BranchCode; hide Undisturbed; hide Lands; hide EndReached;
    if ot.Some? {
      ExitLow(t, Level(h - 1), ot.value);
    }
    forall x: Exit ensures Runs(BranchCode(t, e), Level(h), x) <==> if x.Free? then ot.Some? && te else BranchExit(ot, oe) == Some(x) {
      if Runs(BranchCode(t, e), Level(h), x) {
        var mt, me := BranchSplits(t, e, Level(h), x);
      }
      if x.Free? && ot.Some? && te {
        BranchJoins(t, e, Level(h), ot.value, Free, x);
      }
      if !x.Free? && BranchExit(ot, oe) == Some(x) {
        BranchJoins(t, e, Level(h), ot.value, oe.value, x);
      }
    }
  }

  /** A loop whose test leaves height `hc`. */
  lemma {:induction false} LoopYields(c: seq<Instr>, exit: Instr, b: seq<Instr>, entry: Exit, oc: Option<Exit>, ob: Option<Exit>)
    requires IsExit(exit) && exit.offset == Size(b) + 5 && c != [] && !entry.Free?
    requires Yields(c, entry, oc) && (oc.Some? ==> 1 <= Enter(oc.value)) && Closed(b)
    requires oc.Some? ==> Yields(b, Level(Enter(oc.value) - 1), ob)
    ensures var ok := oc.Some? && ob.Some? && Enter(ob.value) == Enter(entry);
            Yields(LoopCode(c, exit, b), entry, if ok then Some(Level(Enter(oc.value) - 1)) else None) && Tails(LoopCode(c, exit, b), entry, ok)
  {
    LoopClosed(c, exit, b);
    hide Runs; hide Closed; hide LoopCode; hide Size;
    var ok := oc.Some? && ob.Some? && Enter(ob.value) == Enter(entry);
    forall x: Exit ensures Runs(LoopCode(c, exit, b), entry, x) <==> ok && EndsAt(x, Enter(oc.value) - 1) {
      if Runs(LoopCode(c, exit, b), entry, x) {
        var mc, mb := LoopSplits(c, exit, b, entry, x);
      }
      if ok && EndsAt(x, Enter(oc.value) - 1) {
        LoopJoins(c, exit, b, entry, oc.value, ob.value, x);
      }
    }
  }

  lemma {:induction false} EndlessYields(b: seq<Instr>, entry: Exit, ob: Option<Exit>)
    requires !entry.Free? && 0 <= Enter(entry) && Yields(b, entry, ob)
    ensures var ok := ob.Some? && Enter(ob.value) == Enter(entry);
            Yields(EndlessCode(b), entry, if ok then Some(Cut) else None) && Tails(EndlessCode(b), entry, ok)
  {
    EndlessFacts(b);
    hide Runs; hide Closed; hide EndlessCode; hide Size; hide Undisturbed; hide Lands; hide EndReached;
    var ok := ob.Some? && Enter(ob.value) == Enter(entry);
    forall x: Exit ensures Runs(EndlessCode(b), entry, x) <==> ok && !x.Level? {
      if Runs(EndlessCode(b), entry, x) {
        var m := EndlessSplits(b, entry, x);
      }
      if ok && !x.Level? {
        EndlessJoins(b, entry, ob.value, x);
      }
    }
  }

  /** A conditional jump over a list, taken or not with the same height. */
  lemma {:induction false} SkipYields(i: Instr, b: seq<Instr>, h: int, ob: Option<Exit>)
    requires IsExit(i) && i.offset == Size(b) && 1 <= h && Yields(b, Level(h - 1), ob)
    ensures Yields([i] + b, Level(h), if ob.Some? && (ob.value.Level? ==> ob.value.h == h - 1) then Some(Level(h - 1)) else None)
  {
    SkipFacts(i, b);
    hide Runs; hide Closed; hide Size; hide Undisturbed; hide Lands; hide EndReached;
    var ok := ob.Some? && (ob.value.Level? ==> ob.value.h == h - 1);
    forall x: Exit | !x.Free? ensures Runs([i] + b, Level(h), x) <==> ok && x == Level(h - 1) {
      if Runs([i] + b, Level(h), x) {
        var m := SkipSplits(i, b, Level(h), x);
      }
      if ok && x == Level(h - 1) {
        SkipJoins(i, b, Level(h), ob.value, x);
      }
    }
  }
}
