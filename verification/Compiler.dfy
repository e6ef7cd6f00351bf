/**
 The compiler as it runs: bytes appended to a code buffer, constants interned in a
 pool, operand heights tracked, jumps emitted with a zero offset and patched in place
 once the code they skip is known, and call operands rewritten in place when main
 takes index 0. Every method is proved to produce what CodeGen specifies.
 */
module Compiling {
  import opened Values
  import opened Bytecode
  import opened SemanticGraph
  import opened CodeGen
  import opened Linking
  import opened SimulationBase

  // ----- Bytes of appended and patched code -----

  lemma {:induction false} Append(base: seq<Byte>, a: seq<Instr>, b: seq<Instr>)
    ensures base + EncodeAll(a) + EncodeAll(b) == base + EncodeAll(a + b)
  {
    hide EncodeAll;
    EncodeConcat(a, b);
    assert base + EncodeAll(a) + EncodeAll(b) == base + (EncodeAll(a) + EncodeAll(b));
  }

  lemma {:induction false} AppendOne(base: seq<Byte>, a: seq<Instr>, i: Instr)
    ensures base + EncodeAll(a) + i.Encode() == base + EncodeAll(a + [i])
  {
    EncodeOne(i);
    Append(base, a, [i]);
  }

  /** Effect of an opcode byte on the tracked height, by the opcode table. */
  function Track(st: Cst, op: Byte): Cst {
    var d := st.depth - (if Pops(op) > 0 then Pops(op) else 0) + (if Pushes(op) > 0 then Pushes(op) else 0);
    st.(depth := d, max := if d > st.max then d else st.max, len := st.len + 1)
  }

  lemma TrackIsEmitOp(st: Cst, i: Instr)
    ensures EmitOp(st, i) == Track(st, i.Opcode()).(len := st.len + i.Size())
  {
    InstrTable(i);
  }

  function JumpWith(op: Byte, offset: int): Instr
    requires op == OP_JUMP || op == OP_JUMP_IF_FALSE || op == OP_JUMP_IF_TRUE
  {
    if op == OP_JUMP then Jump(offset) else if op == OP_JUMP_IF_FALSE then JumpIfFalse(offset) else JumpIfTrue(offset)
  }

  /** The bytes of a jump and the code it skips. */
  lemma {:induction false} JumpCode(base: seq<Byte>, a: seq<Instr>, op: Byte, offset: int, seg: seq<Instr>)
    requires op == OP_JUMP || op == OP_JUMP_IF_FALSE || op == OP_JUMP_IF_TRUE
    ensures base + EncodeAll(a + [JumpWith(op, offset)] + seg) ==
            (base + EncodeAll(a) + [op]) + U32(offset) + EncodeAll(seg)
    ensures |base + EncodeAll(a) + [op]| == |base| + Size(a) + 1
  {
    hide EncodeAll; hide Size; hide U32;
    var jump := JumpWith(op, offset);
    AppendOne(base, a, jump);
    Append(base, a + [jump], seg);
    assert jump.Encode() == [op] + U32(offset);
    var x := base + EncodeAll(a);
    assert x + jump.Encode() == x + [op] + U32(offset);
  }

  // ----- Shapes of the specified code -----

  lemma {:induction false} BinaryShape(p: Program, cx: Cx, st: Cst, n: nat, op: BinOp, ls: nat, rs: nat)
    requires WellFormed(p) && n < |p.g.nodes|
    requires ls == CompilerOperand(p.g, n, 0) && rs == CompilerOperand(p.g, n, 1)
    requires (ls == INVALID || p.rank[ls] < p.rank[n]) && (rs == INVALID || p.rank[rs] < p.rank[n])
    ensures CBinary(p, cx, st, n, op) ==
            if ls == INVALID || rs == INVALID || FoldUndefined(p.g, ls, rs, op) then Out([], st.(err := true))
            else if TryFoldBinary(p.g, ls, rs, op).Some? then EmitConst(st, ConstOf(TryFoldBinary(p.g, ls, rs, op).value))
            else
              var l := CSource(p, cx, st, n, ls);
              var r := CSource(p, cx, l.st, n, rs);
              Out(l.code + r.code + [Binary(op)], EmitOp(r.st, Binary(op)))
  {
    hide CSource; hide Indexed; hide Ranked; hide CompilerOperand;
  }

  lemma {:induction false} ShortCircuitShape(p: Program, cx: Cx, st: Cst, n: nat, isOr: bool, l: Out, r: Out)
    requires WellFormed(p) && n < |p.g.nodes|
    requires var ls, rs := RoleSource(p.g, n, "lhs"), RoleSource(p.g, n, "rhs");
             ls != INVALID && rs != INVALID && p.rank[ls] < p.rank[n] && p.rank[rs] < p.rank[n] &&
             l == CSource(p, cx, st, n, ls) && r == CSource(p, cx, AfterTest(l.st, isOr), n, rs)
    ensures var skip := JumpWith(if isOr then OP_JUMP_IF_TRUE else OP_JUMP_IF_FALSE, 1 + Size(r.code));
            CShortCircuit(p, cx, st, n, isOr) == Out(l.code + [Dup] + [skip] + [Pop] + r.code, r.st)
  {
    var skip := SkipJump(isOr, 1 + Size(r.code));
    assert l.code + [Dup, skip, Pop] == l.code + [Dup] + [skip] + [Pop];
  }

  lemma {:induction false} IfShape(p: Program, cx: Cx, st: Cst, n: nat, c: Out, t: Out, e: Out)
    requires WellFormed(p) && n < |p.g.nodes| && p.g.nodes[n].kind.If?
    requires var cs := RoleSource(p.g, n, "cond"); cs == INVALID || p.rank[cs] < p.rank[n]
    requires RegionBelow(p, p.g.nodes[n].kind.thenRegion, p.rank[n]) && RegionBelow(p, p.g.nodes[n].kind.elseRegion, p.rank[n])
    requires c == CSource(p, cx, st, n, RoleSource(p.g, n, "cond"))
    requires t == CRegion(p, cx, EmitOp(c.st, JumpIfFalse(0)), p.g.nodes[n].kind.thenRegion, p.rank[n])
    requires e == CRegion(p, cx, EmitOp(t.st, Jump(0)), p.g.nodes[n].kind.elseRegion, p.rank[n])
    ensures CIf(p, cx, st, n) ==
            Out(c.code + [JumpIfFalse(Size(t.code) + 5)] + t.code + [Jump(Size(e.code))] + e.code, e.st)
  {
  }

  lemma {:induction false} WhileShape(p: Program, cx: Cx, st: Cst, n: nat, c: Out, b: Out)
    requires WellFormed(p) && n < |p.g.nodes| && p.g.nodes[n].kind.While?
    requires var cs := RoleSource(p.g, n, "cond"); cs == INVALID || p.rank[cs] < p.rank[n]
    requires RegionBelow(p, p.g.nodes[n].kind.body, p.rank[n])
    requires c == CSource(p, cx, st, n, RoleSource(p.g, n, "cond"))
    requires b == CRegion(p, cx, EmitOp(c.st, JumpIfFalse(0)), p.g.nodes[n].kind.body, p.rank[n])
    ensures var back := Jump(-(Size(c.code) + Size(b.code) + 10));
            CWhile(p, cx, st, n) == Out(c.code + [JumpIfFalse(Size(b.code) + 5)] + b.code + [back], EmitOp(b.st, back))
  {
  }

  /** A disconnected operand is an error and emits nothing. */
  lemma {:induction false} ShortCircuitError(p: Program, cx: Cx, st: Cst, n: nat, isOr: bool)
    requires WellFormed(p) && n < |p.g.nodes|
    requires RoleSource(p.g, n, "lhs") == INVALID || RoleSource(p.g, n, "rhs") == INVALID
    ensures CShortCircuit(p, cx, st, n, isOr) == Out([], st.(err := true))
  {
    RoleBelow(p, n, "lhs");
    RoleBelow(p, n, "rhs");
  }

  lemma HeadSize(c: seq<Instr>, t: seq<Instr>, j: int, k: int)
    ensures Size(c + [JumpIfFalse(j)] + t) == Size(c + [JumpIfFalse(k)] + t)
  {
    hide Size;
    SizeSnoc(c, JumpIfFalse(j));
    SizeSnoc(c, JumpIfFalse(k));
    SizeConcat(c + [JumpIfFalse(j)], t);
    SizeConcat(c + [JumpIfFalse(k)], t);
  }

  /** The first of the remaining members, then the rest. */
  lemma {:induction false} MembersShape(p: Program, cx: Cx, st: Cst, ms: seq<nat>, i: nat, bound: nat)
    requires WellFormed(p) && i < |ms| && forall k :: 0 <= k < |ms| ==> MemberBelow(p, ms[k], bound)
    ensures ms[i] < |p.g.nodes| && p.rank[ms[i]] < bound
    ensures var k := p.g.nodes[ms[i]].kind;
            var m := if k.Param? || IsExprNode(k) then Out([], st) else CNode(p, cx, st, ms[i]);
            var rest := CMembers(p, cx, m.st, ms[i + 1..], bound);
            CMembers(p, cx, st, ms[i..], bound) == Out(m.code + rest.code, rest.st)
  {
    hide CNode; hide Grows; hide Indexed; hide Ranked;
    assert MemberBelow(p, ms[i], bound) && ms[i..][0] == ms[i] && ms[i..][1..] == ms[i + 1..];
  }

  ghost predicate AllBelow(p: Program, n: nat, ports: seq<nat>)
    requires WellFormed(p) && n < |p.g.nodes|
  {
    forall k :: 0 <= k < |ports| ==> SourceBelow(p, n, ports[k])
  }

  /** The first of the remaining ports, then the rest; ports that are no inputs count for nothing. */
  lemma {:induction false} ArgsShape(p: Program, cx: Cx, st: Cst, n: nat, ports: seq<nat>, i: nat)
    requires WellFormed(p) && n < |p.g.nodes| && PortsIndexed(p.g, ports) && i < |ports|
    requires AllBelow(p, n, InputPorts(p.g, ports[i..]))
    ensures AllBelow(p, n, InputPorts(p.g, ports[i + 1..]))
    ensures var all := CArgs(p, cx, st, n, InputPorts(p.g, ports[i..]));
            if p.g.ports[ports[i]].dir == Input && FindSource(p.g, ports[i]) != INVALID then
              p.rank[FindSource(p.g, ports[i])] < p.rank[n] &&
              var v := CNode(p, cx, st, FindSource(p.g, ports[i]));
              var rest := CArgs(p, cx, v.st, n, InputPorts(p.g, ports[i + 1..]));
              all == ArgsOut(v.code + rest.code, rest.st, 1 + rest.argc)
            else all == CArgs(p, cx, st, n, InputPorts(p.g, ports[i + 1..]))
  {
    hide CNode; hide Grows; hide Indexed; hide Ranked; hide FindSource;
    assert ports[i..][0] == ports[i] && ports[i..][1..] == ports[i + 1..];
    var inputs := InputPorts(p.g, ports[i..]);
    if p.g.ports[ports[i]].dir == Input {
      assert inputs[0] == ports[i] && inputs[1..] == InputPorts(p.g, ports[i + 1..]);
      assert SourceBelow(p, n, inputs[0]);
    }
  }

  lemma SkipSize(base: seq<Byte>, l: seq<Instr>, r: seq<Instr>)
    ensures Size([Pop] + r) == 1 + Size(r) && |base + EncodeAll(l + [Dup])| == |base| + Size(l) + 1
  {
    SizeConcat([Pop], r);
    EncodeOne(Pop);
    SizeSnoc(l, Dup);
  }

  lemma TableLength(u: Unit, names: seq<string>)
    requires Registered(u, names)
    ensures |u.funcs| == |names|
  {
  }

  lemma ArgPortsOf(g: Graph, n: nat)
    requires Indexed(g) && n < |g.nodes|
    ensures var ports := if |g.nodes[n].cyclic| > 0 then g.nodes[n].cyclic else g.nodes[n].ports;
            PortsIndexed(g, ports) && ArgPorts(g, n) == InputPorts(g, ports)
  {
    assert NodeIndexed(g, n);
  }

  lemma CyclicPortsOf(g: Graph, n: nat)
    requires Indexed(g) && n < |g.nodes|
    ensures PortsIndexed(g, g.nodes[n].cyclic) && InputPorts(g, []) == []
    ensures var ins := InputPorts(g, g.nodes[n].cyclic);
            CyclicPort(g, n, 0) == (if 0 < |ins| then ins[0] else INVALID) &&
            CyclicPort(g, n, 1) == if 1 < |ins| then ins[1] else INVALID
  {
    assert NodeIndexed(g, n);
  }

  lemma {:induction false} InputsShape(g: Graph, ports: seq<nat>, i: nat)
    requires Indexed(g) && PortsIndexed(g, ports) && i < |ports|
    ensures ports[i] < |g.ports| && g.ports[ports[i]].id == ports[i]
    ensures var rest := InputPorts(g, ports[i + 1..]);
            InputPorts(g, ports[i..]) == if g.ports[ports[i]].dir == Input then [ports[i]] + rest else rest
  {
    assert PortIndexed(g, ports[i]) && ports[i..][1..] == ports[i + 1..];
  }

  lemma Shift(a: seq<Instr>, b: seq<Instr>, c: seq<Instr>)
    ensures a + (b + c) == a + b + c
  {
  }

  lemma NoMembers(p: Program, cx: Cx, st: Cst, bound: nat)
    requires WellFormed(p)
    ensures CMembers(p, cx, st, [], bound) == Out([], st)
  {
  }

  lemma NoArgs(p: Program, cx: Cx, st: Cst, n: nat)
    requires WellFormed(p) && n < |p.g.nodes|
    ensures InputPorts(p.g, []) == [] && CArgs(p, cx, st, n, []) == ArgsOut([], st, 0)
  {
  }

  lemma {:induction false} BreakCycleShape(p: Program, cx: Cx, st: Cst, n: nat, i: nat, c: Out, b: Out)
    requires WellFormed(p) && n < |p.g.nodes| && p.g.nodes[n].kind.Cycle?
    requires var ms := Members(p.g, p.g.nodes[n].kind.body);
             && (forall k :: 0 <= k < |ms| ==> MemberBelow(p, ms[k], p.rank[n]))
             && i == FirstBreak(p.g, ms) < |ms|
             && var cs := RoleSource(p.g, ms[i], "cond");
                (cs == INVALID || p.rank[cs] < p.rank[ms[i]]) && c == CSource(p, cx, st, ms[i], cs) &&
                b == CMembers(p, cx, EmitOp(c.st, JumpIfTrue(0)), ms, p.rank[n])
    ensures var back := Jump(-(Size(c.code) + Size(b.code) + 10));
            CCycle(p, cx, st, n) == Out(c.code + [JumpIfTrue(Size(b.code) + 5)] + b.code + [back], EmitOp(b.st, back))
  {
    hide CSource; hide CMembers; hide Size; hide RoleSource; hide FirstBreak; hide Indexed; hide Ranked;
  }

  lemma {:induction false} EndlessCycleShape(p: Program, cx: Cx, st: Cst, n: nat, b: Out)
    requires WellFormed(p) && n < |p.g.nodes| && p.g.nodes[n].kind.Cycle?
    requires var ms := Members(p.g, p.g.nodes[n].kind.body);
             && (forall k :: 0 <= k < |ms| ==> MemberBelow(p, ms[k], p.rank[n]))
             && FirstBreak(p.g, ms) == |ms| && b == CMembers(p, cx, st, ms, p.rank[n])
    ensures var back := Jump(-(Size(b.code) + 5));
            CCycle(p, cx, st, n) == Out(b.code + [back], EmitOp(b.st, back))
  {
    hide CMembers; hide Size; hide FirstBreak; hide Indexed; hide Ranked;
  }

  class Compiler {
    const p: Program
    var pool: Pool
    var funcs: seq<FuncRecord>
    var code: seq<Byte>
    var locals: seq<string>
    var hadError: bool
    var stackDepth: int
    var maxStack: int
    var debug: seq<DebugEntry>
    var debugFunc: nat

    constructor (p: Program)
      ensures this.p == p && code == [] && funcs == [] && debugFunc == 0 && St() == EMPTY.st
    {
      this.p := p;
      pool, funcs, code, locals, debug := [], [], [], [], [];
      hadError, stackDepth, maxStack, debugFunc := false, 0, 0, 0;
    }

    ghost function St(): Cst
      reads this
    {
      Cst(pool, locals, hadError, stackDepth, maxStack, |code|, debug)
    }

    ghost function Table(): Unit
      reads this
    {
      Unit([], St(), funcs)
    }

    /** Function names in table order. */
    ghost function Declared(): seq<string>
      requires WellFormed(p)
    {
      Names(p.g, FuncIds(p.g, 0))
    }

    ghost function Context(): Cx
      requires WellFormed(p)
      reads this
    {
      Cx(Declared(), debugFunc)
    }

    ghost predicate Valid()
      reads this
    {
      WellFormed(p) && Registered(Table(), Declared())
    }

    /** The code `o` was appended, the state became `o.st`, and nothing else changed. */
    twostate predicate Emitted(o: Out)
      reads this
    {
      code == old(code) + EncodeAll(o.code) && St() == o.st && old(pool) <= pool &&
      funcs == old(funcs) && debugFunc == old(debugFunc)
    }

    twostate lemma StaysValid()
      requires old(Valid()) && funcs == old(funcs) && old(pool) <= pool
      ensures Valid()
    {
      forall k | 0 <= k < |Declared()| ensures NameAt(Table(), Declared()[k], k) {
        assert old(NameAt(Table(), Declared()[k], k));
        FindConstPrefix(old(pool), pool, StrConst(Declared()[k]));
      }
    }

    // ----- Emission -----

    method EmitByte(b: Byte)
      modifies this`code
      ensures code == old(code) + [b]
    {
      code := code + [b];
    }

    method EmitU16(v: nat)
      modifies this`code
      ensures code == old(code) + U16(v)
    {
      EmitByte(v % 256);
      EmitByte(v / 256 % 256);
    }

    method EmitI32(v: int)
      modifies this`code
      ensures code == old(code) + U32(v)
    {
      var u := v % TWO_32;
      EmitByte(u % 256);
      EmitByte(u / 256 % 256);
      EmitByte(u / 65536 % 256);
      EmitByte(u / 16777216 % 256);
    }

    method EmitOp(op: Byte)
      modifies this`code, this`stackDepth, this`maxStack
      ensures code == old(code) + [op] && St() == Track(old(St()), op)
    {
      EmitByte(op);
      var pops, pushes := Pops(op), Pushes(op);
      if pops > 0 { stackDepth := stackDepth - pops; }
      if pushes > 0 { stackDepth := stackDepth + pushes; }
      if stackDepth > maxStack { maxStack := stackDepth; }
    }

    method TrackStack(pops: nat, pushes: nat)
      modifies this`stackDepth, this`maxStack
      ensures stackDepth == old(stackDepth) - pops + pushes
      ensures maxStack == if stackDepth > old(maxStack) then stackDepth else old(maxStack)
    {
      stackDepth := stackDepth - pops;
      stackDepth := stackDepth + pushes;
      if stackDepth > maxStack { maxStack := stackDepth; }
    }

    method Error()
      modifies this`hadError
      ensures hadError
    {
      hadError := true;
    }

    /** Interns a constant: the index of the first equal entry, appended when there is none. */
    method AddConst(c: Constant) returns (idx: nat)
      modifies this`pool
      ensures idx == FindConst(old(pool), c) && pool == Intern(old(pool), c)
    {
      idx := 0;
      while idx < |pool|
        invariant idx <= |pool| == |old(pool)| && pool == old(pool)
        invariant FindConst(pool, c) == idx + FindConst(pool[idx..], c)
        invariant forall k :: 0 <= k < idx ==> pool[k] != c
      {
        if pool[idx] == c { return; }
        assert pool[idx..][1..] == pool[idx + 1..];
        idx := idx + 1;
      }
      pool := pool + [c];
    }

    method EmitConstant(c: Constant)
      requires Valid()
      modifies this
      ensures Valid() && Emitted(EmitConst(old(St()), c))
    {
      var idx := AddConst(c);
      ghost var mid := St();
      EmitOp(OP_CONST);
      EmitU16(idx);
      TrackIsEmitOp(mid, Const(idx));
      AppendOne(old(code), [], Const(idx));
      StaysValid();
    }

    /** Emits a jump to be patched and returns the position of its operand. */
    method EmitJump(op: Byte, ghost base: seq<Byte>, ghost ins: seq<Instr>) returns (pp: nat)
      requires op == OP_JUMP || op == OP_JUMP_IF_FALSE || op == OP_JUMP_IF_TRUE
      requires code == base + EncodeAll(ins)
      modifies this`code, this`stackDepth, this`maxStack
      ensures pp == |base| + Size(ins) + 1 && code == base + EncodeAll(ins + [JumpWith(op, 0)])
      ensures St() == CodeGen.EmitOp(old(St()), JumpWith(op, 0))
    {
      hide EncodeAll; hide Size; hide U32;
      TrackIsEmitOp(St(), JumpWith(op, 0));
      AppendOne(base, ins, JumpWith(op, 0));
      EmitOp(op);
      pp := |code|;
      EmitI32(0);
    }

    /** Overwrites a jump's operand with the distance from its end to the end of the code. */
    method PatchJump(pp: nat, ghost op: Byte, ghost base: seq<Byte>, ghost a: seq<Instr>, ghost seg: seq<Instr>)
      requires op == OP_JUMP || op == OP_JUMP_IF_FALSE || op == OP_JUMP_IF_TRUE
      requires code == base + EncodeAll(a + [JumpWith(op, 0)] + seg) && pp == |base| + Size(a) + 1
      modifies this`code
      ensures code == base + EncodeAll(a + [JumpWith(op, Size(seg))] + seg)
      ensures |code| == |old(code)|
    {
      hide EncodeAll; hide Size;
      ghost var before, after := base + EncodeAll(a) + [op], EncodeAll(seg);
      JumpCode(base, a, op, 0, seg);
      JumpCode(base, a, op, Size(seg), seg);
      assert code == before + U32(0) + after;
      var offset := |code| - (pp + 4);
      var u := offset % TWO_32;
      code := code[pp := u % 256];
      code := code[pp + 1 := u / 256 % 256];
      code := code[pp + 2 := u / 65536 % 256];
      code := code[pp + 3 := u / 16777216 % 256];
      assert code == before + U32(offset) + after;
    }

    /** Emits a backward jump to `top`. */
    method EmitJumpBack(top: nat, ghost base: seq<Byte>, ghost ins: seq<Instr>)
      requires top <= |code| && code == base + EncodeAll(ins)
      modifies this`code, this`stackDepth, this`maxStack
      ensures var back := Jump(top - |old(code)| - 5);
              code == base + EncodeAll(ins + [back]) && St() == CodeGen.EmitOp(old(St()), back)
    {
      hide EncodeAll; hide Size; hide U32;
      ghost var back := Jump(top - |code| - 5);
      TrackIsEmitOp(St(), back);
      AppendOne(base, ins, back);
      EmitOp(OP_JUMP);
      EmitI32(top - (|code| + 4));
    }

    // ----- Locals, ports and functions -----

    method LookupLocal(name: string) returns (slot: int)
      ensures slot == FindLocal(locals, name)
    {
      slot := |locals| - 1;
      assert locals[..slot + 1] == locals;
      while slot >= 0
        invariant -1 <= slot < |locals|
        invariant FindLocal(locals, name) == FindLocal(locals[..slot + 1], name)
      {
        if locals[slot] == name { return; }
        assert locals[..slot + 1][..slot] == locals[..slot];
        slot := slot - 1;
      }
    }

    method AddLocal(name: string) returns (slot: nat)
      modifies this`locals
      ensures slot == |old(locals)| && locals == old(locals) + [name]
    {
      slot := |locals|;
      locals := locals + [name];
    }

    method SourceNode(port: nat) returns (n: nat)
      requires Indexed(p.g)
      ensures n == FindSource(p.g, port)
    {
      var i := 0;
      while i < |p.g.edges|
        invariant 0 <= i <= |p.g.edges|
        invariant FindSource(p.g, port) == SourceFrom(p.g, port, i)
      {
        assert EdgeIndexed(p.g, i) && PortIndexed(p.g, p.g.edges[i].from);
        if p.g.edges[i].to == port { return p.g.ports[p.g.edges[i].from].owner; }
        i := i + 1;
      }
      n := INVALID;
    }

    method PortByRole(n: nat, role: string) returns (port: nat)
      requires Indexed(p.g) && n < |p.g.nodes|
      ensures port == FindPort(p.g, n, role)
    {
      var ports := p.g.nodes[n].ports;
      assert NodeIndexed(p.g, n);
      var i := 0;
      while i < |ports|
        invariant 0 <= i <= |ports|
        invariant FindPort(p.g, n, role) == PortFrom(p.g, ports, role, i)
      {
        assert PortIndexed(p.g, ports[i]);
        if HasRole(p.g, ports[i], role) { return p.g.ports[ports[i]].id; }
        i := i + 1;
      }
      port := INVALID;
    }

    /** Source of the "value" input, or of the "in" input without one. */
    method ValueSource(n: nat) returns (s: nat)
      requires Indexed(p.g) && n < |p.g.nodes|
      ensures s == InputSource(p.g, n, "value")
    {
      var port := PortByRole(n, "value");
      if port == INVALID { port := PortByRole(n, "in"); }
      s := SourceNode(port);
    }

    method SourceByRole(n: nat, role: string) returns (s: nat)
      requires Indexed(p.g) && n < |p.g.nodes|
      ensures s == RoleSource(p.g, n, role)
    {
      var port := PortByRole(n, role);
      s := SourceNode(port);
    }

    /** The first two inputs in cyclic order. */
    method CyclicPorts(n: nat) returns (lhs: nat, rhs: nat)
      requires Indexed(p.g) && n < |p.g.nodes|
      ensures lhs == CyclicPort(p.g, n, 0) && rhs == CyclicPort(p.g, n, 1)
    {
      hide InputPorts; hide Indexed;
      CyclicPortsOf(p.g, n);
      var cyclic := p.g.nodes[n].cyclic;
      lhs, rhs := INVALID, INVALID;
      var idx, i := 0, 0;
      assert cyclic[0..] == cyclic;
      while i < |cyclic| && idx < 2
        invariant 0 <= i <= |cyclic| && 0 <= idx <= 2
        invariant idx == 0 ==> lhs == INVALID
        invariant idx < 2 ==> rhs == INVALID
        invariant var found := if idx == 0 then [] else if idx == 1 then [lhs] else [lhs, rhs];
                  InputPorts(p.g, cyclic) == found + InputPorts(p.g, cyclic[i..])
      {
        InputsShape(p.g, cyclic, i);
        var port := p.g.ports[cyclic[i]];
        if port.dir == Input {
          if idx == 0 { lhs := port.id; } else { rhs := port.id; }
          idx := idx + 1;
        }
        i := i + 1;
      }
    }

    /** First function with a name, the table size if there is none. */
    method LookupFunction(name: string) returns (f: nat)
      requires Valid()
      ensures f == FindName(Declared(), name)
    {
      f := 0;
      while f < |funcs|
        invariant f <= |funcs| == |Declared()|
        invariant FindName(Declared(), name) == f + FindName(Declared()[f..], name)
      {
        assert NameAt(Table(), Declared()[f], f);
        var nameIdx := funcs[f].nameIdx;
        if nameIdx < |pool| && pool[nameIdx].StrConst? && pool[nameIdx].s == name { return; }
        assert Declared()[f..][1..] == Declared()[f + 1..];
        f := f + 1;
      }
    }

    // ----- Nodes -----

    method CompileNode(n: nat)
      requires Valid() && n < |p.g.nodes|
      modifies this
      ensures Valid() && Emitted(CNode(p, old(Context()), old(St()), n))
      decreases p.rank[n], 2, 0
    {
      hide CKind; hide EncodeAll; hide Registered;
      ghost var o := CKind(p, Context(), St(), n);
      var start := |code|;
      CompileKind(n);
      var end := |code|;
      if end > start && p.g.nodes[n].source != 0 {
        debug := debug + [DebugEntry(debugFunc, start, end, p.g.nodes[n].source)];
      }
      StaysValid();
    }

    method CompileKind(n: nat)
      requires Valid() && n < |p.g.nodes|
      modifies this
      ensures Valid() && Emitted(CKind(p, old(Context()), old(St()), n))
      decreases p.rank[n], 1, 2, 0
    {
      hide CBinary; hide CUnary; hide CShortCircuit; hide CCall; hide CLet; hide CAssign; hide CPrint; hide CReturn;
      hide CIf; hide CWhile; hide CCycle; hide CSource; hide Registered; hide WellFormed; hide Grows;
      var kind := p.g.nodes[n].kind;
      if kind.BinaryNode? {
        CompileBinary(n, kind.bop);
      } else if kind.UnaryNode? {
        CompileUnary(n, kind.uop);
      } else if kind.And? || kind.Or? {
        CompileShortCircuit(n, kind.Or?);
      } else if kind.ConstInt? || kind.ConstBool? || kind.ConstNull? || kind.VarRef? {
        CompileLeaf(n);
      } else if kind.FuncCall? {
        CompileCall(n, kind.name);
      } else if kind.Let? || kind.Assign? || kind.Print? || kind.RootOutput? || kind.ReturnNode? {
        CompileStmt(n);
      } else if kind.If? || kind.While? || kind.Cycle? {
        CompileControl(n);
      } else if !(kind.BreakIf? || kind.Sequence? || kind.Param?) {
        Error();
        StaysValid();
      }
    }

    method CompileLeaf(n: nat)
      requires Valid() && n < |p.g.nodes| && (var k := p.g.nodes[n].kind; k.ConstInt? || k.ConstBool? || k.ConstNull? || k.VarRef?)
      modifies this
      ensures Valid() && Emitted(CKind(p, old(Context()), old(St()), n))
      decreases p.rank[n], 1, 1, 0
    {
      hide CBinary; hide CUnary; hide CShortCircuit; hide CCall; hide CLet; hide CAssign; hide CPrint; hide CReturn;
      hide CIf; hide CWhile; hide CCycle; hide CSource; hide Registered; hide WellFormed; hide Grows;
      var kind := p.g.nodes[n].kind;
      if kind.ConstInt? {
        EmitConstant(IntConst(kind.i));
      } else if kind.ConstBool? {
        EmitConstant(BoolConst(kind.b));
      } else if kind.ConstNull? {
        EmitConstant(NullConst);
      } else {
        CompileVarRef(kind.name);
      }
    }

    method CompileStmt(n: nat)
      requires Valid() && n < |p.g.nodes| && (var k := p.g.nodes[n].kind; k.Let? || k.Assign? || k.Print? || k.RootOutput? || k.ReturnNode?)
      modifies this
      ensures Valid() && Emitted(CKind(p, old(Context()), old(St()), n))
      decreases p.rank[n], 1, 1, 0
    {
      hide CBinary; hide CUnary; hide CShortCircuit; hide CCall; hide CLet; hide CAssign; hide CPrint; hide CReturn;
      hide CIf; hide CWhile; hide CCycle; hide CSource; hide Registered; hide WellFormed; hide Grows;
      var kind := p.g.nodes[n].kind;
      if kind.Let? {
        CompileLet(n, kind.name);
      } else if kind.Assign? {
        CompileAssign(n, kind.name);
      } else if kind.Print? {
        CompilePrint(n);
      } else if kind.RootOutput? {
        CompileValue(n);
      } else {
        CompileReturn(n);
      }
    }

    method CompileControl(n: nat)
      requires Valid() && n < |p.g.nodes| && (var k := p.g.nodes[n].kind; k.If? || k.While? || k.Cycle?)
      modifies this
      ensures Valid() && Emitted(CKind(p, old(Context()), old(St()), n))
      decreases p.rank[n], 1, 1, 0
    {
      hide CBinary; hide CUnary; hide CShortCircuit; hide CCall; hide CLet; hide CAssign; hide CPrint; hide CReturn;
      hide CIf; hide CWhile; hide CCycle; hide CSource; hide Registered; hide WellFormed; hide Grows;
      var kind := p.g.nodes[n].kind;
      if kind.If? {
        CompileIf(n);
      } else if kind.While? {
        CompileWhile(n);
      } else {
        CompileCycle(n);
      }
    }

    method CompileVarRef(name: string)
      requires Valid()
      modifies this
      ensures Valid()
      ensures var s := FindLocal(old(locals), name);
              Emitted(if s < 0 then CodeGen.Error(old(St())) else Out([LoadLocal(s)], CodeGen.EmitOp(old(St()), LoadLocal(s))))
    {
      var slot := LookupLocal(name);
      if slot >= 0 {
        EmitOp(OP_LOAD_LOCAL);
        EmitU16(slot);
        TrackIsEmitOp(old(St()), LoadLocal(slot));
        AppendOne(old(code), [], LoadLocal(slot));
      } else {
        Error();
      }
      StaysValid();
    }

    method CompileSource(n: nat, s: nat)
      requires Valid() && n < |p.g.nodes|
      requires s == INVALID || (s < |p.g.nodes| && p.rank[s] < p.rank[n])
      modifies this
      ensures Valid() && Emitted(CSource(p, old(Context()), old(St()), n, s))
      decreases p.rank[n], 0, 0
    {
      hide CNode; hide Registered;
      if s != INVALID { CompileNode(s); }
    }

    /** Compiles the "value" or "in" input. */
    method CompileValue(n: nat)
      requires Valid() && n < |p.g.nodes|
      modifies this
      ensures InputSource(p.g, n, "value") == INVALID || p.rank[InputSource(p.g, n, "value")] < p.rank[n]
      ensures Valid() && Emitted(CSource(p, old(Context()), old(St()), n, InputSource(p.g, n, "value")))
      decreases p.rank[n], 0, 1
    {
      hide CSource; hide Registered;
      RoleBelow(p, n, "value");
      var s := ValueSource(n);
      CompileSource(n, s);
    }

    /** Sources of a binary node's operands. */
    method OperandSources(n: nat) returns (ls: nat, rs: nat)
      requires Indexed(p.g) && n < |p.g.nodes|
      ensures ls == CompilerOperand(p.g, n, 0) && rs == CompilerOperand(p.g, n, 1)
    {
      var lhs, rhs := INVALID, INVALID;
      if |p.g.nodes[n].cyclic| >= 2 {
        lhs, rhs := CyclicPorts(n);
      } else {
        lhs := PortByRole(n, "lhs");
        rhs := PortByRole(n, "rhs");
      }
      ls := SourceNode(lhs);
      rs := SourceNode(rhs);
    }

    method CompileBinary(n: nat, op: BinOp)
      requires Valid() && n < |p.g.nodes|
      modifies this
      ensures Valid() && Emitted(CBinary(p, old(Context()), old(St()), n, op))
      decreases p.rank[n], 0, 1
    {
      hide CBinary; hide CodeGen.EmitOp; hide Track; hide Indexed; hide Ranked; hide TryFoldBinary; hide FoldUndefined;
      hide EmitConst; hide CSource; hide Registered; hide EncodeAll; hide Size; hide CompilerOperand;
      OperandBelow(p, n, 0);
      OperandBelow(p, n, 1);
      var ls, rs := OperandSources(n);
      BinaryShape(p, Context(), St(), n, op, ls, rs);
      if ls == INVALID || rs == INVALID || FoldUndefined(p.g, ls, rs, op) {
        Error();
        StaysValid();
        EmptyCode();
        return;
      }
      var folded := TryFoldBinary(p.g, ls, rs, op);
      if folded.Some? {
        EmitConstant(ConstOf(folded.value));
        return;
      }
      ghost var l := CSource(p, Context(), St(), n, ls);
      CompileSource(n, ls);
      ghost var r := CSource(p, Context(), St(), n, rs);
      CompileSource(n, rs);
      EmitOp(BinaryOpcode(op));
      TrackIsEmitOp(r.st, Binary(op));
      Append(old(code), l.code, r.code);
      AppendOne(old(code), l.code + r.code, Binary(op));
      StaysValid();
    }

    method CompileUnary(n: nat, op: UnOp)
      requires Valid() && n < |p.g.nodes|
      modifies this
      ensures Valid() && Emitted(CUnary(p, old(Context()), old(St()), n, op))
      decreases p.rank[n], 0, 1
    {
      hide CSource; hide Registered; hide EncodeAll; hide Size;
      RoleBelow(p, n, "value");
      var s := ValueSource(n);
      if s == INVALID {
        Error();
        StaysValid();
        EmptyCode();
        return;
      }
      var folded := TryFoldUnary(p.g, s, op);
      if folded.Some? {
        EmitConstant(ConstOf(folded.value));
        return;
      }
      ghost var v := CSource(p, Context(), St(), n, s);
      CompileSource(n, s);
      EmitOp(UnaryOpcode(op));
      TrackIsEmitOp(v.st, Unary(op));
      AppendOne(old(code), v.code, Unary(op));
      StaysValid();
    }

    method CompileShortCircuit(n: nat, isOr: bool)
      requires Valid() && n < |p.g.nodes|
      modifies this
      ensures Valid() && Emitted(CShortCircuit(p, old(Context()), old(St()), n, isOr))
      decreases p.rank[n], 0, 1
    {
      hide Track; hide CodeGen.EmitOp; hide CShortCircuit; hide U32;
      hide Grows; hide Indexed; hide Ranked; hide RoleSource; hide FindPort; hide FindSource;
      hide CSource; hide Registered; hide EncodeAll; hide Size;
      RoleBelow(p, n, "lhs");
      RoleBelow(p, n, "rhs");
      var ls := SourceByRole(n, "lhs");
      var rs := SourceByRole(n, "rhs");
      if ls == INVALID || rs == INVALID {
        Error();
        StaysValid();
        EmptyCode();
        ShortCircuitError(p, Context(), old(St()), n, isOr);
        return;
      }
      ghost var base, cx, st := code, Context(), St();
      ghost var l := CSource(p, cx, st, n, ls);
      CompileSource(n, ls);
      var skip := EmitTest(isOr, base, l.code);
      ghost var op := if isOr then OP_JUMP_IF_TRUE else OP_JUMP_IF_FALSE;
      StaysValid();
      ghost var r := CSource(p, cx, AfterTest(l.st, isOr), n, rs);
      CompileSource(n, rs);
      ghost var jump := JumpWith(op, 0);
      Append(base, l.code + [Dup] + [jump] + [Pop], r.code);
      Shift(l.code + [Dup] + [jump], [Pop], r.code);
      SkipSize(base, l.code, r.code);
      PatchJump(skip, op, base, l.code + [Dup], [Pop] + r.code);
      Shift(l.code + [Dup] + [JumpWith(op, 1 + Size(r.code))], [Pop], r.code);
      ShortCircuitShape(p, cx, st, n, isOr, l, r);
      StaysValid();
    }

    /** Duplicates the left value, tests the copy, and pops the value when the test falls through. */
    method EmitTest(isOr: bool, ghost base: seq<Byte>, ghost l: seq<Instr>) returns (skip: nat)
      requires code == base + EncodeAll(l)
      modifies this`code, this`stackDepth, this`maxStack
      ensures var jump := JumpWith(if isOr then OP_JUMP_IF_TRUE else OP_JUMP_IF_FALSE, 0);
              code == base + EncodeAll(l + [Dup] + [jump] + [Pop])
      ensures skip == |base| + Size(l + [Dup]) + 1 && St() == AfterTest(old(St()), isOr)
    {
      hide EncodeAll; hide Size; hide U32; hide Track; hide CodeGen.EmitOp;
      ghost var st := St();
      EmitOp(OP_DUP);
      TrackIsEmitOp(st, Dup);
      AppendOne(base, l, Dup);
      ghost var jump := JumpWith(if isOr then OP_JUMP_IF_TRUE else OP_JUMP_IF_FALSE, 0);
      skip := EmitJump(if isOr then OP_JUMP_IF_TRUE else OP_JUMP_IF_FALSE, base, l + [Dup]);
      EmitOp(OP_POP);
      TrackIsEmitOp(CodeGen.EmitOp(CodeGen.EmitOp(st, Dup), jump), Pop);
      AppendOne(base, l + [Dup] + [jump], Pop);
    }

    // ----- Calls -----

    /** Compiles the connected inputs of a port list and counts them. */
    method CompileArgs(n: nat, ports: seq<nat>) returns (argc: nat)
      requires Valid() && n < |p.g.nodes| && PortsIndexed(p.g, ports)
      requires forall k :: 0 <= k < |ports| ==> SourceBelow(p, n, ports[k])
      modifies this
      ensures AllBelow(p, n, InputPorts(p.g, ports))
      ensures var o := CArgs(p, old(Context()), old(St()), n, InputPorts(p.g, ports));
              Valid() && Emitted(Out(o.code, o.st)) && argc == o.argc
      decreases p.rank[n], 0, 0
    {
      hide Grows; hide Indexed; hide Ranked; hide RoleSource; hide FindPort; hide FindSource;
      hide CNode; hide Registered; hide EncodeAll; hide SourceBelow;
      hide CArgs; hide InputPorts; hide SourceBelow;
      InputsBelow(p, n, ports);
      ghost var base, cx, all := code, Context(), CArgs(p, Context(), St(), n, InputPorts(p.g, ports));
      ghost var done: seq<Instr> := [];
      argc := 0;
      var i := 0;
      EmptyCode();
      assert ports[0..] == ports;
      while i < |ports|
        invariant 0 <= i <= |ports| && Valid() && Context() == cx && funcs == old(funcs) && debugFunc == old(debugFunc)
        invariant code == base + EncodeAll(done) && old(pool) <= pool
        invariant AllBelow(p, n, InputPorts(p.g, ports[i..]))
        invariant var rest := CArgs(p, cx, St(), n, InputPorts(p.g, ports[i..]));
                  all.code == done + rest.code && all.st == rest.st && all.argc == argc + rest.argc
      {
        ArgsShape(p, cx, St(), n, ports, i);
        if p.g.ports[ports[i]].dir == Input {
          var s := SourceNode(ports[i]);
          if s != INVALID {
            ghost var v := CNode(p, cx, St(), s);
            CompileNode(s);
            Append(base, done, v.code);
            Shift(done, v.code, CArgs(p, cx, v.st, n, InputPorts(p.g, ports[i + 1..])).code);
            done := done + v.code;
            argc := argc + 1;
          }
        }
        i := i + 1;
      }
      assert ports[i..] == [];
      NoArgs(p, cx, St(), n);
      assert all.code == done;
    }

    method CompileCall(n: nat, name: string)
      requires Valid() && n < |p.g.nodes|
      modifies this
      ensures Valid() && Emitted(CCall(p, old(Context()), old(St()), n, name))
      decreases p.rank[n], 0, 1
    {
      hide EmitCall; hide U16;
      hide ArgPorts;
      hide InputPorts; hide SourceBelow;
      hide Grows; hide Indexed; hide Ranked; hide RoleSource; hide FindPort; hide FindSource;
      hide CArgs; hide Registered; hide EncodeAll; hide Size;
      ArgsBelow(p, n);
      PortListsBelow(p, n);
      ArgPortsOf(p.g, n);
      var ports := if |p.g.nodes[n].cyclic| > 0 then p.g.nodes[n].cyclic else p.g.nodes[n].ports;
      ghost var a := CArgs(p, Context(), St(), n, ArgPorts(p.g, n));
      var argc := CompileArgs(n, ports);
      var f := LookupFunction(name);
      TableLength(Table(), Declared());
      if f == |funcs| {
        Error();
        StaysValid();
        return;
      }
      EmitCallTo(f, argc);
      AppendOne(old(code), a.code, Call(f, argc));
      StaysValid();
    }

    method EmitCallTo(f: nat, argc: nat)
      modifies this`code, this`stackDepth, this`maxStack
      ensures code == old(code) + Call(f, argc).Encode() && St() == EmitCall(old(St()), argc)
    {
      EmitByte(OP_CALL);
      EmitU16(f);
      EmitByte(argc % 256);
      EmitByte(0);
      TrackStack(argc, 1);
    }

    // ----- Statements -----

    method CompileLet(n: nat, name: string)
      requires Valid() && n < |p.g.nodes|
      modifies this
      ensures Valid() && Emitted(CLet(p, old(Context()), old(St()), n, name))
      decreases p.rank[n], 0, 2
    {
      hide CSource; hide Registered; hide EncodeAll; hide Size;
      ghost var v := CSourceOf(p, Context(), St(), n);
      CompileValue(n);
      var slot := AddLocal(name);
      ghost var mid := St();
      EmitOp(OP_STORE_LOCAL);
      EmitU16(slot);
      TrackIsEmitOp(mid, StoreLocal(slot));
      AppendOne(old(code), v.code, StoreLocal(slot));
      StaysValid();
    }

    method CompileAssign(n: nat, name: string)
      requires Valid() && n < |p.g.nodes|
      modifies this
      ensures Valid() && Emitted(CAssign(p, old(Context()), old(St()), n, name))
      decreases p.rank[n], 0, 2
    {
      hide CSource; hide Registered; hide EncodeAll; hide Size;
      ghost var v := CSourceOf(p, Context(), St(), n);
      CompileValue(n);
      var slot := LookupLocal(name);
      if slot >= 0 {
        EmitOp(OP_STORE_LOCAL);
        EmitU16(slot);
        TrackIsEmitOp(v.st, StoreLocal(slot));
        AppendOne(old(code), v.code, StoreLocal(slot));
      } else {
        Error();
      }
      StaysValid();
    }

    /** Emits a print of the top value; the height is lowered by hand. */
    method EmitPrintCall()
      modifies this`code, this`stackDepth
      ensures code == old(code) + Intrinsic(INTRINSIC_PRINT, 1).Encode() && St() == EmitPrint(old(St()))
    {
      EmitByte(OP_INTRINSIC);
      EmitU16(INTRINSIC_PRINT);
      EmitByte(1);
      EmitByte(0);
      stackDepth := stackDepth - 1;
    }

    method CompilePrint(n: nat)
      requires Valid() && n < |p.g.nodes|
      modifies this
      ensures Valid() && Emitted(CPrint(p, old(Context()), old(St()), n))
      decreases p.rank[n], 0, 2
    {
      hide CSource; hide Registered; hide EncodeAll; hide Size;
      ghost var v := CSourceOf(p, Context(), St(), n);
      CompileValue(n);
      EmitPrintCall();
      AppendOne(old(code), v.code, Intrinsic(INTRINSIC_PRINT, 1));
      StaysValid();
    }

    method CompileReturn(n: nat)
      requires Valid() && n < |p.g.nodes|
      modifies this
      ensures Valid() && Emitted(CReturn(p, old(Context()), old(St()), n))
      decreases p.rank[n], 0, 2
    {
      hide CSource; hide Registered; hide EncodeAll; hide Size;
      RoleBelow(p, n, "value");
      ghost var v := if FindPort(p.g, n, "value") != INVALID then CSourceOf(p, Context(), St(), n)
                     else EmitConst(St(), NullConst);
      var port := PortByRole(n, "value");
      if port != INVALID { CompileValue(n); } else { EmitConstant(NullConst); }
      EmitOp(OP_RETURN);
      TrackIsEmitOp(v.st, Return);
      AppendOne(old(code), v.code, Return);
      StaysValid();
    }

    // ----- Control flow -----

    method CompileRegion(r: nat, ghost bound: nat)
      requires Valid() && RegionBelow(p, r, bound)
      modifies this
      ensures Valid() && Emitted(CRegion(p, old(Context()), old(St()), r, bound))
      decreases bound, 0, 2
    {
      hide CNode; hide Registered; hide EncodeAll;
      EmptyCode();
      if r == INVALID { return; }
      var ms := Members(p.g, r);
      CompileMembers(ms, bound);
    }

    method CompileMembers(ms: seq<nat>, ghost bound: nat)
      requires Valid() && forall k :: 0 <= k < |ms| ==> MemberBelow(p, ms[k], bound)
      modifies this
      ensures Valid() && Emitted(CMembers(p, old(Context()), old(St()), ms, bound))
      decreases bound, 0, 1
    {
      hide Grows; hide Indexed; hide Ranked; hide RoleSource; hide FindPort; hide FindSource;
      hide CNode; hide Registered; hide EncodeAll;
      hide CMembers;
      ghost var base, cx, all := code, Context(), CMembers(p, Context(), St(), ms, bound);
      ghost var done: seq<Instr> := [];
      var i := 0;
      EmptyCode();
      assert ms[0..] == ms;
      while i < |ms|
        invariant 0 <= i <= |ms| && Valid() && Context() == cx && funcs == old(funcs) && debugFunc == old(debugFunc)
        invariant code == base + EncodeAll(done) && old(pool) <= pool
        invariant var rest := CMembers(p, cx, St(), ms[i..], bound); all.code == done + rest.code && all.st == rest.st
      {
        MembersShape(p, cx, St(), ms, i, bound);
        var kind := p.g.nodes[ms[i]].kind;
        if !kind.Param? && !IsExprNode(kind) {
          ghost var m := CNode(p, cx, St(), ms[i]);
          CompileNode(ms[i]);
          Append(base, done, m.code);
          Shift(done, m.code, CMembers(p, cx, m.st, ms[i + 1..], bound).code);
          done := done + m.code;
        }
        i := i + 1;
      }
      assert ms[i..] == [];
      NoMembers(p, cx, St(), bound);
      assert all.code == done;
    }

    method CompileIf(n: nat)
      requires Valid() && n < |p.g.nodes| && p.g.nodes[n].kind.If?
      modifies this
      ensures Valid() && Emitted(CIf(p, old(Context()), old(St()), n))
      decreases p.rank[n], 0, 3
    {
      hide Track; hide CodeGen.EmitOp; hide CIf; hide U32;
      hide Grows; hide Indexed; hide Ranked; hide RoleSource; hide FindPort; hide FindSource;
      hide CSource; hide CRegion; hide Registered; hide EncodeAll; hide Size; hide RegionBelow;
      RoleBelow(p, n, "cond");
      ChildrenBelow(p, n);
      var cs := SourceByRole(n, "cond");
      ghost var base, cx, st := code, Context(), St();
      ghost var c := CSource(p, cx, st, n, cs);
      CompileSource(n, cs);
      var elseJump := EmitJump(OP_JUMP_IF_FALSE, base, c.code);
      StaysValid();
      ghost var t := CRegion(p, cx, CodeGen.EmitOp(c.st, JumpIfFalse(0)), p.g.nodes[n].kind.thenRegion, p.rank[n]);
      CompileRegion(p.g.nodes[n].kind.thenRegion, p.rank[n]);
      var endJump := SkipElse(elseJump, base, c.code, t.code);
      StaysValid();
      ghost var e := CRegion(p, cx, CodeGen.EmitOp(t.st, Jump(0)), p.g.nodes[n].kind.elseRegion, p.rank[n]);
      CompileRegion(p.g.nodes[n].kind.elseRegion, p.rank[n]);
      ghost var head := c.code + [JumpIfFalse(Size(t.code) + 5)] + t.code;
      Append(base, head + [JumpWith(OP_JUMP, 0)], e.code);
      PatchJump(endJump, OP_JUMP, base, head, e.code);
      IfShape(p, cx, st, n, c, t, e);
      StaysValid();
    }

    /** The jump past the else code, and the test's jump patched to lead past it. */
    method SkipElse(elseJump: nat, ghost base: seq<Byte>, ghost c: seq<Instr>, ghost t: seq<Instr>) returns (endJump: nat)
      requires elseJump == |base| + Size(c) + 1
      requires code == base + EncodeAll(c + [JumpIfFalse(0)]) + EncodeAll(t)
      modifies this`code, this`stackDepth, this`maxStack
      ensures var head := c + [JumpIfFalse(Size(t) + 5)] + t;
              code == base + EncodeAll(head + [JumpWith(OP_JUMP, 0)]) && endJump == |base| + Size(head) + 1 &&
              St() == CodeGen.EmitOp(old(St()), Jump(0))
    {
      hide EncodeAll; hide Size; hide U32; hide Track; hide CodeGen.EmitOp;
      Append(base, c + [JumpIfFalse(0)], t);
      endJump := EmitJump(OP_JUMP, base, c + [JumpIfFalse(0)] + t);
      Shift(c + [JumpIfFalse(0)], t, [Jump(0)]);
      PatchJump(elseJump, OP_JUMP_IF_FALSE, base, c, t + [Jump(0)]);
      SizeSnoc(t, Jump(0));
      HeadSize(c, t, 0, Size(t) + 5);
      Shift(c + [JumpIfFalse(Size(t) + 5)], t, [Jump(0)]);
    }

    method CompileWhile(n: nat)
      requires Valid() && n < |p.g.nodes| && p.g.nodes[n].kind.While?
      modifies this
      ensures Valid() && Emitted(CWhile(p, old(Context()), old(St()), n))
      decreases p.rank[n], 0, 3
    {
      hide Track; hide CodeGen.EmitOp; hide CWhile; hide U32;
      hide Grows; hide Indexed; hide Ranked; hide RoleSource; hide FindPort; hide FindSource;
      hide CSource; hide CRegion; hide Registered; hide EncodeAll; hide Size; hide RegionBelow;
      RoleBelow(p, n, "cond");
      ChildrenBelow(p, n);
      var top := |code|;
      var cs := SourceByRole(n, "cond");
      ghost var base, cx, st := code, Context(), St();
      ghost var c := CSource(p, cx, st, n, cs);
      CompileSource(n, cs);
      var exit := EmitJump(OP_JUMP_IF_FALSE, base, c.code);
      StaysValid();
      ghost var b := CRegion(p, cx, CodeGen.EmitOp(c.st, JumpIfFalse(0)), p.g.nodes[n].kind.body, p.rank[n]);
      CompileRegion(p.g.nodes[n].kind.body, p.rank[n]);
      FinishLoop(top, exit, OP_JUMP_IF_FALSE, base, c.code, b.code);
      WhileShape(p, cx, st, n, c, b);
      StaysValid();
    }

    /** The jump back to the test, and the exit jump patched to lead past it. */
    method FinishLoop(top: nat, exit: nat, ghost op: Byte, ghost base: seq<Byte>, ghost c: seq<Instr>, ghost b: seq<Instr>)
      requires op == OP_JUMP_IF_FALSE || op == OP_JUMP_IF_TRUE
      requires top == |base| && exit == |base| + Size(c) + 1
      requires code == base + EncodeAll(c + [JumpWith(op, 0)]) + EncodeAll(b)
      modifies this`code, this`stackDepth, this`maxStack
      ensures var back := Jump(-(Size(c) + Size(b) + 10));
              code == base + EncodeAll(c + [JumpWith(op, Size(b) + 5)] + b + [back]) &&
              St() == CodeGen.EmitOp(old(St()), back)
    {
      hide EncodeAll; hide Size; hide U32; hide Track; hide CodeGen.EmitOp;
      ghost var exit0, exit1, back := JumpWith(op, 0), JumpWith(op, Size(b) + 5), Jump(-(Size(c) + Size(b) + 10));
      SizeSnoc(c, exit0);
      SizeSnoc(b, back);
      Append(base, c + [exit0], b);
      EmitJumpBack(top, base, c + [exit0] + b);
      assert c + [exit0] + b + [back] == c + [exit0] + (b + [back]);
      PatchJump(exit, op, base, c, b + [back]);
      assert c + [exit1] + b + [back] == c + [exit1] + (b + [back]);
    }

    /** Position of the first break test in a loop body, |ms| if there is none. */
    method BreakIndex(ms: seq<nat>) returns (i: nat)
      requires forall k :: 0 <= k < |ms| ==> ms[k] < |p.g.nodes|
      ensures i == FirstBreak(p.g, ms)
    {
      i := 0;
      assert ms[0..] == ms;
      while i < |ms| && !p.g.nodes[ms[i]].kind.BreakIf?
        invariant 0 <= i <= |ms| && FirstBreak(p.g, ms) == i + FirstBreak(p.g, ms[i..])
      {
        assert ms[i..][1..] == ms[i + 1..] && ms[i..][0] == ms[i];
        i := i + 1;
      }
    }

    method CompileCycle(n: nat)
      requires Valid() && n < |p.g.nodes| && p.g.nodes[n].kind.Cycle?
      modifies this
      ensures Valid() && Emitted(CCycle(p, old(Context()), old(St()), n))
      decreases p.rank[n], 0, 3
    {
      hide Track; hide CodeGen.EmitOp; hide CCycle; hide U32;
      hide Grows; hide Indexed; hide Ranked; hide RoleSource; hide FindPort; hide FindSource;
      hide CSource; hide CMembers; hide Registered; hide EncodeAll; hide Size; hide RegionBelow;
      CycleMembersBelow(p, n);
      var ms := Members(p.g, p.g.nodes[n].kind.body);
      var top, exit, hasBreak := |code|, 0, false;
      var i := BreakIndex(ms);
      EmptyCode();
      ghost var base, cx, st := code, Context(), St();
      ghost var c := Out([], st);
      if i < |ms| {
        RoleBelow(p, ms[i], "cond");
        var cs := SourceByRole(ms[i], "cond");
        c := CSource(p, cx, st, ms[i], cs);
        CompileSource(ms[i], cs);
        exit := EmitJump(OP_JUMP_IF_TRUE, base, c.code);
        StaysValid();
        hasBreak := true;
      }
      ghost var b := CMembers(p, cx, St(), ms, p.rank[n]);
      CompileMembers(ms, p.rank[n]);
      if hasBreak {
        FinishLoop(top, exit, OP_JUMP_IF_TRUE, base, c.code, b.code);
        BreakCycleShape(p, cx, st, n, i, c, b);
      } else {
        EmitJumpBack(top, base, b.code);
        EndlessCycleShape(p, cx, st, n, b);
      }
      StaysValid();
    }

    // ----- Functions -----

    /** Declares the parameters among the members as the first locals. */
    method AddParams(ms: seq<nat>)
      requires forall k :: 0 <= k < |ms| ==> ms[k] < |p.g.nodes|
      modifies this`locals
      ensures locals == old(locals) + Params(p.g, ms)
    {
      var i := 0;
      assert ms[0..] == ms;
      while i < |ms|
        invariant 0 <= i <= |ms| && old(locals) + Params(p.g, ms) == locals + Params(p.g, ms[i..])
      {
        assert ms[i..][1..] == ms[i + 1..] && ms[i..][0] == ms[i];
        if p.g.nodes[ms[i]].kind.Param? {
          var _ := AddLocal(p.g.nodes[ms[i]].kind.name);
        }
        i := i + 1;
      }
    }

    /** Index of the record with a name constant, the table size if there is none. */
    method RecordIndex(nameIdx: nat) returns (i: nat)
      ensures i == FindRecord(funcs, nameIdx)
    {
      i := 0;
      assert funcs[0..] == funcs;
      while i < |funcs| && funcs[i].nameIdx != nameIdx
        invariant i <= |funcs| && FindRecord(funcs, nameIdx) == i + FindRecord(funcs[i..], nameIdx)
      {
        assert funcs[i..][1..] == funcs[i + 1..];
        i := i + 1;
      }
    }

    /** Appends a null return unless the code of this function ends with the return opcode. */
    method CloseBody(start: nat, ghost base: seq<Byte>, ghost b: Out)
      requires Valid() && start == |base| && code == base + EncodeAll(b.code) && St() == b.st
      modifies this
      ensures Valid() && funcs == old(funcs) && debugFunc == old(debugFunc) && old(pool) <= pool
      ensures code == base + EncodeAll(CloseFunction(b).code) && St() == CloseFunction(b).st
    {
      hide EncodeAll; hide Size; hide Registered; hide Indexed; hide Ranked;
      assert |code| > start ==> code[|code| - 1] == EncodeAll(b.code)[|EncodeAll(b.code)| - 1];
      if |code| == start || code[|code| - 1] != OP_RETURN {
        ghost var k := EmitConst(St(), NullConst);
        EmitConstant(NullConst);
        EmitOp(OP_RETURN);
        TrackIsEmitOp(k.st, Return);
        Append(base, b.code, k.code);
        AppendOne(base, b.code + k.code, Return);
        StaysValid();
      }
    }

    /** Starts a function: only its parameters are locals, and debug entries name its record. */
    method BeginFunction(f: nat) returns (nameIdx: nat)
      requires Valid() && f < |p.g.nodes| && p.g.nodes[f].kind.FuncDef?
      modifies this
      ensures Valid() && code == old(code) && funcs == old(funcs) && St() == EnterFunction(p, old(St()), f)
      ensures nameIdx == FindConst(old(pool), StrConst(p.g.nodes[f].kind.name))
      ensures debugFunc == FindRecord(funcs, nameIdx)
    {
      hide Registered; hide Indexed; hide Ranked; hide Params; hide NoRepeats; hide FindRecord; hide FindConst; hide Members;
      BodyIndexed(p, f);
      var kind := p.g.nodes[f].kind;
      locals, stackDepth, maxStack := [], 0, 0;
      nameIdx := AddConst(StrConst(kind.name));
      debugFunc := RecordIndex(nameIdx);
      AddParams(Members(p.g, kind.body));
      StaysValid();
    }

    /** Compiles a registered function and fills in its record. */
    method CompileFunction(f: nat)
      requires Valid() && f < |p.g.nodes| && p.g.nodes[f].kind.FuncDef?
      modifies this
      ensures Valid()
      ensures var r := AddFunction(p, Declared(), Unit([], old(St()), old(funcs)), f);
              code == old(code) + EncodeAll(r.code) && Unit(r.code, St(), funcs) == r
    {
      hide EncodeAll; hide Size; hide Registered; hide Indexed; hide Ranked; hide CRegion; hide CloseFunction;
      hide FindRecord; hide EnterFunction; hide FindConst; hide CFunc;
      ghost var base, st, was := code, St(), Table();
      DeclaredRecord(p, was, Declared(), f);
      var start := |code|;
      var nameIdx := BeginFunction(f);
      WholeRegionBelow(p, p.g.nodes[f].kind.body);
      ghost var cx, b := Context(), CBody(p, Context(), st, f);
      CompileRegion(p.g.nodes[f].kind.body, p.top);
      CloseBody(start, base, b);
      FunctionShape(p, cx, st, f);
      ghost var mid := Table();
      var rec := FuncRecord(nameIdx, p.g.nodes[f].kind.arity, |locals|, maxStack % 65536, start, |code| - start);
      funcs := funcs[debugFunc := rec];
      RecordStays(mid, Declared(), debugFunc, rec);
      AddFunctionShape(p, Declared(), was, f);
      assert [] + CFunc(p, cx, st, f).code == CFunc(p, cx, st, f).code;
    }

    // ----- Programs -----

    /** Registers the functions under their names, so that calls resolve in any order. */
    method RegisterFunctions()
      requires WellFormed(p) && St() == EMPTY.st && funcs == [] && code == []
      modifies this`pool, this`funcs
      ensures Valid() && Table() == Register(p.g, EMPTY, FuncIds(p.g, 0))
    {
      hide Registered; hide Indexed; hide Ranked; hide Register; hide FindConst; hide Intern;
      var i := 0;
      while i < |p.g.nodes|
        invariant 0 <= i <= |p.g.nodes| && code == []
        invariant Register(p.g, EMPTY, FuncIds(p.g, 0)) == Register(p.g, Table(), FuncIds(p.g, i))
      {
        var kind := p.g.nodes[i].kind;
        if kind.FuncDef? {
          RegisterShape(p.g, Table(), i);
          var nameIdx := AddConst(StrConst(kind.name));
          funcs := funcs + [FuncRecord(nameIdx, kind.arity, 0, 0, 0, 0)];
        }
        i := i + 1;
      }
      RegisterNone(p.g, Table());
      RegisteredTable(p);
    }

    /** Compiles every function in node order. */
    method CompileFunctions() returns (ghost ins: seq<Instr>)
      requires Valid() && code == [] && Table() == Register(p.g, EMPTY, FuncIds(p.g, 0))
      modifies this
      ensures Valid() && code == EncodeAll(ins) && Unit(ins, St(), funcs) == Functions(p)
    {
      hide Registered; hide Indexed; hide Ranked; hide AddFunction; hide EncodeAll; hide Register; hide CFunc;
      var i := 0;
      ins := [];
      EmptyCode();
      while i < |p.g.nodes|
        invariant 0 <= i <= |p.g.nodes| && Valid() && code == EncodeAll(ins)
        invariant Functions(p) == AddFunctions(p, Declared(), Unit(ins, St(), funcs), FuncIds(p.g, i))
      {
        if p.g.nodes[i].kind.FuncDef? {
          ghost var ids := FuncIds(p.g, i);
          assert ids[0] == i && ids[1..] == FuncIds(p.g, i + 1);
          ghost var was := Unit(ins, St(), funcs);
          ghost var r := AddFunction(p, Declared(), Unit([], St(), funcs), i);
          CompileFunction(i);
          AddFunctionAppends(p, Declared(), was, i);
          EncodeConcat(ins, r.code);
          ins := ins + r.code;
        }
        i := i + 1;
      }
    }

    /** The root region's statements. */
    method CompileRootMembers(ms: seq<nat>)
      requires Valid() && forall k :: 0 <= k < |ms| ==> MemberBelow(p, ms[k], p.top)
      modifies this
      ensures Valid() && Emitted(CRootMembers(p, old(Context()), old(St()), ms))
    {
      hide CNode; hide Registered; hide EncodeAll; hide Grows; hide Indexed; hide Ranked; hide CRootMembers;
      ghost var base, cx, all := code, Context(), CRootMembers(p, Context(), St(), ms);
      ghost var done: seq<Instr> := [];
      var i := 0;
      EmptyCode();
      assert ms[0..] == ms;
      while i < |ms|
        invariant 0 <= i <= |ms| && Valid() && Context() == cx && funcs == old(funcs) && debugFunc == old(debugFunc)
        invariant code == base + EncodeAll(done) && old(pool) <= pool
        invariant var rest := CRootMembers(p, cx, St(), ms[i..]); all.code == done + rest.code && all.st == rest.st
      {
        RootMembersShape(p, cx, St(), ms, i);
        var kind := p.g.nodes[ms[i]].kind;
        if !kind.FuncDef? && !kind.RootOutput? && !IsExprNode(kind) {
          ghost var m := CNode(p, cx, St(), ms[i]);
          CompileNode(ms[i]);
          Append(base, done, m.code);
          Shift(done, m.code, CRootMembers(p, cx, m.st, ms[i + 1..]).code);
          done := done + m.code;
        }
        i := i + 1;
      }
      assert ms[i..] == [];
      NoRootMembers(p, cx, St());
      assert all.code == done;
    }

    /** The root statements, the output printed and kept, and a halt. */
    method CompileMain()
      requires Valid()
      modifies this
      ensures Valid() && Emitted(CMain(p, old(Context()), old(St())))
    {
      hide CNode; hide Registered; hide EncodeAll; hide Grows; hide Ranked; hide CRootMembers; hide Size; hide Track;
      hide CodeGen.EmitOp; hide EmitPrint; hide CMain;
      WholeRegionBelow(p, p.g.root);
      var ms := Members(p.g, p.g.root);
      ghost var base, cx, st, b := code, Context(), St(), CRootMembers(p, Context(), St(), ms);
      CompileRootMembers(ms);
      if p.g.output != INVALID && p.g.nodes[p.g.output].kind.RootOutput? {
        ghost var v := CNode(p, cx, b.st, p.g.output);
        CompileNode(p.g.output);
        Append(base, b.code, v.code);
        EmitPrintAndHalt(base, b.code + v.code);
      } else {
        EmitOp(OP_HALT);
        TrackIsEmitOp(b.st, Halt);
        AppendOne(base, b.code, Halt);
      }
      MainShape(p, cx, st);
      StaysValid();
    }

    method EmitPrintAndHalt(ghost base: seq<Byte>, ghost a: seq<Instr>)
      requires code == base + EncodeAll(a)
      modifies this`code, this`stackDepth, this`maxStack
      ensures code == base + EncodeAll(a + [Dup, Intrinsic(INTRINSIC_PRINT, 1), Halt])
      ensures St() == CodeGen.EmitOp(EmitPrint(CodeGen.EmitOp(old(St()), Dup)), Halt)
    {
      hide EncodeAll; hide Track; hide CodeGen.EmitOp; hide EmitPrint;
      ghost var st := St();
      EmitOp(OP_DUP);
      TrackIsEmitOp(st, Dup);
      AppendOne(base, a, Dup);
      EmitPrintCall();
      AppendOne(base, a + [Dup], Intrinsic(INTRINSIC_PRINT, 1));
      EmitOp(OP_HALT);
      TrackIsEmitOp(EmitPrint(CodeGen.EmitOp(st, Dup)), Halt);
      AppendOne(base, a + [Dup] + [Intrinsic(INTRINSIC_PRINT, 1)], Halt);
      assert a + [Dup] + [Intrinsic(INTRINSIC_PRINT, 1)] + [Halt] == a + [Dup, Intrinsic(INTRINSIC_PRINT, 1), Halt];
    }

    /** Walks the code instruction by instruction and moves every call operand up by one, in place. */
    method PatchCallsForMain(ghost ins: seq<Instr>)
      requires code == EncodeAll(ins)
      modifies this`code
      ensures code == EncodeAll(Relocate(1, ins))
    {
      hide EncodeAll; hide Size; hide Relocate;
      var ip := 0;
      ghost var k := 0;
      WalkStart(ins);
      while ip < |code|
        invariant 0 <= k <= |ins| && ip == Size(ins[..k]) && |code| == Size(ins)
        invariant code == EncodeAll(Relocate(1, ins[..k])) + EncodeAll(ins[k..])
        decreases |code| - ip
      {
        WalkStep(ins, k);
        ghost var done, rest := EncodeAll(Relocate(1, ins[..k])), EncodeAll(ins[k + 1..]);
        assert code == done + ins[k].Encode() + rest && |done| == ip;
        var op := code[ip];
        var ob := OperandBytes(op);
        InstrTable(ins[k]);
        assert code[ip..ip + ins[k].Size()] == ins[k].Encode();
        if op == OP_CALL {
          assert ins[k].Call?;
          var f := (ReadU16(code, ip + 1) + 1) % 65536;
          code := code[ip + 1 := f % 256];
          code := code[ip + 2 := f / 256];
          PatchedCall(done, ins[k], rest);
        }
        ip := ip + 1 + ob;
        k := k + 1;
      }
      WalkEnd(ins, k);
    }
  }

  // ----- The walk over call operands -----

  lemma {:induction false} WalkStart(ins: seq<Instr>)
    ensures ins[..0] == [] && ins[0..] == ins && Size(ins[..0]) == 0
    ensures EncodeAll(ins) == EncodeAll(Relocate(1, ins[..0])) + EncodeAll(ins[0..]) && |EncodeAll(ins)| == Size(ins)
  {
    assert Relocate(1, ins[..0]) == [];
  }

  /** One instruction further. */
  lemma {:induction false} WalkStep(ins: seq<Instr>, k: nat)
    requires k <= |ins| && Size(ins[..k]) < Size(ins)
    ensures k < |ins| && EncodeAll(ins[k..]) == ins[k].Encode() + EncodeAll(ins[k + 1..])
    ensures Size(ins[..k + 1]) == Size(ins[..k]) + ins[k].Size()
    ensures |EncodeAll(Relocate(1, ins[..k]))| == Size(ins[..k])
    ensures EncodeAll(Relocate(1, ins[..k + 1])) == EncodeAll(Relocate(1, ins[..k])) + RelocateOne(1, ins[k]).Encode()
  {
    hide Size; hide EncodeAll;
    assert ins == ins[..k] + ins[k..];
    assert ins[..|ins|] == ins;
    if k < |ins| {
      assert ins[k..] == [ins[k]] + ins[k + 1..];
      EncodeConcat([ins[k]], ins[k + 1..]);
      EncodeOne(ins[k]);
      assert ins[..k + 1] == ins[..k] + [ins[k]];
      SizeSnoc(ins[..k], ins[k]);
      RelocateConcat(1, ins[..k], [ins[k]]);
      RelocateSize(1, ins[..k]);
      assert Relocate(1, [ins[k]]) == [RelocateOne(1, ins[k])];
      EncodeConcat(Relocate(1, ins[..k]), [RelocateOne(1, ins[k])]);
      EncodeOne(RelocateOne(1, ins[k]));
    }
  }

  lemma {:induction false} WalkEnd(ins: seq<Instr>, k: nat)
    requires k <= |ins| && Size(ins[..k]) >= Size(ins)
    ensures EncodeAll(Relocate(1, ins[..k])) + EncodeAll(ins[k..]) == EncodeAll(Relocate(1, ins))
  {
    assert ins == ins[..k] + ins[k..];
    SizeConcat(ins[..k], ins[k..]);
    assert Size(ins[k..]) == 0;
    assert k == |ins| && ins[..k] == ins && ins[k..] == [];
  }

  /** Rewriting the two operand bytes of a call is relocating it. */
  lemma PatchedCall(done: seq<Byte>, i: Instr, rest: seq<Byte>)
    requires i.Call?
    ensures var code := done + i.Encode() + rest; var ip := |done|;
            var f := (ReadU16(code, ip + 1) + 1) % 65536;
            code[ip + 1 := f % 256][ip + 2 := f / 256] == done + RelocateOne(1, i).Encode() + rest
  {
    var code, ip := done + i.Encode() + rest, |done|;
    var lo, hi := i.func % 256, i.func / 256 % 256;
    assert i.Encode() == [OP_CALL, lo, hi, i.argc % 256, 0];
    assert code[ip + 1] == lo && code[ip + 2] == hi;
    var f := (ReadU16(code, ip + 1) + 1) % 65536;
    var g := i.func + 1;
    LowHigh(i.func);
    assert RelocateOne(1, i).Encode() == [OP_CALL, g % 256, g / 256 % 256, i.argc % 256, 0];
    assert f % 256 == g % 256 && f / 256 == g / 256 % 256;
  }

  lemma Low8(x: nat, q: nat, r: nat)
    requires r < 256 && x == 256 * q + r
    ensures x / 256 == q && x % 256 == r
  {
  }

  lemma Low16(x: nat, q: nat, r: nat)
    requires r < 65536 && x == 65536 * q + r
    ensures x / 65536 == q && x % 65536 == r
  {
  }

  /** The 16-bit successor of the low half is the low half of the successor. */
  lemma LowHigh(v: nat)
    ensures var f := (v % 256 + 256 * (v / 256 % 256) + 1) % 65536; f % 256 == (v + 1) % 256 && f / 256 == (v + 1) / 256 % 256
  {
    var q, low := v / 256 / 256, v % 256 + 256 * (v / 256 % 256);
    Low16(v, q, low);
    var w, f, k := v + 1, (low + 1) % 65536, q + (low + 1) / 65536;
    assert low + 1 == 65536 * ((low + 1) / 65536) + f;
    Low16(w, k, f);
    assert f == 256 * (f / 256) + f % 256 && f / 256 < 256;
    Low8(w, 256 * k + f / 256, f % 256);
    Low8(w / 256, k, f / 256);
  }

  // ----- Function tables -----

  /** A defined function has a record, under the index of its name. */
  lemma {:induction false} DeclaredRecord(p: Program, u: Unit, names: seq<string>, f: nat)
    requires WellFormed(p) && f < |p.g.nodes| && p.g.nodes[f].kind.FuncDef?
    requires names == Names(p.g, FuncIds(p.g, 0)) && Registered(u, names)
    ensures var c := StrConst(p.g.nodes[f].kind.name);
            FindRecord(u.funcs, FindConst(u.st.pool, c)) < |u.funcs| && FindConst(u.st.pool, c) < |u.st.pool|
  {
    FuncListed(p.g, 0, f);
    var k :| 0 <= k < |FuncIds(p.g, 0)| && FuncIds(p.g, 0)[k] == f;
    assert NameAt(u, names[k], k);
  }

  lemma {:induction false} FuncListed(g: Graph, i: nat, f: nat)
    requires i <= f < |g.nodes| && g.nodes[f].kind.FuncDef?
    ensures f in FuncIds(g, i)
    decreases f - i
  {
    if i < f {
      FuncListed(g, i + 1, f);
    }
  }

  lemma BodyIndexed(p: Program, f: nat)
    requires WellFormed(p) && f < |p.g.nodes| && p.g.nodes[f].kind.FuncDef?
    ensures forall k :: 0 <= k < |Members(p.g, p.g.nodes[f].kind.body)| ==> Members(p.g, p.g.nodes[f].kind.body)[k] < |p.g.nodes|
    ensures FuncParams(p, f) == Params(p.g, Members(p.g, p.g.nodes[f].kind.body))
    ensures p.g.nodes[f].kind.body < |p.g.regions| < 0x1_0000_0000
  {
    assert NodeIndexed(p.g, f);
    assert RegionIndexed(p.g, p.g.nodes[f].kind.body);
  }

  lemma FunctionShape(p: Program, cx: Cx, st: Cst, f: nat)
    requires WellFormed(p) && f < |p.g.nodes| && p.g.nodes[f].kind.FuncDef?
    ensures var o := CloseFunction(CBody(p, cx, st, f));
            CFunc(p, cx, st, f) ==
            FuncOut(o.code, o.st, FuncRecord(FindConst(st.pool, StrConst(p.g.nodes[f].kind.name)), p.g.nodes[f].kind.arity,
                                             |o.st.locals|, o.st.max % 65536, st.len, |EncodeAll(o.code)|))
  {
    hide CBody; hide CloseFunction; hide FindConst;
  }

  lemma AddFunctionShape(p: Program, names: seq<string>, u: Unit, f: nat)
    requires WellFormed(p) && f < |p.g.nodes| && p.g.nodes[f].kind.FuncDef?
    ensures var i := FindRecord(u.funcs, FindConst(u.st.pool, StrConst(p.g.nodes[f].kind.name)));
            var o := CFunc(p, Cx(names, i), u.st, f);
            i < |u.funcs| ==> AddFunction(p, names, u, f) == Unit(u.code + o.code, o.st, u.funcs[i := o.rec])
  {
    hide CFunc;
  }

  /** Replacing a record by one with the same name keeps the table registered. */
  lemma RecordStays(u: Unit, names: seq<string>, i: nat, rec: FuncRecord)
    requires Registered(u, names) && i < |u.funcs| && rec.nameIdx == u.funcs[i].nameIdx
    ensures Registered(u.(funcs := u.funcs[i := rec]), names)
  {
    var w := u.(funcs := u.funcs[i := rec]);
    forall k | 0 <= k < |names| ensures NameAt(w, names[k], k) {
      assert NameAt(u, names[k], k);
    }
  }

  lemma RegisterShape(g: Graph, u: Unit, i: nat)
    requires i < |g.nodes| && g.nodes[i].kind.FuncDef?
    ensures var c := StrConst(g.nodes[i].kind.name);
            Register(g, u, FuncIds(g, i)) ==
            Register(g, u.(st := u.st.(pool := Intern(u.st.pool, c)),
                           funcs := u.funcs + [FuncRecord(FindConst(u.st.pool, c), g.nodes[i].kind.arity, 0, 0, 0, 0)]),
                     FuncIds(g, i + 1))
  {
    var ids := FuncIds(g, i);
    assert ids[0] == i && ids[1..] == FuncIds(g, i + 1);
  }

  lemma RegisterNone(g: Graph, u: Unit)
    ensures FuncIds(g, |g.nodes|) == [] && Register(g, u, []) == u
  {
  }

  lemma {:induction false} RegisteredTable(p: Program)
    requires WellFormed(p)
    ensures var ids := FuncIds(p.g, 0); Registered(Register(p.g, EMPTY, ids), Names(p.g, ids))
  {
    var ids := FuncIds(p.g, 0);
    assert Registered(EMPTY, []);
    RegisterRegisters(p.g, EMPTY, ids, []);
    assert [] + Names(p.g, ids) == Names(p.g, ids);
  }

  /** What a function adds does not depend on the code before it. */
  lemma AddFunctionAppends(p: Program, names: seq<string>, u: Unit, f: nat)
    requires WellFormed(p) && f < |p.g.nodes| && p.g.nodes[f].kind.FuncDef?
    ensures var r := AddFunction(p, names, u.(code := []), f);
            AddFunction(p, names, u, f) == r.(code := u.code + r.code)
  {
    hide CFunc;
    var i := FindRecord(u.funcs, FindConst(u.st.pool, StrConst(p.g.nodes[f].kind.name)));
    var o := CFunc(p, Cx(names, i), u.st, f);
    assert [] + o.code == o.code;
  }

  lemma {:induction false} RootMembersShape(p: Program, cx: Cx, st: Cst, ms: seq<nat>, i: nat)
    requires WellFormed(p) && i < |ms| && forall k :: 0 <= k < |ms| ==> MemberBelow(p, ms[k], p.top)
    ensures ms[i] < |p.g.nodes|
    ensures var k := p.g.nodes[ms[i]].kind;
            var m := if k.FuncDef? || k.RootOutput? || IsExprNode(k) then Out([], st) else CNode(p, cx, st, ms[i]);
            var rest := CRootMembers(p, cx, m.st, ms[i + 1..]);
            CRootMembers(p, cx, st, ms[i..]) == Out(m.code + rest.code, rest.st)
  {
    hide CNode; hide Grows; hide Indexed; hide Ranked;
    assert MemberBelow(p, ms[i], p.top) && ms[i..][0] == ms[i] && ms[i..][1..] == ms[i + 1..];
  }

  lemma {:induction false} MainShape(p: Program, cx: Cx, st: Cst)
    requires WellFormed(p)
    ensures RegionBelow(p, p.g.root, p.top)
    ensures var b := CRootMembers(p, cx, st, Members(p.g, p.g.root));
            CMain(p, cx, st) ==
              if HasOutput(p.g) then
                var v := CNode(p, cx, b.st, p.g.output);
                Out(b.code + v.code + [Dup, Intrinsic(INTRINSIC_PRINT, 1), Halt],
                    EmitOp(EmitPrint(EmitOp(v.st, Dup)), Halt))
              else Out(b.code + [Halt], EmitOp(b.st, Halt))
  {
    hide CRootMembers; hide CNode; hide EmitOp;
    WholeRegionBelow(p, p.g.root);
  }

  lemma NoRootMembers(p: Program, cx: Cx, st: Cst)
    requires WellFormed(p)
    ensures CRootMembers(p, cx, st, []) == Out([], st)
  {
  }

  // ----- The compiler -----

  /**
   Compiles a graph by emission and patching alone. The result is the specified image:
   its instruction starts, jump targets, records and debug ranges are those of Compile.
   */
  method CompileGraph(p: Program) returns (image: Image, success: bool)
    requires WellFormed(p)
    ensures Compiled(image, success) == Compile(p)
  {
    hide Registered; hide Indexed; hide Ranked; hide EncodeAll; hide Register; hide AddFunctions; hide CMain; hide Size;
    hide Relocate; hide Functions; hide FuncIds; hide Names; hide Compile; hide ShiftDebug; hide FindConst; hide Intern;
    var c := new Compiler(p);
    c.RegisterFunctions();
    ghost var ins := c.CompileFunctions();
    ghost var u := Functions(p);
    c.locals, c.stackDepth, c.maxStack := [], 0, 0;
    var nameIdx := c.AddConst(StrConst("main"));
    c.debugFunc := 0;
    MainEntered(u.st, c.Declared(), c.funcs, EnterMain(u.st));
    var start := |c.code|;
    ghost var m := MainCode(p);
    c.CompileMain();
    var rec := FuncRecord(nameIdx, 0, |c.locals|, c.maxStack % 65536, start, |c.code| - start);
    EncodeConcat(ins, m.code);
    assert rec.codeOffset == u.st.len;
    if |c.funcs| > 0 {
      var funcs := InsertFirst(c.funcs, rec);
      c.PatchCallsForMain(ins + m.code);
      var debug := ShiftDebugEntries(c.debug, start);
      image := Image(c.pool, funcs, c.code, debug);
    } else {
      image := Image(c.pool, [rec], c.code, c.debug);
    }
    success := !c.hadError;
    CompileShape(p);
  }

  lemma CompileShape(p: Program)
    requires WellFormed(p)
    ensures var u, m := Functions(p), MainCode(p); var code := u.code + m.code;
            var rec := FuncRecord(FindConst(u.st.pool, StrConst("main")), 0, |m.st.locals|, m.st.max % 65536,
                                  u.st.len, |EncodeAll(m.code)|);
            Compile(p) == Compiled(
              if |u.funcs| > 0
              then Image(m.st.pool, [rec] + u.funcs, EncodeAll(Relocate(1, code)), ShiftDebug(m.st.debug, u.st.len))
              else Image(m.st.pool, [rec], EncodeAll(code), m.st.debug),
              !m.st.err)
  {
    hide Functions; hide MainCode; hide Relocate; hide ShiftDebug; hide FindConst;
  }

  /** Interning the name of main keeps the function table registered. */
  lemma MainEntered(st: Cst, names: seq<string>, funcs: seq<FuncRecord>, next: Cst)
    requires Registered(Unit([], st, funcs), names) && st.pool <= next.pool
    ensures Registered(Unit([], next, funcs), names)
  {
    forall k | 0 <= k < |names| ensures NameAt(Unit([], next, funcs), names[k], k) {
      assert NameAt(Unit([], st, funcs), names[k], k);
      FindConstPrefix(st.pool, next.pool, StrConst(names[k]));
    }
  }

  /** Makes room at index 0 by moving every record up, last first. */
  method InsertFirst(table: seq<FuncRecord>, rec: FuncRecord) returns (funcs: seq<FuncRecord>)
    ensures funcs == [rec] + table
  {
    funcs := table + [FuncRecord(0, 0, 0, 0, 0, 0)];
    var i := |funcs| - 1;
    while i > 0
      invariant 0 <= i < |funcs| == |table| + 1
      invariant forall k :: 0 <= k < i ==> funcs[k] == table[k]
      invariant forall k :: i < k < |funcs| ==> funcs[k] == table[k - 1]
    {
      funcs := funcs[i := funcs[i - 1]];
      i := i - 1;
    }
    funcs := funcs[0 := rec];
  }

  /** Entries before main move up by one function, in place. */
  method ShiftDebugEntries(entries: seq<DebugEntry>, mainStart: nat) returns (debug: seq<DebugEntry>)
    ensures debug == ShiftDebug(entries, mainStart)
  {
    debug := entries;
    var i := 0;
    while i < |debug|
      invariant 0 <= i <= |debug| == |entries|
      invariant forall k :: 0 <= k < i ==> debug[k] == ShiftDebug(entries, mainStart)[k]
      invariant forall k :: i <= k < |debug| ==> debug[k] == entries[k]
    {
      if debug[i].start < mainStart {
        debug := debug[i := debug[i].(funcIdx := debug[i].funcIdx + 1)];
      }
      i := i + 1;
    }
  }

  ghost function CSourceOf(p: Program, cx: Cx, st: Cst, n: nat): (o: Out)
    requires WellFormed(p) && n < |p.g.nodes|
  {
    RoleBelow(p, n, "value");
    CSource(p, cx, st, n, InputSource(p.g, n, "value"))
  }

  lemma InputsBelow(p: Program, n: nat, ports: seq<nat>)
    requires WellFormed(p) && n < |p.g.nodes| && PortsIndexed(p.g, ports)
    requires forall k :: 0 <= k < |ports| ==> SourceBelow(p, n, ports[k])
    ensures AllBelow(p, n, InputPorts(p.g, ports))
  {
    var ins := InputPorts(p.g, ports);
    forall k | 0 <= k < |ins| ensures SourceBelow(p, n, ins[k]) {
      var j :| 0 <= j < |ports| && ports[j] == ins[k];
    }
  }

  lemma PortListsBelow(p: Program, n: nat)
    requires WellFormed(p) && n < |p.g.nodes|
    ensures forall k :: 0 <= k < |p.g.nodes[n].ports| ==> SourceBelow(p, n, p.g.nodes[n].ports[k])
    ensures forall k :: 0 <= k < |p.g.nodes[n].cyclic| ==> SourceBelow(p, n, p.g.nodes[n].cyclic[k])
    ensures PortsIndexed(p.g, p.g.nodes[n].ports) && PortsIndexed(p.g, p.g.nodes[n].cyclic)
  {
    assert Ranked(p, n) && NodeIndexed(p.g, n);
  }

  lemma EmptyCode()
    ensures EncodeAll([]) == [] && Size([]) == 0
  {
  }
}
