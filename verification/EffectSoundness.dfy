/**
 Static effects bound run-time behaviour: interpreting code whose collected effects
 lack the logger prints nothing, through any depth of calls, branches and loops.
 */
module EffectSoundness {
  import opened Values
  import opened SemanticGraph
  import opened Interpreter
  import opened Reachability
  import opened Validation
  import opened Architecture

  // ----- Node sets closed under execution -----

  /** The source of the port, if any, is in the set. */
  predicate SourceIn(g: Graph, ns: set<nat>, port: nat)
    requires Indexed(g)
  {
    FindSource(g, port) == INVALID || FindSource(g, port) in ns
  }

  predicate MembersIn(g: Graph, ns: set<nat>, r: nat) {
    forall k :: 0 <= k < |Members(g, r)| ==> Members(g, r)[k] in ns
  }

  /** A node that does not print, whose inputs come from the set and which runs only regions of the set. */
  predicate QuietNode(g: Graph, ns: set<nat>, n: nat)
    requires Indexed(g)
  {
    && n < |g.nodes| && !g.nodes[n].kind.Print?
    && (forall k :: 0 <= k < |g.nodes[n].ports| ==> SourceIn(g, ns, g.nodes[n].ports[k]))
    && (forall k :: 0 <= k < |g.nodes[n].cyclic| ==> SourceIn(g, ns, g.nodes[n].cyclic[k]))
    && (forall r :: r in NodeRegions(g, g.nodes[n].kind) ==> MembersIn(g, ns, r))
  }

  predicate Quiet(g: Graph, ns: set<nat>)
    requires Indexed(g)
  {
    forall n :: n in ns ==> QuietNode(g, ns, n)
  }

  /** Every source a node reads through is in the set. */
  lemma {:induction false} SourcesIn(g: Graph, ns: set<nat>, n: nat, role: string, port: nat)
    requires Indexed(g) && Quiet(g, ns) && n in ns
    ensures n < |g.nodes|
    ensures port in g.nodes[n].ports || port in g.nodes[n].cyclic || port == INVALID ==> SourceIn(g, ns, port)
    ensures RoleSource(g, n, role) == INVALID || RoleSource(g, n, role) in ns
    ensures InputSource(g, n, role) == INVALID || InputSource(g, n, role) in ns
  {
    assert QuietNode(g, ns, n);
    NoSourceOfInvalid(g);
    PortIn(g, ns, n, port);
    PortIn(g, ns, n, FindPort(g, n, role));
    PortIn(g, ns, n, FindPort(g, n, "in"));
  }

  lemma PortIn(g: Graph, ns: set<nat>, n: nat, port: nat)
    requires Indexed(g) && QuietNode(g, ns, n)
    ensures port in g.nodes[n].ports || port in g.nodes[n].cyclic ==> SourceIn(g, ns, port)
  {
    if port in g.nodes[n].ports {
      var k :| 0 <= k < |g.nodes[n].ports| && g.nodes[n].ports[k] == port;
    } else if port in g.nodes[n].cyclic {
      var k :| 0 <= k < |g.nodes[n].cyclic| && g.nodes[n].cyclic[k] == port;
    }
  }

  lemma {:induction false} OperandIn(g: Graph, ns: set<nat>, n: nat, k: nat)
    requires Indexed(g) && Quiet(g, ns) && n in ns && k < 2
    ensures n < |g.nodes|
    ensures InterpOperand(g, n, k) == INVALID || InterpOperand(g, n, k) in ns
  {
    assert QuietNode(g, ns, n);
    SourcesIn(g, ns, n, if k == 0 then "lhs" else "rhs", CyclicPort(g, n, k));
  }

  lemma {:induction false} ArgsIn(g: Graph, ns: set<nat>, n: nat)
    requires Indexed(g) && Quiet(g, ns) && n in ns
    ensures n < |g.nodes| && forall k :: 0 <= k < |ArgPorts(g, n)| ==> SourceIn(g, ns, ArgPorts(g, n)[k])
  {
    assert QuietNode(g, ns, n);
    forall k | 0 <= k < |ArgPorts(g, n)| ensures SourceIn(g, ns, ArgPorts(g, n)[k]) {
      SourcesIn(g, ns, n, "", ArgPorts(g, n)[k]);
    }
  }

  /** The members of a branch, loop body or callee of a quiet node are in the set. */
  lemma {:induction false} RegionIn(g: Graph, ns: set<nat>, n: nat, r: nat)
    requires Indexed(g) && Quiet(g, ns) && n in ns
    ensures n < |g.nodes|
    ensures r in Children(g.nodes[n].kind) && r != INVALID ==> MembersIn(g, ns, r)
    ensures g.nodes[n].kind.FuncCall? && FindFunc(g, g.nodes[n].kind.name) != INVALID ==>
              MembersIn(g, ns, g.nodes[FindFunc(g, g.nodes[n].kind.name)].kind.body)
  {
    assert QuietNode(g, ns, n) && NodeIndexed(g, n);
    var k := g.nodes[n].kind;
    if r in Children(k) && r != INVALID {
      assert r in NodeRegions(g, k);
    }
    if k.FuncCall? && FindFunc(g, k.name) != INVALID {
      var f := FindFunc(g, k.name);
      assert NodeIndexed(g, f);
      assert g.nodes[f].kind.body in NodeRegions(g, k);
    }
  }

  // ----- Evaluation prints nothing -----

  lemma {:induction false} EvalPrintsNothing(p: Program, ns: set<nat>, c: Ctx, vars: Vars, io: Io, n: nat)
    requires WellFormed(p) && Quiet(p.g, ns) && n in ns && c.fp <= FRAMES_MAX
    ensures n < |p.g.nodes| && EvalNode(p, c, vars, io, n).io.out == io.out
    decreases FRAMES_MAX - c.fp, if n < |p.rank| then p.rank[n] else 0, 2, 0
  {
    hide Quiet; hide Indexed; hide Ranked; hide EvalSource; hide EvalShortCircuit; hide EvalCall; hide InterpOperand;
    hide InputSource; hide RoleSource; hide InterpBinary; hide InterpUnary;
    SourcesIn(p.g, ns, n, "value", INVALID);
    if !io.err && !io.returned {
      var k := p.g.nodes[n].kind;
      if k.BinaryNode? {
        OperandBelow(p, n, 0);
        OperandBelow(p, n, 1);
        OperandIn(p.g, ns, n, 0);
        OperandIn(p.g, ns, n, 1);
        var l := EvalSource(p, c, vars, io, n, InterpOperand(p.g, n, 0));
        SourcePrintsNothing(p, ns, c, vars, io, n, InterpOperand(p.g, n, 0));
        SourcePrintsNothing(p, ns, c, vars, l.io, n, InterpOperand(p.g, n, 1));
      } else if k.UnaryNode? || k.RootOutput? {
        RoleBelow(p, n, "value");
        SourcePrintsNothing(p, ns, c, vars, io, n, InputSource(p.g, n, "value"));
      } else if k.And? || k.Or? {
        ShortCircuitPrintsNothing(p, ns, c, vars, io, n, k.Or?);
      } else if k.FuncCall? {
        CallPrintsNothing(p, ns, c, vars, io, n, k.name);
      }
    }
  }

  lemma {:induction false} SourcePrintsNothing(p: Program, ns: set<nat>, c: Ctx, vars: Vars, io: Io, n: nat, s: nat)
    requires WellFormed(p) && Quiet(p.g, ns) && n < |p.g.nodes| && c.fp <= FRAMES_MAX
    requires s == INVALID || (s < |p.g.nodes| && p.rank[s] < p.rank[n] && s in ns)
    ensures EvalSource(p, c, vars, io, n, s).io.out == io.out
    decreases FRAMES_MAX - c.fp, p.rank[n], 0, 0
  {
    hide Quiet; hide Indexed; hide Ranked; hide EvalNode;
    if s != INVALID {
      EvalPrintsNothing(p, ns, c, vars, io, s);
    }
  }

  lemma {:induction false} ShortCircuitPrintsNothing(p: Program, ns: set<nat>, c: Ctx, vars: Vars, io: Io, n: nat, isOr: bool)
    requires WellFormed(p) && Quiet(p.g, ns) && n in ns && n < |p.g.nodes| && c.fp <= FRAMES_MAX
    ensures EvalShortCircuit(p, c, vars, io, n, isOr).io.out == io.out
    decreases FRAMES_MAX - c.fp, p.rank[n], 1, 0
  {
    hide Quiet; hide Indexed; hide Ranked; hide EvalSource; hide RoleSource;
    RoleBelow(p, n, "lhs");
    RoleBelow(p, n, "rhs");
    SourcesIn(p.g, ns, n, "lhs", INVALID);
    SourcesIn(p.g, ns, n, "rhs", INVALID);
    var l := EvalSource(p, c, vars, io, n, RoleSource(p.g, n, "lhs"));
    SourcePrintsNothing(p, ns, c, vars, io, n, RoleSource(p.g, n, "lhs"));
    SourcePrintsNothing(p, ns, c, vars, l.io, n, RoleSource(p.g, n, "rhs"));
  }

  lemma {:induction false} CallPrintsNothing(p: Program, ns: set<nat>, c: Ctx, vars: Vars, io: Io, n: nat, name: string)
    requires WellFormed(p) && Quiet(p.g, ns) && n in ns && n < |p.g.nodes| && p.g.nodes[n].kind == FuncCall(name)
    requires c.fp <= FRAMES_MAX && !io.err && !io.returned
    ensures EvalCall(p, c, vars, io, n, name).io.out == io.out
    decreases FRAMES_MAX - c.fp, p.rank[n], 1, 0
  {
    hide Quiet; hide Ranked; hide EvalArgs; hide EvalBody; hide ArgPorts; hide SourceBelow; hide SourceIn;
    var f := FindFunc(p.g, name);
    if f != INVALID {
      ArgsBelow(p, n);
      ArgsIn(p.g, ns, n);
      RegionIn(p.g, ns, n, INVALID);
      var all := ArgPorts(p.g, n);
      var ports := if |all| > 16 then all[..16] else all;
      ArgsPrintNothing(p, ns, c, vars, io, n, ports);
      var args := EvalArgs(p, c, vars, io, n, ports);
      if c.fp < FRAMES_MAX {
        BodyPrintsNothing(p, ns, Ctx(c.fp + 1, c.outer + |vars|), args.io, f, args.vs);
      }
    }
  }

  lemma {:induction false} ArgsPrintNothing(p: Program, ns: set<nat>, c: Ctx, vars: Vars, io: Io, n: nat, ports: seq<nat>)
    requires WellFormed(p) && Quiet(p.g, ns) && n < |p.g.nodes| && c.fp <= FRAMES_MAX
    requires forall k :: 0 <= k < |ports| ==> SourceBelow(p, n, ports[k]) && SourceIn(p.g, ns, ports[k])
    ensures EvalArgs(p, c, vars, io, n, ports).io.out == io.out
    decreases FRAMES_MAX - c.fp, p.rank[n], 0, |ports|
  {
    hide Quiet; hide Indexed; hide Ranked; hide EvalNode; hide FindSource;
    if ports != [] {
      assert SourceBelow(p, n, ports[0]) && SourceIn(p.g, ns, ports[0]);
      var s := FindSource(p.g, ports[0]);
      if s != INVALID {
        EvalPrintsNothing(p, ns, c, vars, io, s);
      }
      var v := if s == INVALID then Res(Null, io) else EvalNode(p, c, vars, io, s);
      ArgsPrintNothing(p, ns, c, vars, v.io, n, ports[1..]);
    }
  }

  lemma {:induction false} BodyPrintsNothing(p: Program, ns: set<nat>, c: Ctx, io: Io, f: nat, args: seq<Value>)
    requires WellFormed(p) && Quiet(p.g, ns) && f < |p.g.nodes| && p.g.nodes[f].kind.FuncDef? && c.fp <= FRAMES_MAX
    requires MembersIn(p.g, ns, p.g.nodes[f].kind.body)
    ensures EvalBody(p, c, io, f, args).io.out == io.out
    decreases FRAMES_MAX - c.fp, p.top, 2, 0
  {
    hide Quiet; hide Indexed; hide Ranked; hide ExecRegion; hide BindParams; hide MembersIn; hide RegionBelow;
    var body := p.g.nodes[f].kind.body;
    WholeRegionBelow(p, body);
    MembersInTable(p, body);
    var s := BindParams(p.g, c.outer, State([], io), Members(p.g, body), args);
    RegionPrintsNothing(p, ns, c, s.(io := s.io.(returned := false)), body, p.top);
  }

  lemma MembersInTable(p: Program, r: nat)
    requires WellFormed(p) && RegionBelow(p, r, p.top)
    ensures forall k :: 0 <= k < |Members(p.g, r)| ==> Members(p.g, r)[k] < |p.g.nodes|
  {
    forall k | 0 <= k < |Members(p.g, r)| ensures Members(p.g, r)[k] < |p.g.nodes| {
      assert MemberBelow(p, Members(p.g, r)[k], p.top);
    }
  }

  // ----- Statements print nothing -----

  lemma {:induction false} RegionPrintsNothing(p: Program, ns: set<nat>, c: Ctx, st: State, r: nat, bound: nat)
    requires WellFormed(p) && Quiet(p.g, ns) && c.fp <= FRAMES_MAX && RegionBelow(p, r, bound)
    requires r != INVALID ==> MembersIn(p.g, ns, r)
    ensures ExecRegion(p, c, st, r, bound).io.out == st.io.out
    decreases FRAMES_MAX - c.fp, bound, 1, |Members(p.g, r)| + 1
  {
    hide Quiet; hide Indexed; hide Ranked; hide ExecMembers;
    if r != INVALID && !st.io.err {
      MembersPrintNothing(p, ns, c, st, Members(p.g, r), bound);
    }
  }

  lemma {:induction false} MembersPrintNothing(p: Program, ns: set<nat>, c: Ctx, st: State, ms: seq<nat>, bound: nat)
    requires WellFormed(p) && Quiet(p.g, ns) && c.fp <= FRAMES_MAX
    requires forall k :: 0 <= k < |ms| ==> MemberBelow(p, ms[k], bound) && ms[k] in ns
    ensures ExecMembers(p, c, st, ms, bound).io.out == st.io.out
    decreases FRAMES_MAX - c.fp, bound, 1, |ms|
  {
    hide Quiet; hide Indexed; hide Ranked; hide ExecStmt;
    if ms != [] && !st.io.err && !st.io.returned {
      assert MemberBelow(p, ms[0], bound) && ms[0] in ns;
      var k := p.g.nodes[ms[0]].kind;
      if !(k.Param? || IsInterpExpr(k)) {
        StmtPrintsNothing(p, ns, c, st, ms[0]);
      }
      var next := if k.Param? || IsInterpExpr(k) then st else ExecStmt(p, c, st, ms[0]);
      MembersPrintNothing(p, ns, c, next, ms[1..], bound);
    }
  }

  lemma {:induction false} StmtPrintsNothing(p: Program, ns: set<nat>, c: Ctx, st: State, n: nat)
    requires WellFormed(p) && Quiet(p.g, ns) && n in ns && n < |p.g.nodes| && c.fp <= FRAMES_MAX
    ensures ExecStmt(p, c, st, n).io.out == st.io.out
    decreases FRAMES_MAX - c.fp, p.rank[n], 3, 0
  {
    hide Indexed; hide Ranked; hide EvalSource; hide InputSource; hide RoleSource; hide ExecRegion; hide ExecWhile;
    hide ExecCycle; hide RegionBelow; hide MembersIn; hide SetVar;
    assert QuietNode(p.g, ns, n);
    hide QuietNode; hide Quiet;
    RoleBelow(p, n, "value");
    RoleBelow(p, n, "cond");
    SourcesIn(p.g, ns, n, "value", INVALID);
    SourcesIn(p.g, ns, n, "cond", INVALID);
    var k := p.g.nodes[n].kind;
    assert !k.Print? by { NotPrint(p.g, ns, n); }
    if k.If? {
      var v := EvalSource(p, c, st.vars, st.io, n, InputSource(p.g, n, "cond"));
      SourcePrintsNothing(p, ns, c, st.vars, st.io, n, InputSource(p.g, n, "cond"));
      ChildIn(p, ns, n, if Truthy(v.v) then k.thenRegion else k.elseRegion);
      RegionPrintsNothing(p, ns, c, State(st.vars, v.io), if Truthy(v.v) then k.thenRegion else k.elseRegion, p.rank[n]);
    } else if k.While? {
      WhilePrintsNothing(p, ns, c, st, n, LOOP_LIMIT);
    } else if k.Cycle? {
      CyclePrintsNothing(p, ns, c, st, n, LOOP_LIMIT);
    } else {
      SourcePrintsNothing(p, ns, c, st.vars, st.io, n, InputSource(p.g, n, "value"));
      SettingPrintsNothing(c.outer);
    }
  }

  lemma NotPrint(g: Graph, ns: set<nat>, n: nat)
    requires Indexed(g) && QuietNode(g, ns, n)
    ensures !g.nodes[n].kind.Print?
  {
  }

  lemma SettingPrintsNothing(outer: nat)
    ensures forall st, name, v :: SetVar(outer, st, name, v).io.out == st.io.out
  {
  }

  /** A branch or loop body of a quiet node: below the node, and inside the set. */
  lemma {:induction false} ChildIn(p: Program, ns: set<nat>, n: nat, r: nat)
    requires WellFormed(p) && Quiet(p.g, ns) && n in ns && n < |p.g.nodes| && r in Children(p.g.nodes[n].kind)
    ensures RegionBelow(p, r, p.rank[n]) && (r != INVALID ==> MembersIn(p.g, ns, r))
  {
    assert Ranked(p, n);
    RegionIn(p.g, ns, n, r);
  }

  lemma {:induction false} WhilePrintsNothing(p: Program, ns: set<nat>, c: Ctx, st: State, n: nat, left: nat)
    requires WellFormed(p) && Quiet(p.g, ns) && n in ns && n < |p.g.nodes| && c.fp <= FRAMES_MAX && p.g.nodes[n].kind.While?
    ensures ExecWhile(p, c, st, n, left).io.out == st.io.out
    decreases FRAMES_MAX - c.fp, p.rank[n], 2, left
  {
    hide Quiet; hide Indexed; hide Ranked; hide EvalSource; hide InputSource; hide ExecRegion; hide RegionBelow; hide MembersIn;
    if left != 0 && !st.io.err && !st.io.returned {
      RoleBelow(p, n, "cond");
      SourcesIn(p.g, ns, n, "cond", INVALID);
      var body := p.g.nodes[n].kind.body;
      ChildIn(p, ns, n, body);
      var v := EvalSource(p, c, st.vars, st.io, n, InputSource(p.g, n, "cond"));
      SourcePrintsNothing(p, ns, c, st.vars, st.io, n, InputSource(p.g, n, "cond"));
      if Truthy(v.v) {
        RegionPrintsNothing(p, ns, c, State(st.vars, v.io), body, p.rank[n]);
        WhilePrintsNothing(p, ns, c, ExecRegion(p, c, State(st.vars, v.io), body, p.rank[n]), n, left - 1);
      }
    }
  }

  lemma {:induction false} CyclePrintsNothing(p: Program, ns: set<nat>, c: Ctx, st: State, n: nat, left: nat)
    requires WellFormed(p) && Quiet(p.g, ns) && n in ns && n < |p.g.nodes| && c.fp <= FRAMES_MAX && p.g.nodes[n].kind.Cycle?
    ensures ExecCycle(p, c, st, n, left).io.out == st.io.out
    decreases FRAMES_MAX - c.fp, p.rank[n], 2, left
  {
    hide Quiet; hide Indexed; hide Ranked; hide ExecCycleBody;
    if left != 0 && !st.io.err && !st.io.returned {
      var body := p.g.nodes[n].kind.body;
      ChildIn(p, ns, n, body);
      if body != INVALID {
        var b := ExecCycleBody(p, c, st, Members(p.g, body), p.rank[n]);
        TurnPrintsNothing(p, ns, c, st, Members(p.g, body), p.rank[n]);
        if !b.broke {
          CyclePrintsNothing(p, ns, c, b.st, n, left - 1);
        }
      }
    }
  }

  lemma {:induction false} TurnPrintsNothing(p: Program, ns: set<nat>, c: Ctx, st: State, ms: seq<nat>, bound: nat)
    requires WellFormed(p) && Quiet(p.g, ns) && c.fp <= FRAMES_MAX
    requires forall k :: 0 <= k < |ms| ==> MemberBelow(p, ms[k], bound) && ms[k] in ns
    ensures ExecCycleBody(p, c, st, ms, bound).st.io.out == st.io.out
    decreases FRAMES_MAX - c.fp, bound, 1, |ms|
  {
    hide Quiet; hide Indexed; hide Ranked; hide ExecStmt; hide EvalSource; hide InputSource;
    if ms != [] {
      assert MemberBelow(p, ms[0], bound) && ms[0] in ns;
      var k := p.g.nodes[ms[0]].kind;
      if k.BreakIf? {
        RoleBelow(p, ms[0], "cond");
        SourcesIn(p.g, ns, ms[0], "cond", INVALID);
        var v := EvalSource(p, c, st.vars, st.io, ms[0], InputSource(p.g, ms[0], "cond"));
        SourcePrintsNothing(p, ns, c, st.vars, st.io, ms[0], InputSource(p.g, ms[0], "cond"));
        if !Truthy(v.v) {
          TurnPrintsNothing(p, ns, c, State(st.vars, v.io), ms[1..], bound);
        }
      } else {
        if !(k.Param? || IsInterpExpr(k)) {
          StmtPrintsNothing(p, ns, c, st, ms[0]);
        }
        var next := if k.Param? || IsInterpExpr(k) then st else ExecStmt(p, c, st, ms[0]);
        TurnPrintsNothing(p, ns, c, next, ms[1..], bound);
      }
    }
  }

  // ----- From collected effects to runs -----

  predicate MemberOfSome(g: Graph, rs: set<nat>, n: nat) { exists r :: r in rs && n in Members(g, r) }

  function NodesOf(g: Graph, rs: set<nat>): set<nat> {
    set n: nat | n < |g.nodes| && MemberOfSome(g, rs, n)
  }

  /** Every value a member of the regions reads comes from a member of the regions. */
  predicate FedFromInside(g: Graph, rs: set<nat>)
    requires Indexed(g)
  {
    forall n :: n in NodesOf(g, rs) ==>
      (forall k :: 0 <= k < |g.nodes[n].ports| ==> SourceIn(g, NodesOf(g, rs), g.nodes[n].ports[k])) &&
      (forall k :: 0 <= k < |g.nodes[n].cyclic| ==> SourceIn(g, NodesOf(g, rs), g.nodes[n].cyclic[k]))
  }

  /** Everything a covered region runs is covered. */
  lemma {:induction false} CoveredClosed(g: Graph, r: nat, q: nat)
    requires |g.nodes| <= INVALID && q in Covered(g, r)
    ensures Runs(g, q) <= Covered(g, r)
  {
    var e := RegionGraph(g);
    var n: nat :| q in Within<nat>(e, {r}, n);
    forall x | x in Runs(g, q) ensures x in Covered(g, r) {
      RunsInTable(g, q);
      assert x in e[q];
      assert x in Within<nat>(e, {r}, n + 1);
    }
  }

  lemma {:induction false} RunsInTable(g: Graph, r: nat)
    requires |g.nodes| <= INVALID
    ensures forall x :: x in Runs(g, r) ==> x < |g.regions|
  {
    MemberRegionsInTable(g, r, |Members(g, r)|);
  }

  lemma {:induction false} MemberRegionsInTable(g: Graph, r: nat, m: nat)
    requires |g.nodes| <= INVALID && m <= |Members(g, r)|
    ensures forall x :: x in MemberRegions(g, r, m) ==> x < |g.regions|
  {
    if m > 0 {
      MemberRegionsInTable(g, r, m - 1);
    }
  }

  /** A member's own effects and regions are among its region's. */
  lemma {:induction false} MemberCounts(g: Graph, r: nat, k: nat, m: nat)
    requires |g.nodes| <= INVALID && k < m <= |Members(g, r)| && Members(g, r)[k] < |g.nodes|
    ensures NodeEffects(g.nodes[Members(g, r)[k]].kind) <= MemberEffects(g, r, m)
    ensures NodeRegions(g, g.nodes[Members(g, r)[k]].kind) <= MemberRegions(g, r, m)
  {
    hide NodeEffects; hide NodeRegions;
    if k < m - 1 {
      MemberCounts(g, r, k, m - 1);
    }
  }

  lemma {:induction false} CoveredIsQuiet(g: Graph, r: nat, n: nat)
    requires Indexed(g) && FedFromInside(g, Covered(g, r)) && Logger !in AllEffects(g, Covered(g, r))
    requires n in NodesOf(g, Covered(g, r))
    ensures QuietNode(g, NodesOf(g, Covered(g, r)), n)
  {
    hide MemberEffects; hide MemberRegions; hide Covered; hide NodeIndexed;
    var rs := Covered(g, r);
    var q :| q in rs && n in Members(g, q);
    var k :| 0 <= k < |Members(g, q)| && Members(g, q)[k] == n;
    MemberCounts(g, q, k, |Members(g, q)|);
    CoveredClosed(g, r, q);
    assert RegionEffects(g, q) <= AllEffects(g, rs);
    forall x | x in NodeRegions(g, g.nodes[n].kind) ensures MembersIn(g, NodesOf(g, rs), x) {
      assert x in rs;
      RegionMembersListed(g, rs, x);
    }
  }

  lemma RegionMembersListed(g: Graph, rs: set<nat>, x: nat)
    requires Indexed(g) && x in rs
    ensures MembersIn(g, NodesOf(g, rs), x)
  {
    if x < |g.regions| {
      assert RegionIndexed(g, x);
    }
  }

  /** A region whose closure has no logger effect and reads no value from outside prints nothing when interpreted. */
  lemma {:induction false} NoLoggerNoPrint(p: Program, c: Ctx, st: State, r: nat, bound: nat)
    requires WellFormed(p) && r < |p.g.regions| && c.fp <= FRAMES_MAX && RegionBelow(p, r, bound)
    requires FedFromInside(p.g, Covered(p.g, r)) && Logger !in AllEffects(p.g, Covered(p.g, r))
    ensures ExecRegion(p, c, st, r, bound).io.out == st.io.out
  {
    hide FedFromInside; hide AllEffects; hide ExecRegion; hide NodeIndexed; hide Ranked; hide RegionBelow;
    var rs := Covered(p.g, r);
    CoversItself(p.g, r);
    forall n | n in NodesOf(p.g, rs) ensures QuietNode(p.g, NodesOf(p.g, rs), n) {
      CoveredIsQuiet(p.g, r, n);
    }
    RegionMembersListed(p.g, rs, r);
    RegionPrintsNothing(p, NodesOf(p.g, rs), c, st, r, bound);
  }

  /** What the verifier's acceptance promises about runs of a sealed region without the logger capability. */
  lemma {:induction false} SealedPrintsNothing(p: Program, spec: Spec, i: nat, c: Ctx, st: State, bound: nat)
    requires WellFormed(p) && i < |spec.sealings| && spec.sealings[i].isSealed && spec.sealings[i].region < |p.g.regions|
    requires WithinCapabilities(p.g, spec.sealings[i]) && Logger !in spec.sealings[i].capabilities
    requires FedFromInside(p.g, Covered(p.g, spec.sealings[i].region))
    requires c.fp <= FRAMES_MAX && RegionBelow(p, spec.sealings[i].region, bound)
    ensures ExecRegion(p, c, st, spec.sealings[i].region, bound).io.out == st.io.out
  {
    hide FedFromInside; hide ExecRegion; hide Covered; hide NodeIndexed; hide Ranked; hide RegionBelow;
    NoLoggerNoPrint(p, c, st, spec.sealings[i].region, bound);
  }

  // ----- Without a condition on value edges -----

  /** The nodes a node reads values from, through edges from any region. */
  function Reads(g: Graph, n: nat): set<nat>
    requires Indexed(g) && n < |g.nodes|
  {
    set port | port in g.nodes[n].ports + g.nodes[n].cyclic && FindSource(g, port) != INVALID :: FindSource(g, port)
  }

  function MemberSet(g: Graph, r: nat): set<nat> { set n | n in Members(g, r) }

  /** The members of the regions a node runs. */
  function RunMembers(g: Graph, n: nat): set<nat>
    requires |g.nodes| <= INVALID && n < |g.nodes|
  {
    set r, m | r in NodeRegions(g, g.nodes[n].kind) && m in MemberSet(g, r) :: m
  }

  function NodeGraph(g: Graph): Edges<nat>
    requires Indexed(g)
  {
    map n: nat | n < |g.nodes| :: Reads(g, n) + RunMembers(g, n)
  }

  /** What running a region can evaluate or execute: closed under value edges as well as under the regions run. */
  ghost function Runnable(g: Graph, r: nat): set<nat>
    requires Indexed(g)
  {
    set n: nat | n < |g.nodes| && Reachable<nat>(NodeGraph(g), MemberSet(g, r), n)
  }

  lemma {:induction false} TargetsIn(g: Graph, n: nat)
    requires Indexed(g) && n < |g.nodes|
    ensures forall x :: x in NodeGraph(g)[n] ==> x < |g.nodes|
  {
    forall x | x in RunMembers(g, n) ensures x < |g.nodes| {
      var r :| r in NodeRegions(g, g.nodes[n].kind) && x in MemberSet(g, r);
      assert RegionIndexed(g, r);
    }
  }

  lemma {:induction false} RunnableClosed(g: Graph, r: nat, n: nat)
    requires Indexed(g) && n in Runnable(g, r)
    ensures NodeGraph(g)[n] <= Runnable(g, r)
  {
    var e, roots := NodeGraph(g), MemberSet(g, r);
    var k: nat :| n in Within<nat>(e, roots, k);
    TargetsIn(g, n);
    forall x | x in e[n] ensures x in Runnable(g, r) {
      assert x in Next<nat>(e, Within<nat>(e, roots, k));
      assert x in Within<nat>(e, roots, k + 1);
    }
  }

  lemma {:induction false} RunnableQuiet(g: Graph, r: nat, n: nat)
    requires Indexed(g) && n in Runnable(g, r) && !g.nodes[n].kind.Print?
    ensures QuietNode(g, Runnable(g, r), n)
  {
    RunnableClosed(g, r, n);
    hide Runnable; hide NodeIndexed;
    var ns := Runnable(g, r);
    forall port | port in g.nodes[n].ports + g.nodes[n].cyclic ensures SourceIn(g, ns, port) {
      assert FindSource(g, port) != INVALID ==> FindSource(g, port) in Reads(g, n);
    }
    forall x | x in NodeRegions(g, g.nodes[n].kind) ensures MembersIn(g, ns, x) {
      forall k | 0 <= k < |Members(g, x)| ensures Members(g, x)[k] in ns {
        assert Members(g, x)[k] in MemberSet(g, x);
        assert Members(g, x)[k] in RunMembers(g, n);
      }
    }
  }

  lemma RunnableMembers(g: Graph, r: nat)
    requires Indexed(g) && r < |g.regions|
    ensures MembersIn(g, Runnable(g, r), r)
  {
    assert RegionIndexed(g, r);
    forall k | 0 <= k < |Members(g, r)| ensures Members(g, r)[k] in Runnable(g, r) {
      RootReachable<nat>(NodeGraph(g), MemberSet(g, r), Members(g, r)[k]);
    }
  }

  /** A region prints nothing when no print node is reachable from it through value edges, branches, loops and calls. */
  lemma {:induction false} NoRunnablePrint(p: Program, c: Ctx, st: State, r: nat, bound: nat)
    requires WellFormed(p) && r < |p.g.regions| && c.fp <= FRAMES_MAX && RegionBelow(p, r, bound)
    requires forall n :: n in Runnable(p.g, r) ==> !p.g.nodes[n].kind.Print?
    ensures ExecRegion(p, c, st, r, bound).io.out == st.io.out
  {
    hide ExecRegion; hide NodeIndexed; hide Ranked; hide RegionBelow; hide QuietNode; hide MembersIn;
    forall n | n in Runnable(p.g, r) ensures QuietNode(p.g, Runnable(p.g, r), n) {
      RunnableQuiet(p.g, r, n);
    }
    hide Runnable;
    RunnableMembers(p.g, r);
    RegionPrintsNothing(p, Runnable(p.g, r), c, st, r, bound);
  }

  lemma CoversItself(g: Graph, r: nat)
    requires |g.nodes| <= INVALID && r < |g.regions|
    ensures r in Covered(g, r)
  {
    RootReachable<nat>(RegionGraph(g), {r}, r);
  }

  lemma {:induction false} CoveredFeeds(g: Graph, r: nat, n: nat)
    requires Indexed(g) && FedFromInside(g, Covered(g, r)) && n in NodesOf(g, Covered(g, r))
    ensures NodeGraph(g)[n] <= NodesOf(g, Covered(g, r))
  {
    hide MemberRegions; hide Covered; hide NodeIndexed;
    var rs := Covered(g, r);
    var q :| q in rs && n in Members(g, q);
    var k :| 0 <= k < |Members(g, q)| && Members(g, q)[k] == n;
    MemberCounts(g, q, k, |Members(g, q)|);
    CoveredClosed(g, r, q);
    forall port | port in g.nodes[n].ports + g.nodes[n].cyclic ensures SourceIn(g, NodesOf(g, rs), port) {
    }
    forall x | x in RunMembers(g, n) ensures x in NodesOf(g, rs) {
      var y :| y in NodeRegions(g, g.nodes[n].kind) && x in MemberSet(g, y);
      assert y in rs;
      RegionMembersListed(g, rs, y);
    }
  }

  /** Under the condition on value edges the walk over regions already sees all of it. */
  lemma {:induction false} RunnableIsCovered(g: Graph, r: nat)
    requires Indexed(g) && r < |g.regions| && FedFromInside(g, Covered(g, r))
    ensures Runnable(g, r) <= NodesOf(g, Covered(g, r))
  {
    hide FedFromInside; hide NodeIndexed; hide NodesOf; hide Covered;
    var e, held := NodeGraph(g), NodesOf(g, Covered(g, r));
    CoversItself(g, r);
    RegionMembersListed(g, Covered(g, r), r);
    forall n | n in held && n in e ensures e[n] <= held {
      CoveredFeeds(g, r, n);
    }
    forall n | n in Runnable(g, r) ensures n in held {
      var k: nat :| n in Within<nat>(e, MemberSet(g, r), k);
      ClosedHolds<nat>(e, held, MemberSet(g, r), k);
    }
  }

  // ----- Values from outside -----

  /** A sealed region binding the result of a call made outside it, to a function that prints. */
  const LEAK: Graph := Graph(
    [Node(0, Let("x"), 1, 0, [0], []),
     Node(1, FuncCall("f"), 0, 0, [1], []),
     Node(2, FuncDef("f", 2, 0), 0, 0, [], []),
     Node(3, Print, 2, 0, [2], []),
     Node(4, ConstInt(7), 2, 0, [3], [])],
    [Port(0, 0, Input, Some("value")), Port(1, 1, Output, None),
     Port(2, 3, Input, Some("value")), Port(3, 4, Output, None)],
    [Edge(0, 1, 0), Edge(1, 3, 2)],
    [Region(0, INVALID, [1, 2]), Region(1, 0, [0]), Region(2, 0, [3, 4])],
    0, INVALID)

  const LEAKING: Program := Program(LEAK, [2, 1, 0, 1, 0], 3, false)

  lemma LeakIndexed()
    ensures Indexed(LEAK)
  {
  }

  lemma LeakSources()
    ensures Indexed(LEAK)
    ensures FindSource(LEAK, 0) == 1 && FindSource(LEAK, 1) == INVALID && FindSource(LEAK, 2) == 4 && FindSource(LEAK, 3) == INVALID
  {
    LeakIndexed();
    hide Indexed;
    assert SourceFrom(LEAK, 0, 0) == 1;
    assert SourceFrom(LEAK, 1, 0) == SourceFrom(LEAK, 1, 1) == SourceFrom(LEAK, 1, 2) == INVALID;
    assert SourceFrom(LEAK, 2, 0) == SourceFrom(LEAK, 2, 1) == 4;
    assert SourceFrom(LEAK, 3, 0) == SourceFrom(LEAK, 3, 1) == SourceFrom(LEAK, 3, 2) == INVALID;
  }

  lemma LeakLookups()
    ensures Indexed(LEAK)
    ensures InputSource(LEAK, 0, "value") == 1 && InputSource(LEAK, 3, "value") == 4
    ensures FindFunc(LEAK, "f") == 2 && ArgPorts(LEAK, 1) == []
  {
    LeakSources();
    hide FindSource;
    assert FindPort(LEAK, 0, "value") == PortFrom(LEAK, [0], "value", 0) == 0;
    assert FindPort(LEAK, 3, "value") == PortFrom(LEAK, [2], "value", 0) == 2;
    assert FuncFrom(LEAK, "f", 0) == FuncFrom(LEAK, "f", 1) == FuncFrom(LEAK, "f", 2) == 2;
    assert InputPorts(LEAK, [1]) == InputPorts(LEAK, []) == [];
  }

  lemma LeakWellFormed()
    ensures WellFormed(LEAKING)
  {
    LeakSources();
    forall n | 0 <= n < 5 ensures Ranked(LEAKING, n) {
      assert n == 0 || n == 1 || n == 2 || n == 3 || n == 4;
    }
  }

  lemma LeakEffects()
    ensures Covered(LEAK, 1) == {1} && AllEffects(LEAK, {1}) == {}
  {
    var e := RegionGraph(LEAK);
    assert Members(LEAK, 1) == [0];
    assert MemberRegions(LEAK, 1, 1) == MemberRegions(LEAK, 1, 0) + NodeRegions(LEAK, Let("x")) == {};
    assert Nested(LEAK, 1, 3) == {};
    assert e[1] == {};
    forall x: nat | x in Covered(LEAK, 1) ensures x == 1 {
      var n: nat :| x in Within<nat>(e, {1}, n);
      ClosedHolds<nat>(e, {1}, {1}, n);
    }
    RootReachable<nat>(e, {1}, 1);
    assert MemberEffects(LEAK, 1, 1) == MemberEffects(LEAK, 1, 0) + NodeEffects(Let("x")) == {};
    assert RegionEffects(LEAK, 1) == {};
  }

  lemma {:induction false} LeakCall()
    requires WellFormed(LEAKING)
    ensures EvalNode(LEAKING, Ctx(0, 0), [], START.io, 1).io.out == [I64(7)]
  {
    LeakLookups();
    hide InputSource; hide FindFunc; hide ArgPorts; hide Indexed; hide Ranked; hide EvalBody;
    var p, io := LEAKING, START.io;
    LeakBody(Ctx(1, 0), io);
    ArgsBelow(p, 1);
    assert EvalArgs(p, Ctx(0, 0), [], io, 1, []) == ArgsRes([], io);
    assert EvalNode(p, Ctx(0, 0), [], io, 1) == EvalCall(p, Ctx(0, 0), [], io, 1, "f");
  }

  lemma {:induction false} LeakPrints()
    requires WellFormed(LEAKING)
    ensures RegionBelow(LEAKING, 1, 3) && ExecRegion(LEAKING, Ctx(0, 0), START, 1, 3).io.out == [I64(7)]
  {
    LeakLookups();
    LeakCall();
    hide InputSource; hide Indexed; hide Ranked; hide EvalNode;
    var p := LEAKING;
    WholeRegionBelow(p, 1);
    RoleBelow(p, 0, "value");
    assert EvalSource(p, Ctx(0, 0), [], START.io, 0, 1) == EvalNode(p, Ctx(0, 0), [], START.io, 1);
    var st := ExecStmt(p, Ctx(0, 0), START, 0);
    assert st.io.out == [I64(7)];
    assert ExecMembers(p, Ctx(0, 0), START, [0], 3) == ExecMembers(p, Ctx(0, 0), st, [], 3) == st;
  }

  lemma {:induction false} LeakBody(c: Ctx, io: Io)
    requires WellFormed(LEAKING) && c.fp <= FRAMES_MAX && !io.err && !io.returned
    ensures EvalBody(LEAKING, c, io, 2, []).io.out == io.out + [I64(7)]
  {
    LeakLookups();
    hide InputSource; hide Indexed; hide Ranked;
    var g, p := LEAK, LEAKING;
    var st := State([], io);
    WholeRegionBelow(p, 2);
    assert EvalNode(p, c, [], io, 4) == Res(I64(7), io);
    RoleBelow(p, 3, "value");
    assert EvalSource(p, c, st.vars, st.io, 3, 4) == EvalNode(p, c, [], io, 4);
    var next := ExecStmt(p, c, st, 3);
    assert next == State([], io.(out := io.out + [I64(7)]));
    assert [3, 4][1..] == [4] && [4][1..] == [];
    assert ExecMembers(p, c, next, [4], 3) == ExecMembers(p, c, next, [], 3) == next;
    assert ExecMembers(p, c, st, [3, 4], 3) == ExecMembers(p, c, next, [4], 3);
    assert Members(g, 2) == [3, 4];
    assert BindParams(g, c.outer, st, [3, 4], []) == st;
  }

  const LEAK_SPEC: Spec := Spec([Sealing(1, true, {})], [])

  lemma LeakValid()
    ensures ValidGraph(LEAK)
  {
    forall i | 0 <= i < 3 ensures ParentValid(LEAK, i) && !OnCycle(LEAK, i) {
      assert Up(LEAK, i, 1) == Parent(LEAK, i);
      assert Up(LEAK, i, 0) == i && Up(LEAK, i, 2) == Parent(LEAK, Up(LEAK, i, 1)) == INVALID;
      assert EndsWithin(LEAK, i, 3);
      EndingIsNoCycle(LEAK, i);
    }
  }

  /** Only region 1 is sealed, so no edge joins two seals. */
  lemma LeakBridged(i: nat)
    requires ValidGraph(LEAK) && i < |LEAK.edges|
    ensures EdgeBridged(LEAK, LEAK_SPEC, i)
  {
    assert EdgeValid(LEAK, i) && PortIndexed(LEAK, LEAK.edges[i].from) && PortIndexed(LEAK, LEAK.edges[i].to);
    assert LEAK_SPEC.sealings[0].region == 1;
  }

  /** Without that condition acceptance promises nothing: this graph is accepted, its sealed region has no effects, and prints. */
  lemma {:induction false} SealedRegionCanPrint()
    ensures WellFormed(LEAKING) && RegionBelow(LEAKING, 1, 3) && ValidGraph(LEAK)
    ensures forall i :: 0 <= i < |LEAK_SPEC.sealings| ==> WithinCapabilities(LEAK, LEAK_SPEC.sealings[i])
    ensures forall i :: 0 <= i < |LEAK.edges| ==> EdgeBridged(LEAK, LEAK_SPEC, i)
    ensures ExecRegion(LEAKING, Ctx(0, 0), START, 1, 3).io.out == [I64(7)]
  {
    LeakWellFormed();
    LeakValid();
    LeakEffects();
    LeakPrints();
    hide ExecRegion; hide EdgeBridged; hide ValidGraph; hide Indexed; hide Ranked;
    forall i | 0 <= i < |LEAK.edges| ensures EdgeBridged(LEAK, LEAK_SPEC, i) {
      LeakBridged(i);
    }
  }
}
