/** The image the compiler builds is linked: every function is where its record says. */
module Linking {
  import opened Values
  import opened Bytecode
  import opened SemanticGraph
  import opened Interpreter
  import opened CodeGen
  import opened Machine
  import opened Support
  import opened SimulationBase
  import opened Simulation

  // ----- The function table -----

  /** Registered records name their functions, by the first pool entry with the name. */
  ghost predicate Registered(u: Unit, names: seq<string>) {
    && |u.funcs| == |names|
    && forall k :: 0 <= k < |names| ==> NameAt(u, names[k], k)
  }

  ghost predicate NameAt(u: Unit, name: string, k: nat)
    requires k < |u.funcs|
  {
    u.funcs[k].nameIdx < |u.st.pool| && u.funcs[k].nameIdx == FindConst(u.st.pool, StrConst(name))
  }

  /** A constant keeps its index when the pool grows. */
  lemma FindConstPrefix(a: seq<Constant>, b: seq<Constant>, c: Constant)
    requires a <= b && FindConst(a, c) < |a|
    ensures FindConst(b, c) == FindConst(a, c)
  {
    assert b[FindConst(a, c)] == c;
    assert forall k :: 0 <= k < FindConst(a, c) ==> b[k] == a[k];
  }

  lemma InternFinds(pool: Pool, c: Constant)
    ensures FindConst(Intern(pool, c), c) == FindConst(pool, c) < |Intern(pool, c)|
  {
    var r := Intern(pool, c);
    assert r[FindConst(pool, c)] == c;
    assert forall k :: 0 <= k < |pool| ==> r[k] == pool[k];
  }

  lemma {:induction false} RegisterRegisters(g: Graph, u: Unit, ids: seq<nat>, names: seq<string>)
    requires forall k :: 0 <= k < |ids| ==> ids[k] < |g.nodes| && g.nodes[ids[k]].kind.FuncDef?
    requires Registered(u, names)
    ensures var w := Register(g, u, ids);
            Registered(w, names + Names(g, ids)) && w.code == u.code && w.st.(pool := []) == u.st.(pool := []) &&
            u.st.pool <= w.st.pool
    decreases ids
  {
    if ids == [] {
      assert names + Names(g, ids) == names;
    } else {
      var k := g.nodes[ids[0]].kind;
      var c := StrConst(k.name);
      var pool := Intern(u.st.pool, c);
      InternFinds(u.st.pool, c);
      var next := u.(st := u.st.(pool := pool), funcs := u.funcs + [FuncRecord(FindConst(u.st.pool, c), k.arity, 0, 0, 0, 0)]);
      var names' := names + [k.name];
      forall i | 0 <= i < |names'| ensures NameAt(next, names'[i], i) {
        if i < |names| {
          assert NameAt(u, names[i], i);
          FindConstPrefix(u.st.pool, pool, StrConst(names[i]));
        }
      }
      RegisterRegisters(g, next, ids[1..], names');
      assert names' + Names(g, ids[1..]) == names + Names(g, ids);
    }
  }

  /** The first function with its name. */
  predicate First(names: seq<string>, k: nat) { k < |names| && forall i :: 0 <= i < k ==> names[i] != names[k] }

  lemma DistinctFirst(names: seq<string>, k: nat)
    requires Distinct(names) && k < |names|
    ensures First(names, k)
  {
  }

  /** A record is found at the index of the first function with its name. */
  lemma RecordFound(u: Unit, names: seq<string>, k: nat)
    requires Registered(u, names) && First(names, k)
    ensures FindRecord(u.funcs, FindConst(u.st.pool, StrConst(names[k]))) == k
  {
    assert NameAt(u, names[k], k);
    forall i | 0 <= i < k ensures u.funcs[i].nameIdx != u.funcs[k].nameIdx {
      assert NameAt(u, names[i], i);
      assert u.st.pool[u.funcs[i].nameIdx] == StrConst(names[i]);
    }
  }

  // ----- One function at a time -----

  /** Compiling a function appends its code and fills in its record. */
  lemma {:induction false} AddFunctionStep(p: Program, names: seq<string>, u: Unit, f: nat, k: nat)
    requires WellFormed(p) && f < |p.g.nodes| && p.g.nodes[f].kind.FuncDef?
    requires Registered(u, names) && First(names, k) && names[k] == p.g.nodes[f].kind.name
    requires u.st.len == Size(u.code)
    ensures var o := CFunc(p, Cx(names, k), u.st, f); var w := AddFunction(p, names, u, f);
            && w == Unit(u.code + o.code, o.st, u.funcs[k := o.rec])
            && Registered(w, names) && w.st.len == Size(w.code) && |w.funcs| == |u.funcs| == |names|
            && u.st.pool <= w.st.pool && (u.st.err ==> w.st.err)
  {
    hide CBody;
    RecordFound(u, names, k);
    assert NameAt(u, names[k], k);
    var o := CFunc(p, Cx(names, k), u.st, f);
    var w := AddFunction(p, names, u, f);
    FuncGrows(p, Cx(names, k), u.st, f);
    SizeConcat(u.code, o.code);
    forall i | 0 <= i < |names| ensures NameAt(w, names[i], i) {
      assert NameAt(u, names[i], i);
      FindConstPrefix(u.st.pool, w.st.pool, StrConst(names[i]));
    }
  }

  lemma {:induction false} FuncGrows(p: Program, cx: Cx, st: Cst, f: nat)
    requires WellFormed(p) && f < |p.g.nodes| && p.g.nodes[f].kind.FuncDef?
    ensures var o := CFunc(p, cx, st, f); var b := CBody(p, cx, st, f);
            && st.pool <= b.st.pool <= o.st.pool && (st.err ==> b.st.err) && b.st.err == o.st.err
            && o.st.len == st.len + Size(o.code) && b.code <= o.code && b.st.locals == o.st.locals
            && o.st.debug == b.st.debug
  {
    hide CRegion;
    var b := CBody(p, cx, st, f);
    assert Grows(EnterFunction(p, st, f), b.code, b.st);
    CloseGrows(b);
  }

  lemma {:induction false} CloseGrows(b: Out)
    ensures var o := CloseFunction(b);
            b.st.pool <= o.st.pool && o.st.err == b.st.err && o.st.len == b.st.len + Size(o.code) - Size(b.code) &&
            b.code <= o.code && o.st.locals == b.st.locals && o.st.debug == b.st.debug
  {
    hide EncodeAll; hide Size;
    var k := EmitConst(b.st, NullConst);
    SizeConcat(b.code, k.code);
    SizeSnoc(b.code + k.code, Return);
  }

  /** The states from which the functions are compiled. */
  function Starts(p: Program, names: seq<string>, u: Unit, ids: seq<nat>): (r: seq<Cst>)
    requires WellFormed(p)
    requires forall k :: 0 <= k < |ids| ==> ids[k] < |p.g.nodes| && p.g.nodes[ids[k]].kind.FuncDef?
    ensures |r| == |ids|
    decreases ids
  {
    if ids == [] then [] else [u.st] + Starts(p, names, AddFunction(p, names, u, ids[0]), ids[1..])
  }

  /** Function `f`, compiled from `st` as number `k`, is in the unit. */
  ghost predicate Placed(p: Program, names: seq<string>, w: Unit, st: Cst, k: nat, f: nat)
    requires WellFormed(p) && f < |p.g.nodes| && p.g.nodes[f].kind.FuncDef?
  {
    var o := CFunc(p, Cx(names, k), st, f);
    && k < |w.funcs| && w.funcs[k] == o.rec
    && o.st.pool <= w.st.pool && (o.st.err ==> w.st.err)
    && exists pre, post :: w.code == pre + o.code + post && Size(pre) == st.len
  }

  /** Adding more functions leaves a placed one where it is. */
  lemma {:induction false} FirstPlaced(p: Program, names: seq<string>, u: Unit, w: Unit, f: nat, k: nat)
    requires WellFormed(p) && f < |p.g.nodes| && p.g.nodes[f].kind.FuncDef? && u.st.len == Size(u.code)
    requires k < |w.funcs| == |u.funcs|
    requires var o := CFunc(p, Cx(names, k), u.st, f);
             u.code + o.code <= w.code && w.funcs[k] == o.rec && o.st.pool <= w.st.pool && (o.st.err ==> w.st.err)
    ensures Placed(p, names, w, u.st, k, f)
  {
    hide CFunc; hide Size; hide WellFormed;
    var o := CFunc(p, Cx(names, k), u.st, f);
    var post := w.code[|u.code + o.code|..];
    assert w.code == u.code + o.code + post;
  }

  lemma {:induction false} AddFunctionsPlaces(p: Program, names: seq<string>, u: Unit, ids: seq<nat>, j: nat)
    requires WellFormed(p)
    requires forall k :: 0 <= k < |ids| ==> ids[k] < |p.g.nodes| && p.g.nodes[ids[k]].kind.FuncDef?
    requires Registered(u, names) && Distinct(names) && u.st.len == Size(u.code)
    requires j + |ids| == |names| && forall k :: 0 <= k < |ids| ==> names[j + k] == p.g.nodes[ids[k]].kind.name
    ensures var w := AddFunctions(p, names, u, ids);
            && Registered(w, names) && w.st.len == Size(w.code)
            && u.code <= w.code && u.st.pool <= w.st.pool && (u.st.err ==> w.st.err)
            && |w.funcs| == |u.funcs| && (forall k :: 0 <= k < j ==> w.funcs[k] == u.funcs[k])
            && forall k :: 0 <= k < |ids| ==> Placed(p, names, w, Starts(p, names, u, ids)[k], j + k, ids[k])
    decreases ids
  {
    hide CFunc; hide Size; hide Placed; hide WellFormed; hide AddFunction; hide Registered;
    if ids != [] {
      DistinctFirst(names, j);
      AddFunctionStep(p, names, u, ids[0], j);
      var v := AddFunction(p, names, u, ids[0]);
      forall k | 0 <= k < |ids[1..]| ensures names[j + 1 + k] == p.g.nodes[ids[1..][k]].kind.name {
        assert names[j + (k + 1)] == p.g.nodes[ids[k + 1]].kind.name;
      }
      AddFunctionsPlaces(p, names, v, ids[1..], j + 1);
      var w := AddFunctions(p, names, v, ids[1..]);
      assert AddFunctions(p, names, u, ids) == w;
      FirstPlaced(p, names, u, w, ids[0], j);
      var rest := Starts(p, names, v, ids[1..]);
      assert Starts(p, names, u, ids) == [u.st] + rest;
      forall k | 0 < k < |ids| ensures Placed(p, names, w, Starts(p, names, u, ids)[k], j + k, ids[k]) {
        assert Placed(p, names, w, rest[k - 1], j + 1 + (k - 1), ids[1..][k - 1]);
      }
    }
  }
}
