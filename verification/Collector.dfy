/**
 The mark-sweep collector: objects on an intrusive list, marked recursively from the
 roots and swept by unlinking in place. Marking terminates on cyclic heaps, and a
 collection keeps exactly the objects the roots reach, in their old order.
 */
module Collector {
  import opened Reachability

  datatype Val = Plain | Ref(obj: Object?)

  /** What an object holds. An upvalue's chain pointer belongs to the machine and is not followed. */
  datatype Payload =
    | Opaque
    | Array(items: seq<Val>)
    | Map(keys: seq<Val>, values: seq<Val>)
    | Closure(upvalues: seq<Object?>)
    | Upvalue(closed: Val, nextOpen: Object?)
    | Record(fields: seq<Val>)
    | Coroutine(stack: seq<Val>, globals: seq<Val>, yielded: Val)
    | Thread(stack: seq<Val>, globals: seq<Val>)
    | Channel(buffer: seq<Val>, head: nat, count: nat)

  class Object {
    var marked: bool
    var next: Object?
    var payload: Payload

    constructor (payload: Payload, next: Object?)
      ensures !marked && this.next == next && this.payload == payload
    {
      marked := false;
      this.next := next;
      this.payload := payload;
    }
  }

  // ----- Pointers -----

  /** The objects among some values. */
  function Refs(vs: seq<Val>): (r: set<Object>) {
    set k | 0 <= k < |vs| && vs[k].Ref? && vs[k].obj != null :: vs[k].obj
  }

  function NonNull(os: seq<Object?>): (r: set<Object>) {
    set k | 0 <= k < |os| && os[k] != null :: os[k]
  }

  /** The values between head and tail of a ring buffer. */
  function InRing(buffer: seq<Val>, head: nat, count: nat): (r: seq<Val>)
    requires |buffer| > 0
    ensures |r| == count
  {
    seq(count, k requires 0 <= k < count => buffer[(head + k) % |buffer|])
  }

  /** Keys and values come in pairs, and a channel has a buffer. */
  ghost predicate Sound(p: Payload) {
    && (p.Map? ==> |p.keys| == |p.values|)
    && (p.Channel? ==> |p.buffer| > 0)
  }

  /** Objects a payload points at. */
  function Targets(p: Payload): (r: set<Object>)
    requires Sound(p)
  {
    match p
    case Opaque => {}
    case Array(items) => Refs(items)
    case Map(keys, values) => Refs(keys) + Refs(values)
    case Closure(upvalues) => NonNull(upvalues)
    case Upvalue(closed, _) => Refs([closed])
    case Record(fields) => Refs(fields)
    case Coroutine(stack, globals, yielded) => Refs(stack) + Refs(globals) + Refs([yielded])
    case Thread(stack, globals) => Refs(stack) + Refs(globals)
    case Channel(buffer, head, count) => Refs(InRing(buffer, head, count))
  }

  lemma NoRefs()
    ensures Refs([]) == {} && NonNull([]) == {}
  {
  }

  // ----- The heap -----

  /** Every payload is sound and points into the heap. */
  ghost predicate Closed(heap: set<Object>)
    reads heap`payload
  {
    forall o :: o in heap ==> Sound(o.payload) && Targets(o.payload) <= heap
  }

  ghost function PointerGraph(heap: set<Object>): (e: Edges<Object>)
    requires Closed(heap)
    reads heap`payload
    ensures e.Keys == heap
  {
    map o | o in heap :: Targets(o.payload)
  }

  ghost function Marked(heap: set<Object>): (m: set<Object>)
    reads heap`marked
  {
    set o | o in heap && o.marked
  }

  method MarkObject(o: Object?, ghost heap: set<Object>)
    requires Closed(heap) && (o != null ==> o in heap)
    modifies heap`marked
    ensures Progress(PointerGraph(heap), old(Marked(heap)), Marked(heap), NonNull([o]))
    decreases |heap - Marked(heap)|, 0
  {
    hide Progress; hide Refs; hide NonNull; hide InRing; hide Targets; hide Sound;
    ghost var e, before := PointerGraph(heap), Marked(heap);
    OneRef(o);
    if o == null || o.marked {
      ProgressNone(e, before);
      AlreadyMarked(e, before, NonNull([o]));
      return;
    }
    ghost var node: Object := o;
    o.marked := true;
    assert Marked(heap) == before + {node};
    assert heap - Marked(heap) == heap - before - {node};
    MarkTargets(o.payload, heap);
    ProgressNode(e, before, Marked(heap), node);
  }

  lemma AlreadyMarked(e: Edges<Object>, a: set<Object>, r: set<Object>)
    requires r <= a
    ensures Progress(e, a, a, r)
  {
  }

  /** Marks what a payload points at, by its kind. */
  method MarkTargets(p: Payload, ghost heap: set<Object>)
    requires Closed(heap) && Sound(p) && Targets(p) <= heap
    modifies heap`marked
    ensures Progress(PointerGraph(heap), old(Marked(heap)), Marked(heap), Targets(p))
    decreases |heap - Marked(heap)|, 4
  {
    hide Progress; hide Refs; hide NonNull; hide InRing; hide Closed; hide PointerGraph; hide Marked;
    match p {
      case Opaque => ProgressNone(PointerGraph(heap), Marked(heap));
      case Array(items) => MarkValues(items, heap);
      case Map(keys, values) => MarkPairs(keys, values, heap);
      case Closure(upvalues) => MarkUpvalues(upvalues, heap);
      case Upvalue(closed, _) => MarkValue(closed, heap);
      case Record(fields) => MarkValues(fields, heap);
      case Coroutine(stack, globals, yielded) => MarkMachine(stack, globals, yielded, heap);
      case Thread(stack, globals) =>
        OneRef(null);
        MarkMachine(stack, globals, Plain, heap);
        assert Refs(stack) + Refs(globals) + {} == Refs(stack) + Refs(globals);
      case Channel(buffer, head, count) => MarkRing(buffer, head, count, heap);
    }
  }

  /** Marks a machine's stack, its globals and the value it yielded. */
  method MarkMachine(stack: seq<Val>, globals: seq<Val>, yielded: Val, ghost heap: set<Object>)
    requires Closed(heap) && Refs(stack) + Refs(globals) + Refs([yielded]) <= heap
    modifies heap`marked
    ensures Progress(PointerGraph(heap), old(Marked(heap)), Marked(heap), Refs(stack) + Refs(globals) + Refs([yielded]))
    decreases |heap - Marked(heap)|, 3
  {
    hide Progress; hide Refs; hide Closed; hide PointerGraph; hide Marked;
    ghost var e, m0 := PointerGraph(heap), Marked(heap);
    MarkValues(stack, heap);
    ghost var m1 := Marked(heap);
    Fewer(e, heap, m0, m1, Refs(stack));
    MarkValues(globals, heap);
    ghost var m2 := Marked(heap);
    ProgressThen(e, m0, m1, m2, Refs(stack), Refs(globals));
    Fewer(e, heap, m0, m2, Refs(stack) + Refs(globals));
    MarkValue(yielded, heap);
    ProgressThen(e, m0, m2, Marked(heap), Refs(stack) + Refs(globals), Refs([yielded]));
  }

  lemma OneRef(o: Object?)
    ensures NonNull([o]) == (if o == null then {} else {o}) == Refs([Ref(o)]) && Refs([Plain]) == {}
  {
    if o != null {
      assert [o][0] == o && [Ref(o)][0] == Ref(o);
    }
  }

  method MarkValue(v: Val, ghost heap: set<Object>)
    requires Closed(heap) && Refs([v]) <= heap
    modifies heap`marked
    ensures Progress(PointerGraph(heap), old(Marked(heap)), Marked(heap), Refs([v]))
    decreases |heap - Marked(heap)|, 1
  {
    if v.Ref? {
      OneRef(v.obj);
      MarkObject(v.obj, heap);
    } else {
      OneRef(null);
    }
  }

  method MarkValues(vs: seq<Val>, ghost heap: set<Object>)
    requires Closed(heap) && Refs(vs) <= heap
    modifies heap`marked
    ensures Progress(PointerGraph(heap), old(Marked(heap)), Marked(heap), Refs(vs))
    decreases |heap - Marked(heap)|, 2
  {
    hide Progress; hide Refs; hide NonNull; hide Closed; hide PointerGraph; hide Marked;
    ghost var e, before := PointerGraph(heap), Marked(heap);
    ProgressNone(e, before);
    NoRefs();
    assert vs[..0] == [];
    var i := 0;
    while i < |vs|
      invariant 0 <= i <= |vs| && Progress(e, before, Marked(heap), Refs(vs[..i]))
    {
      ghost var mid := Marked(heap);
      RefsSnoc(vs, i);
      Fewer(e, heap, before, mid, Refs(vs[..i]));
      MarkValue(vs[i], heap);
      ProgressThen(e, before, mid, Marked(heap), Refs(vs[..i]), Refs([vs[i]]));
      i := i + 1;
    }
    assert vs[..i] == vs;
  }

  method MarkPairs(keys: seq<Val>, values: seq<Val>, ghost heap: set<Object>)
    requires Closed(heap) && |keys| == |values| && Refs(keys) + Refs(values) <= heap
    modifies heap`marked
    ensures Progress(PointerGraph(heap), old(Marked(heap)), Marked(heap), Refs(keys) + Refs(values))
    decreases |heap - Marked(heap)|, 2
  {
    hide Progress; hide Refs; hide NonNull; hide Closed; hide PointerGraph; hide Marked;
    ghost var e, before := PointerGraph(heap), Marked(heap);
    ProgressNone(e, before);
    NoRefs();
    assert keys[..0] == [] && values[..0] == [];
    assert Refs([]) + Refs([]) == {};
    var i := 0;
    while i < |keys|
      invariant 0 <= i <= |keys| && Progress(e, before, Marked(heap), Refs(keys[..i]) + Refs(values[..i]))
    {
      ghost var m1 := Marked(heap);
      RefsSnoc(keys, i);
      RefsSnoc(values, i);
      Fewer(e, heap, before, m1, Refs(keys[..i]) + Refs(values[..i]));
      MarkValue(keys[i], heap);
      ghost var m2 := Marked(heap);
      ghost var done := Refs(keys[..i]) + Refs(values[..i]);
      ProgressThen(e, before, m1, m2, done, Refs([keys[i]]));
      Fewer(e, heap, before, m2, done + Refs([keys[i]]));
      MarkValue(values[i], heap);
      ProgressThen(e, before, m2, Marked(heap), done + Refs([keys[i]]), Refs([values[i]]));
      Exchange(Refs(keys[..i]), Refs(values[..i]), Refs([keys[i]]), Refs([values[i]]));
      i := i + 1;
    }
    assert keys[..i] == keys && values[..i] == values;
  }

  method MarkUpvalues(upvalues: seq<Object?>, ghost heap: set<Object>)
    requires Closed(heap) && NonNull(upvalues) <= heap
    modifies heap`marked
    ensures Progress(PointerGraph(heap), old(Marked(heap)), Marked(heap), NonNull(upvalues))
    decreases |heap - Marked(heap)|, 2
  {
    hide Progress; hide Refs; hide NonNull; hide Closed; hide PointerGraph; hide Marked;
    ghost var e, before := PointerGraph(heap), Marked(heap);
    ProgressNone(e, before);
    NoRefs();
    assert upvalues[..0] == [];
    var i := 0;
    while i < |upvalues|
      invariant 0 <= i <= |upvalues| && Progress(e, before, Marked(heap), NonNull(upvalues[..i]))
    {
      ghost var mid := Marked(heap);
      NonNullSnoc(upvalues, i);
      OneRef(upvalues[i]);
      Fewer(e, heap, before, mid, NonNull(upvalues[..i]));
      if upvalues[i] != null {
        MarkObject(upvalues[i], heap);
      } else {
        ProgressNone(e, mid);
      }
      ProgressThen(e, before, mid, Marked(heap), NonNull(upvalues[..i]), NonNull([upvalues[i]]));
      i := i + 1;
    }
    assert upvalues[..i] == upvalues;
  }

  /** Marks the values between head and tail, not the dead slots of the buffer. */
  method MarkRing(buffer: seq<Val>, head: nat, count: nat, ghost heap: set<Object>)
    requires Closed(heap) && |buffer| > 0 && Refs(InRing(buffer, head, count)) <= heap
    modifies heap`marked
    ensures Progress(PointerGraph(heap), old(Marked(heap)), Marked(heap), Refs(InRing(buffer, head, count)))
    decreases |heap - Marked(heap)|, 2
  {
    hide Progress; hide Refs; hide NonNull; hide Closed; hide PointerGraph; hide Marked; hide InRing;
    ghost var e, before, live := PointerGraph(heap), Marked(heap), InRing(buffer, head, count);
    ProgressNone(e, before);
    NoRefs();
    assert live[..0] == [];
    var i := 0;
    while i < count
      invariant 0 <= i <= count && Progress(e, before, Marked(heap), Refs(live[..i]))
    {
      ghost var mid := Marked(heap);
      RefsSnoc(live, i);
      Fewer(e, heap, before, mid, Refs(live[..i]));
      assert live[i] == buffer[(head + i) % |buffer|] by { RingAt(buffer, head, count, i); }
      MarkValue(buffer[(head + i) % |buffer|], heap);
      ProgressThen(e, before, mid, Marked(heap), Refs(live[..i]), Refs([live[i]]));
      i := i + 1;
    }
    assert live[..i] == live;
  }

  lemma Exchange(a: set<Object>, b: set<Object>, c: set<Object>, d: set<Object>)
    ensures a + b + c + d == (a + c) + (b + d)
  {
  }

  lemma RingAt(buffer: seq<Val>, head: nat, count: nat, i: nat)
    requires |buffer| > 0 && i < count
    ensures |InRing(buffer, head, count)| == count && InRing(buffer, head, count)[i] == buffer[(head + i) % |buffer|]
  {
  }

  lemma RefsSnoc(vs: seq<Val>, i: nat)
    requires i < |vs|
    ensures Refs(vs[..i + 1]) == Refs(vs[..i]) + Refs([vs[i]]) && Refs([vs[i]]) <= Refs(vs)
  {
    assert [vs[i]][0] == vs[i];
    forall o | o in Refs(vs[..i + 1]) ensures o in Refs(vs[..i]) + Refs([vs[i]]) {
      var k :| 0 <= k < i + 1 && vs[k].Ref? && vs[k].obj == o;
      if k < i {
        assert vs[..i][k] == vs[k];
      }
    }
    forall o | o in Refs(vs[..i]) ensures o in Refs(vs[..i + 1]) {
      var k :| 0 <= k < i && vs[..i][k].Ref? && vs[..i][k].obj == o;
      assert vs[..i + 1][k] == vs[k];
    }
    assert vs[..i + 1][i] == vs[i];
  }

  lemma NonNullSnoc(os: seq<Object?>, i: nat)
    requires i < |os|
    ensures NonNull(os[..i + 1]) == NonNull(os[..i]) + NonNull([os[i]]) && NonNull([os[i]]) <= NonNull(os)
  {
    assert [os[i]][0] == os[i];
    forall o | o in NonNull(os[..i + 1]) ensures o in NonNull(os[..i]) + NonNull([os[i]]) {
      var k :| 0 <= k < i + 1 && os[k] == o;
      if k < i {
        assert os[..i][k] == os[k];
      }
    }
    forall o | o in NonNull(os[..i]) ensures o in NonNull(os[..i + 1]) {
      var k :| 0 <= k < i && os[..i][k] == o;
      assert os[..i + 1][k] == os[k];
    }
    assert os[..i + 1][i] == os[i];
  }

  /** Progress leaves fewer objects to mark. */
  lemma Fewer(e: Edges<Object>, heap: set<Object>, a: set<Object>, b: set<Object>, r: set<Object>)
    requires Progress(e, a, b, r)
    ensures |heap - b| <= |heap - a|
  {
    assert heap - a == (heap - b) + (heap * (b - a));
  }

  // ----- The object list -----

  ghost function After(s: seq<Object>, i: int): Object?
    requires -1 <= i < |s|
  {
    if i + 1 < |s| then s[i + 1] else null
  }

  ghost predicate Linked(head: Object?, s: seq<Object>)
    reads s`next
  {
    && head == After(s, -1)
    && (forall i :: 0 <= i < |s| ==> s[i].next == After(s, i))
  }

  predicate Distinct(s: seq<Object>) {
    forall i, j :: 0 <= i < j < |s| ==> s[i] != s[j]
  }

  function Elements(s: seq<Object>): set<Object> {
    set o | o in s
  }

  /** The sublist of the objects in a set, in order. */
  ghost function Keep(s: seq<Object>, live: set<Object>): (r: seq<Object>) {
    if s == [] then []
    else Keep(s[..|s| - 1], live) + if s[|s| - 1] in live then [s[|s| - 1]] else []
  }

  lemma {:induction false} KeepElements(s: seq<Object>, live: set<Object>)
    ensures forall o :: o in Keep(s, live) <==> o in s && o in live
  {
    if s != [] {
      KeepElements(s[..|s| - 1], live);
      assert s == s[..|s| - 1] + [s[|s| - 1]];
    }
  }

  lemma {:induction false} KeepDistinct(s: seq<Object>, live: set<Object>)
    requires Distinct(s)
    ensures Distinct(Keep(s, live))
  {
    if s != [] {
      KeepDistinct(s[..|s| - 1], live);
      KeepElements(s[..|s| - 1], live);
    }
  }

  lemma KeepStep(s: seq<Object>, k: nat, live: set<Object>)
    requires k < |s|
    ensures Keep(s[..k + 1], live) == Keep(s[..k], live) + if s[k] in live then [s[k]] else []
  {
    assert s[..k + 1][..k] == s[..k];
  }

  class Heap {
    var objects: Object?
    var bytesAllocated: nat
    var nextGc: nat
    var allocCount: nat
    var collectCount: nat
    ghost var list: seq<Object>

    ghost predicate Valid()
      reads this, list, Elements(list)
    {
      Linked(objects, list) && Distinct(list) && Closed(Elements(list)) &&
      forall o :: o in list ==> !o.marked
    }

    constructor ()
      ensures Valid() && list == []
    {
      objects, bytesAllocated, nextGc, allocCount, collectCount := null, 0, THRESHOLD, 0, 0;
      list := [];
    }

    /** A new object goes to the front of the list. */
    method Allocate(size: nat, payload: Payload) returns (o: Object)
      requires Valid() && Sound(payload) && Targets(payload) <= Elements(list)
      modifies this
      ensures Valid() && fresh(o) && list == [o] + old(list) && o.payload == payload
    {
      hide Targets; hide Sound;
      allocCount := allocCount + 1;
      o := new Object(payload, objects);
      objects := o;
      list := [o] + list;
      bytesAllocated := bytesAllocated + size;
      assert Elements(list) == Elements(old(list)) + {o};
      assert forall i :: 0 < i < |list| ==> list[i] == old(list)[i - 1];
    }

    /** Marks the open upvalues of a machine's chain. */
    method MarkChain(first: Object?, ghost open: seq<Object>)
      requires Closed(Elements(list)) && OpenChain(first, open) && Elements(open) <= Elements(list)
      modifies Elements(list)`marked
      ensures Progress(PointerGraph(Elements(list)), old(Marked(Elements(list))), Marked(Elements(list)), Elements(open))
    {
      hide Progress; hide Closed; hide PointerGraph; hide Marked; hide NonNull;
      ghost var heap := Elements(list);
      ghost var e, before, i: nat := PointerGraph(heap), Marked(heap), 0;
      var uv := first;
      assert Elements(open[..0]) == {};
      hide Elements;
      ProgressNone(e, before);
      while uv != null
        invariant i <= |open| && uv == After(open, i - 1)
        invariant Progress(e, before, Marked(heap), Elements(open[..i]))
        decreases |open| - i
      {
        ghost var mid := Marked(heap);
        ElementsSnoc(open, i);
        OneRef(uv);
        MarkObject(uv, heap);
        ghost var node: Object := uv;
        ProgressThen(e, before, mid, Marked(heap), Elements(open[..i]), {node});
        assert IsOpen(uv, After(open, i));
        uv := uv.payload.nextOpen;
        i := i + 1;
      }
      assert open[..i] == open;
    }

    /**
     Collects from the live stack, the globals and the open upvalues: `live` is exactly
     what they reach, the list keeps its live objects in order with their marks cleared
     and nothing of theirs pointing outside, and the others are gone.
     */
    method Collect(stack: seq<Val>, sp: nat, globals: seq<Val>, globalCount: nat, openUpvalues: Object?, ghost open: seq<Object>)
        returns (ghost live: set<Object>)
      requires Valid() && sp <= |stack| && globalCount <= |globals| && OpenChain(openUpvalues, open)
      requires Roots(stack[..sp], globals[..globalCount], open) <= Elements(list)
      modifies this, Elements(list)`marked, Elements(list)`next
      ensures Valid() && list == Keep(old(list), live)
      ensures Exactly(old(PointerGraph(Elements(list))), Roots(stack[..sp], globals[..globalCount], open), live)
      ensures bytesAllocated == old(bytesAllocated) && collectCount == old(collectCount) + 1
      ensures nextGc == if 2 * bytesAllocated < THRESHOLD then THRESHOLD else 2 * bytesAllocated
    {
      hide Exactly; hide Keep; hide Refs; hide Targets; hide Sound; hide Linked; hide Distinct;
      assert Marked(Elements(list)) == {};
      live := MarkRoots(stack[..sp], globals[..globalCount], openUpvalues, open);
      Reclaim(live);
      RaiseThreshold();
    }

    method RaiseThreshold()
      requires Valid()
      modifies this`collectCount, this`nextGc
      ensures Valid()
      ensures collectCount == old(collectCount) + 1
      ensures nextGc == if 2 * bytesAllocated < THRESHOLD then THRESHOLD else 2 * bytesAllocated
    {
      collectCount := collectCount + 1;
      nextGc := bytesAllocated * GROW_FACTOR;
      if nextGc < THRESHOLD { nextGc := THRESHOLD; }
    }

    /** Sweeps, and leaves a heap whose objects point only at objects of the heap. */
    method Reclaim(ghost live: set<Object>)
      requires Linked(objects, list) && Distinct(list) && Closed(Elements(list))
      requires live == Marked(Elements(list)) && forall o :: o in live ==> PointerGraph(Elements(list))[o] <= live
      modifies this`objects, this`list, Elements(list)`marked, Elements(list)`next
      ensures Valid() && list == Keep(old(list), live)
    {
      hide Keep; hide Targets; hide Sound; hide Linked; hide Distinct;
      ghost var was, e := list, PointerGraph(Elements(list));
      Sweep(live);
      KeepAll(e, was, live);
      forall o | o in live ensures Sound(o.payload) && Targets(o.payload) <= live {
        assert o in e && e[o] == old(Targets(o.payload));
      }
    }

    /** The marks after all roots are marked. */
    method MarkRoots(stack: seq<Val>, globals: seq<Val>, openUpvalues: Object?, ghost open: seq<Object>)
        returns (ghost live: set<Object>)
      requires Closed(Elements(list)) && Marked(Elements(list)) == {} && OpenChain(openUpvalues, open)
      requires Roots(stack, globals, open) <= Elements(list)
      modifies Elements(list)`marked
      ensures live == Marked(Elements(list))
      ensures Exactly(PointerGraph(Elements(list)), Roots(stack, globals, open), live)
      ensures forall o :: o in live ==> PointerGraph(Elements(list))[o] <= live
    {
      hide Progress; hide Closed; hide PointerGraph; hide Refs;
      ghost var heap := Elements(list);
      ghost var e := PointerGraph(heap);
      MarkValues(stack, heap);
      ghost var m1 := Marked(heap);
      MarkValues(globals, heap);
      ghost var m2 := Marked(heap);
      ProgressThen(e, {}, m1, m2, Refs(stack), Refs(globals));
      MarkChain(openUpvalues, open);
      live := Marked(heap);
      ProgressThen(e, {}, m2, live, Refs(stack) + Refs(globals), Elements(open));
      MarkedIsReachable(e, live, Roots(stack, globals, open));
    }

    /** Unlinks the unmarked objects in place and clears the marks of the others. */
    method Sweep(ghost live: set<Object>)
      requires Linked(objects, list) && Distinct(list)
      requires forall o :: o in list ==> (o.marked <==> o in live)
      modifies this`objects, this`list, Elements(list)`marked, Elements(list)`next
      ensures list == Keep(old(list), live) && Linked(objects, list) && Distinct(list)
      ensures forall o :: o in list ==> !o.marked
    {
      hide SweptTo; hide Keep;
      ghost var all, k: nat := list, 0;
      ghost var kept: seq<Object> := [];
      var prev: Object? := null;
      var cur := objects;
      SweepStart(objects, all, live);
      while cur != null
        invariant k <= |all| && cur == After(all, k - 1) && SweptTo(objects, all, kept, k, prev, cur, live)
        decreases |all| - k
        modifies this`objects, Elements(all)`marked, Elements(all)`next
      {
        prev, cur, kept := SweepTurn(prev, cur, all, kept, k, live);
        k := k + 1;
      }
      SweepEnd(objects, all, kept, prev, live);
      list := kept;
    }

    /** One turn of the sweep. */
    method SweepTurn(prev: Object?, cur: Object, ghost all: seq<Object>, ghost kept: seq<Object>, ghost k: nat,
                     ghost live: set<Object>) returns (before: Object?, rest: Object?, ghost now: seq<Object>)
      requires k < |all| && Distinct(all) && SweptTo(objects, all, kept, k, prev, cur, live)
      modifies this`objects, Elements(all)`marked, Elements(all)`next
      ensures SweptTo(objects, all, now, k + 1, before, rest, live) && rest == After(all, k)
    {
      hide Keep; hide Chained; hide Unswept;
      KeepStep(all, k, live);
      Prefix(all, k, kept);
      before, rest := SweepOne(prev, cur, all, kept, k, live);
      now := kept + if cur in live then [cur] else [];
    }

    /** One turn: keeps a marked object and clears its mark, or unlinks an unmarked one. */
    method SweepOne(prev: Object?, cur: Object, ghost all: seq<Object>, ghost kept: seq<Object>, ghost k: nat,
                    ghost live: set<Object>) returns (before: Object?, rest: Object?)
      requires k < |all| && cur == all[k] && Distinct(all) && Unswept(all, k, live)
      requires forall o :: o in kept ==> !o.marked && o in all && forall i :: k <= i < |all| ==> all[i] != o
      requires Chained(objects, kept, prev, cur)
      modifies this`objects, Elements(all)`marked, Elements(all)`next
      ensures var now := kept + if cur in live then [cur] else [];
              Chained(objects, now, before, rest) && forall o :: o in now ==> !o.marked
      ensures rest == After(all, k) && Unswept(all, k + 1, live)
    {
      assert cur.next == After(all, k);
      rest := cur.next;
      before := prev;
      if cur.marked {
        cur.marked := false;
        before := cur;
      } else if prev == null {
        objects := rest;
      } else {
        prev.next := rest;
      }
    }
  }

  /** An open upvalue followed by `next` in the machine's chain. */
  ghost predicate IsOpen(o: Object, next: Object?)
    reads o`payload
  {
    o.payload.Upvalue? && o.payload.nextOpen == next
  }

  ghost predicate OpenChain(first: Object?, open: seq<Object>)
    reads open`payload
  {
    first == After(open, -1) && forall i :: 0 <= i < |open| ==> IsOpen(open[i], After(open, i))
  }

  ghost function Roots(stack: seq<Val>, globals: seq<Val>, open: seq<Object>): set<Object> {
    Refs(stack) + Refs(globals) + Elements(open)
  }

  lemma ElementsSnoc(s: seq<Object>, i: nat)
    requires i < |s|
    ensures Elements(s[..i + 1]) == Elements(s[..i]) + {s[i]} && s[i] in Elements(s)
  {
    assert s[..i + 1] == s[..i] + [s[i]];
  }

  /** Every live object is on the list, so the sublist holds all of them. */
  lemma KeepAll(e: Edges<Object>, all: seq<Object>, live: set<Object>)
    requires e.Keys == Elements(all)
    requires live <= e.Keys && forall o :: o in live ==> e[o] <= live
    ensures Elements(Keep(all, live)) == live
  {
    KeepElements(all, live);
    var r := Keep(all, live);
    forall o | o in live ensures o in Elements(r) {
      assert o in e.Keys;
      assert o in all;
      assert o in r;
    }
    forall o | o in Elements(r) ensures o in live {
      assert o in r;
    }
    assert Elements(r) == live;
  }

  /** The swept objects: linked from `head` on, `prev` the last of them and pointing at `cur`. */
  ghost predicate Chained(head: Object?, kept: seq<Object>, prev: Object?, cur: Object?)
    reads kept`next
  {
    if kept == [] then prev == null && head == cur
    else
      prev == kept[|kept| - 1] && head == kept[0] && kept[|kept| - 1].next == cur &&
      forall i :: 0 < i < |kept| ==> kept[i - 1].next == kept[i]
  }

  lemma ChainedEnd(head: Object?, kept: seq<Object>, prev: Object?)
    requires Chained(head, kept, prev, null)
    ensures Linked(head, kept)
  {
    forall i | 0 <= i < |kept| ensures kept[i].next == After(kept, i) {
      if i + 1 < |kept| {
        assert kept[i + 1 - 1].next == kept[i + 1];
      }
    }
  }

  /** The objects from `k` on, as they were. */
  ghost predicate Unswept(all: seq<Object>, k: nat, live: set<Object>)
    reads all
  {
    forall i :: k <= i < |all| ==> all[i].next == After(all, i) && (all[i].marked <==> all[i] in live)
  }

  /** The sweep up to `k`: the live ones so far are linked and unmarked, the rest is as it was. */
  ghost predicate SweptTo(head: Object?, all: seq<Object>, kept: seq<Object>, k: nat, prev: Object?, cur: Object?,
                          live: set<Object>)
    reads all, kept
  {
    && k <= |all| && kept == Keep(all[..k], live) && Elements(kept) <= Elements(all[..k])
    && Chained(head, kept, prev, cur) && cur == After(all, k - 1) && Unswept(all, k, live)
    && forall o :: o in kept ==> !o.marked
  }

  lemma SweepStart(head: Object?, all: seq<Object>, live: set<Object>)
    requires Linked(head, all) && forall o :: o in all ==> (o.marked <==> o in live)
    ensures SweptTo(head, all, [], 0, null, head, live)
  {
    assert all[..0] == [];
  }

  lemma SweepEnd(head: Object?, all: seq<Object>, kept: seq<Object>, prev: Object?, live: set<Object>)
    requires Distinct(all) && SweptTo(head, all, kept, |all|, prev, null, live)
    ensures kept == Keep(all, live) && Linked(head, kept) && Distinct(kept) && Elements(kept) <= Elements(all)
    ensures forall o :: o in kept ==> !o.marked
  {
    assert all[..|all|] == all;
    KeepDistinct(all, live);
    ChainedEnd(head, kept, prev);
  }

  /** Swept objects come before the current one. */
  lemma Prefix(all: seq<Object>, k: nat, kept: seq<Object>)
    requires k < |all| && Distinct(all) && Elements(kept) <= Elements(all[..k])
    ensures forall o :: o in kept ==> o in all && forall i :: k <= i < |all| ==> all[i] != o
    ensures Elements(kept) <= Elements(all[..k + 1]) && Elements(kept + [all[k]]) <= Elements(all[..k + 1])
  {
    forall o | o in kept ensures o in all[..k] {
      assert o in Elements(kept);
    }
    assert all[..k + 1] == all[..k] + [all[k]];
  }

  const THRESHOLD: nat := 1024
  const GROW_FACTOR: nat := 2
}
