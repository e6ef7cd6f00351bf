/**
 Closures at machine level. The machine shares a captured local through an open
 upvalue that points at the local's stack slot, and copies the value into the upvalue
 when the slot goes away. The reference machine has no upvalues: every stack position
 has a cell of its own and a closure holds the cells it captured. The machine refines
 it exactly as long as no open upvalue is left behind on a slot that is dropped.

 An access to a slot outside the live stack has no value here and ends the run.
 */
module Closures {
  import opened Values
  import Bytecode
  import Limits = Machine

  const HANDLERS_MAX: nat := 64

  type Capture = Bytecode.Capture

  datatype V = Plain(v: Value) | Clo(id: nat)

  /** `locals` is the frame's local count; `base` its first slot. */
  datatype Frame = Frame(base: nat, locals: nat)

  datatype Handler = Handler(height: nat, depth: nat)

  datatype Op =
    | Push(v: Value) | Pop | Load(i: nat) | Store(i: nat)
    | Call(argc: nat, locals: nat) | Return
    | MakeClosure(func: nat, captures: seq<Capture>) | GetUp(i: nat) | SetUp(i: nat) | CloseTop
    | TryBegin | TryEnd | Throw

  // ----- The machine -----

  datatype Upvalue = Open(slot: nat) | Closed(v: V)

  /** Upvalues are named by the order they were made in; None is a capture that found nothing. */
  datatype Closure = Closure(func: nat, ups: seq<Option<nat>>)

  datatype Vm = Vm(stack: seq<V>, frames: seq<Frame>, handlers: seq<Handler>, closures: seq<Closure>,
                   uvs: seq<Upvalue>, open: seq<nat>)

  function Nulls(n: nat): seq<V> { seq(n, _ => Plain(Null)) }

  predicate OpenAt(vm: Vm, u: nat, s: nat) { u < |vm.uvs| && vm.uvs[u] == Open(s) }

  /** First upvalue of a list that is open on a slot; |vm.uvs| if there is none. */
  function FindOpen(vm: Vm, list: seq<nat>, s: nat): (u: nat)
    ensures u == |vm.uvs| || (u in list && OpenAt(vm, u, s))
    ensures u == |vm.uvs| ==> forall k :: 0 <= k < |list| ==> !OpenAt(vm, list[k], s)
  {
    if list == [] then |vm.uvs|
    else if OpenAt(vm, list[0], s) then list[0]
    else FindOpen(vm, list[1..], s)
  }

  function Top(frames: seq<Frame>): Frame
    requires frames != []
  {
    frames[|frames| - 1]
  }

  /** The slot where the closure being run is looked for. */
  function CalleeSlot(frames: seq<Frame>): nat
    requires frames != []
  {
    if Top(frames).base > 0 then Top(frames).base - 1 else 0
  }

  /** The closure being run, if there is one. */
  function Callee(vm: Vm): Option<Closure>
    requires vm.frames != []
  {
    var s := CalleeSlot(vm.frames);
    if s < |vm.stack| && vm.stack[s].Clo? && vm.stack[s].id < |vm.closures| then Some(vm.closures[vm.stack[s].id]) else None
  }

  /** The upvalue an operand of the running closure names. */
  function Operand(c: Option<Closure>, i: nat): Option<nat> {
    if c.Some? && i < |c.value.ups| then c.value.ups[i] else None
  }

  /** The upvalue behind a local slot, made and put in front of the list if the slot has none. */
  function Share(vm: Vm, s: nat): (Vm, nat) {
    var u := FindOpen(vm, vm.open, s);
    if u < |vm.uvs| then (vm, u) else (vm.(uvs := vm.uvs + [Open(s)], open := [u] + vm.open), u)
  }

  datatype Captured<T> = Captured(st: T, ups: seq<Option<nat>>)

  function CaptureAll(vm: Vm, captures: seq<Capture>, ups: seq<Option<nat>>): Option<Captured<Vm>>
    requires vm.frames != []
    decreases |captures|
  {
    if captures == [] then Some(Captured(vm, ups))
    else
      match captures[0]
      case Local(i) =>
        if Top(vm.frames).base + i >= |vm.stack| then None
        else
          var (next, u) := Share(vm, Top(vm.frames).base + i);
          CaptureAll(next, captures[1..], ups + [Some(u)])
      case Enclosing(i) =>
        CaptureAll(vm, captures[1..], ups + [Operand(Callee(vm), i)])
  }

  /** Every open upvalue at or above a height lies on the live stack. */
  predicate LiveFrom(vm: Vm, k: nat) {
    forall u :: 0 <= u < |vm.uvs| && vm.uvs[u].Open? && vm.uvs[u].slot >= k ==> vm.uvs[u].slot < |vm.stack|
  }

  function CloseOne(vm: Vm, k: nat, u: nat): Upvalue
    requires LiveFrom(vm, k) && u < |vm.uvs|
  {
    if vm.uvs[u].Open? && vm.uvs[u].slot >= k then Closed(vm.stack[vm.uvs[u].slot]) else vm.uvs[u]
  }

  function Below(vm: Vm, k: nat, list: seq<nat>): (r: seq<nat>)
    ensures forall u :: u in r <==> u in list && u < |vm.uvs| && vm.uvs[u].Open? && vm.uvs[u].slot < k
    ensures NoDuplicates(list) ==> NoDuplicates(r)
  {
    if list == [] then []
    else
      var rest := Below(vm, k, list[1..]);
      if list[0] < |vm.uvs| && vm.uvs[list[0]].Open? && vm.uvs[list[0]].slot < k then [list[0]] + rest else rest
  }

  predicate NoDuplicates(list: seq<nat>) { forall i, j :: 0 <= i < j < |list| ==> list[i] != list[j] }

  /** Closes every open upvalue at or above a height. */
  function CloseFrom(vm: Vm, k: nat): Vm
    requires LiveFrom(vm, k)
  {
    vm.(uvs := seq(|vm.uvs|, u requires 0 <= u < |vm.uvs| => CloseOne(vm, k, u)), open := Below(vm, k, vm.open))
  }

  function Push1(vm: Vm, v: V): Vm { vm.(stack := vm.stack + [v]) }

  function Drop(vm: Vm, k: nat): Vm
    requires k <= |vm.stack|
  {
    vm.(stack := vm.stack[..k])
  }

  function Write(vm: Vm, s: nat, v: V): Vm
    requires s < |vm.stack|
  {
    vm.(stack := vm.stack[s := v])
  }

  function Read(vm: Vm, u: nat): Option<V> {
    if u >= |vm.uvs| then None
    else if vm.uvs[u].Closed? then Some(vm.uvs[u].v)
    else if vm.uvs[u].slot < |vm.stack| then Some(vm.stack[vm.uvs[u].slot])
    else None
  }

  function Assign(vm: Vm, u: nat, v: V): Option<Vm> {
    if u >= |vm.uvs| then None
    else if vm.uvs[u].Closed? then Some(vm.(uvs := vm.uvs[u := Closed(v)]))
    else if vm.uvs[u].slot < |vm.stack| then Some(Write(vm, vm.uvs[u].slot, v))
    else None
  }

  /** One instruction; None is a runtime error, or an access outside the live stack. */
  function Step(vm: Vm, op: Op): Option<Vm> {
    var n := |vm.stack|;
    if vm.frames == [] then None
    else
      match op
      case Push(v) => if n >= Limits.STACK_MAX then None else Some(Push1(vm, Plain(v)))
      case Pop => if n == 0 then None else Some(Drop(vm, n - 1))
      case Load(i) =>
        var s := Top(vm.frames).base + i;
        if s >= n || n >= Limits.STACK_MAX then None else Some(Push1(vm, vm.stack[s]))
      case Store(i) =>
        var s := Top(vm.frames).base + i;
        if s + 1 >= n then None else Some(Write(Drop(vm, n - 1), s, vm.stack[n - 1]))
      case Call(argc, locals) =>
        var more := if locals > argc then locals - argc else 0;
        if argc > n || |vm.frames| >= Limits.FRAMES_MAX || n + more > Limits.STACK_MAX then None
        else Some(vm.(stack := vm.stack + Nulls(more), frames := vm.frames + [Frame(n - argc, locals)]))
      case Return =>
        var base := Top(vm.frames).base;
        if n == 0 || base >= n || !LiveFrom(vm, base) then None
        else
          var rest := vm.frames[..|vm.frames| - 1];
          Some(Push1(Drop(CloseFrom(vm, base), if rest == [] then 0 else base), vm.stack[n - 1]).(frames := rest))
      case MakeClosure(func, captures) =>
        var c := CaptureAll(vm, captures, []);
        if c.None? || n >= Limits.STACK_MAX then None
        else Some(Push1(c.value.st.(closures := c.value.st.closures + [Closure(func, c.value.ups)]), Clo(|vm.closures|)))
      case GetUp(i) =>
        var u := Operand(Callee(vm), i);
        if u.None? || Read(vm, u.value).None? || n >= Limits.STACK_MAX then None else Some(Push1(vm, Read(vm, u.value).value))
      case SetUp(i) =>
        if n == 0 then None
        else
          var popped := Drop(vm, n - 1);
          var u := Operand(Callee(popped), i);
          if u.None? then None else Assign(popped, u.value, vm.stack[n - 1])
      case CloseTop => if n == 0 then Some(vm) else if !LiveFrom(vm, n - 1) then None else Some(CloseFrom(vm, n - 1))
      case TryBegin =>
        if |vm.handlers| >= HANDLERS_MAX then None else Some(vm.(handlers := vm.handlers + [Handler(n, |vm.frames|)]))
      case TryEnd => if vm.handlers == [] then None else Some(vm.(handlers := vm.handlers[..|vm.handlers| - 1]))
      case Throw =>
        if n == 0 || vm.handlers == [] then None
        else
          var h := vm.handlers[|vm.handlers| - 1];
          if h.height >= n || h.depth > |vm.frames| then None
          else Some(Push1(Drop(vm, h.height), vm.stack[n - 1]).(frames := vm.frames[..h.depth],
                                                                handlers := vm.handlers[..|vm.handlers| - 1]))
  }

  // ----- The reference machine -----

  /** Stack positions and captures are cells of a store that only grows. */
  datatype Ref = Ref(cells: seq<nat>, store: seq<V>, frames: seq<Frame>, handlers: seq<Handler>, closures: seq<Closure>)

  predicate CellsIn(r: Ref) {
    && (forall k :: 0 <= k < |r.cells| ==> r.cells[k] < |r.store|)
    && forall c :: 0 <= c < |r.closures| ==> UpsIn(r.closures[c].ups, |r.store|)
  }

  predicate UpsIn(ups: seq<Option<nat>>, n: nat) { forall i :: 0 <= i < |ups| && ups[i].Some? ==> ups[i].value < n }

  function PushRef(r: Ref, v: V): Ref { r.(cells := r.cells + [|r.store|], store := r.store + [v]) }

  function DropRef(r: Ref, k: nat): Ref
    requires k <= |r.cells|
  {
    r.(cells := r.cells[..k])
  }

  function ValueAt(r: Ref, s: nat): V
    requires CellsIn(r) && s < |r.cells|
  {
    r.store[r.cells[s]]
  }

  function WriteRef(r: Ref, cell: nat, v: V): Ref
    requires cell < |r.store|
  {
    r.(store := r.store[cell := v])
  }

  function CalleeRef(r: Ref): Option<Closure>
    requires r.frames != [] && CellsIn(r)
  {
    var s := CalleeSlot(r.frames);
    if s < |r.cells| && ValueAt(r, s).Clo? && ValueAt(r, s).id < |r.closures| then Some(r.closures[ValueAt(r, s).id]) else None
  }

  function CellsOf(r: Ref, captures: seq<Capture>, ups: seq<Option<nat>>): Option<seq<Option<nat>>>
    requires r.frames != [] && CellsIn(r)
    decreases |captures|
  {
    if captures == [] then Some(ups)
    else
      match captures[0]
      case Local(i) =>
        if Top(r.frames).base + i >= |r.cells| then None
        else CellsOf(r, captures[1..], ups + [Some(r.cells[Top(r.frames).base + i])])
      case Enclosing(i) =>
        CellsOf(r, captures[1..], ups + [Operand(CalleeRef(r), i)])
  }

  function PushNulls(r: Ref, n: nat): Ref
    decreases n
  {
    if n == 0 then r else PushNulls(PushRef(r, Plain(Null)), n - 1)
  }

  /** The same instruction with a cell for every variable; there is nothing to close. */
  function StepRef(r: Ref, op: Op): Option<Ref>
    requires CellsIn(r)
  {
    var n := |r.cells|;
    if r.frames == [] then None
    else
      match op
      case Push(v) => if n >= Limits.STACK_MAX then None else Some(PushRef(r, Plain(v)))
      case Pop => if n == 0 then None else Some(DropRef(r, n - 1))
      case Load(i) =>
        var s := Top(r.frames).base + i;
        if s >= n || n >= Limits.STACK_MAX then None else Some(PushRef(r, ValueAt(r, s)))
      case Store(i) =>
        var s := Top(r.frames).base + i;
        if s + 1 >= n then None else Some(WriteRef(DropRef(r, n - 1), r.cells[s], ValueAt(r, n - 1)))
      case Call(argc, locals) =>
        var more := if locals > argc then locals - argc else 0;
        if argc > n || |r.frames| >= Limits.FRAMES_MAX || n + more > Limits.STACK_MAX then None
        else Some(PushNulls(r, more).(frames := r.frames + [Frame(n - argc, locals)]))
      case Return =>
        var base := Top(r.frames).base;
        if n == 0 || base >= n then None
        else
          var rest := r.frames[..|r.frames| - 1];
          Some(PushRef(DropRef(r, if rest == [] then 0 else base), ValueAt(r, n - 1)).(frames := rest))
      case MakeClosure(func, captures) =>
        var c := CellsOf(r, captures, []);
        if c.None? || n >= Limits.STACK_MAX then None
        else Some(PushRef(r.(closures := r.closures + [Closure(func, c.value)]), Clo(|r.closures|)))
      case GetUp(i) =>
        var c := Operand(CalleeRef(r), i);
        if c.None? || c.value >= |r.store| || n >= Limits.STACK_MAX then None else Some(PushRef(r, r.store[c.value]))
      case SetUp(i) =>
        if n == 0 then None
        else
          var popped := DropRef(r, n - 1);
          var c := Operand(CalleeRef(popped), i);
          if c.None? || c.value >= |r.store| then None else Some(WriteRef(popped, c.value, ValueAt(r, n - 1)))
      case CloseTop => if n == 0 then Some(r) else Some(PushRef(DropRef(r, n - 1), ValueAt(r, n - 1)))
      case TryBegin =>
        if |r.handlers| >= HANDLERS_MAX then None else Some(r.(handlers := r.handlers + [Handler(n, |r.frames|)]))
      case TryEnd => if r.handlers == [] then None else Some(r.(handlers := r.handlers[..|r.handlers| - 1]))
      case Throw =>
        if n == 0 || r.handlers == [] then None
        else
          var h := r.handlers[|r.handlers| - 1];
          if h.height >= n || h.depth > |r.frames| then None
          else Some(PushRef(DropRef(r, h.height), ValueAt(r, n - 1)).(frames := r.frames[..h.depth],
                                                                    handlers := r.handlers[..|r.handlers| - 1]))
  }

  // ----- Refinement -----

  predicate StackShows(vm: Vm, r: Ref) {
    && |vm.stack| == |r.cells|
    && (forall k :: 0 <= k < |r.cells| ==> r.cells[k] < |r.store| && vm.stack[k] == r.store[r.cells[k]])
    && NoDuplicates(r.cells)
  }

  /** An open upvalue stands for its slot's cell, a closed one for a cell no slot has. */
  predicate UpvalueShows(vm: Vm, r: Ref, m: seq<nat>, u: nat)
    requires u < |vm.uvs| == |m|
  {
    && m[u] < |r.store|
    && match vm.uvs[u]
       case Open(s) => s < |r.cells| && r.cells[s] == m[u]
       case Closed(v) => r.store[m[u]] == v && m[u] !in r.cells
  }

  predicate UpvaluesShow(vm: Vm, r: Ref, m: seq<nat>) {
    && |vm.uvs| == |m|
    && (forall u :: 0 <= u < |m| ==> UpvalueShows(vm, r, m, u))
    && NoDuplicates(m)
  }

  predicate UpShows(m: seq<nat>, u: Option<nat>, c: Option<nat>) {
    match u
    case None => c.None?
    case Some(k) => k < |m| && c == Some(m[k])
  }

  predicate UpsShow(m: seq<nat>, us: seq<Option<nat>>, cs: seq<Option<nat>>) {
    |us| == |cs| && forall i :: 0 <= i < |us| ==> UpShows(m, us[i], cs[i])
  }

  predicate ClosuresShow(vm: Vm, r: Ref, m: seq<nat>) {
    && |vm.closures| == |r.closures|
    && forall c :: 0 <= c < |vm.closures| ==>
         vm.closures[c].func == r.closures[c].func && UpsShow(m, vm.closures[c].ups, r.closures[c].ups)
  }

  /** The list holds every open upvalue, once. */
  ghost predicate ListShows(vm: Vm) {
    NoDuplicates(vm.open) && forall u: nat :: u in vm.open <==> u < |vm.uvs| && vm.uvs[u].Open?
  }

  /** `m` gives the cell every upvalue stands for. */
  ghost predicate Refines(vm: Vm, r: Ref, m: seq<nat>) {
    && StackShows(vm, r) && UpvaluesShow(vm, r, m) && ClosuresShow(vm, r, m) && ListShows(vm)
    && vm.frames == r.frames && vm.handlers == r.handlers
    && (vm.frames != [] ==> vm.frames[0].base == 0)
  }

  predicate SomeOpen(vm: Vm, k: nat) { exists u :: 0 <= u < |vm.uvs| && vm.uvs[u].Open? && vm.uvs[u].slot >= k }

  lemma CellsAreIn(vm: Vm, r: Ref, m: seq<nat>)
    requires Refines(vm, r, m)
    ensures CellsIn(r)
  {
    forall c | 0 <= c < |r.closures| ensures UpsIn(r.closures[c].ups, |r.store|) {
      assert UpsShow(m, vm.closures[c].ups, r.closures[c].ups);
      forall i | 0 <= i < |r.closures[c].ups| && r.closures[c].ups[i].Some? ensures r.closures[c].ups[i].value < |r.store| {
        assert UpShows(m, vm.closures[c].ups[i], r.closures[c].ups[i]);
        assert UpvalueShows(vm, r, m, vm.closures[c].ups[i].value);
      }
    }
  }

  /** At most one upvalue is open on a slot, and all of them on the live stack. */
  lemma OneUpvaluePerSlot(vm: Vm, r: Ref, m: seq<nat>, s: nat, u: nat, w: nat)
    requires Refines(vm, r, m) && OpenAt(vm, u, s) && OpenAt(vm, w, s)
    ensures u == w && s < |vm.stack|
  {
    assert UpvalueShows(vm, r, m, u) && UpvalueShows(vm, r, m, w);
  }

  lemma AllLive(vm: Vm, r: Ref, m: seq<nat>, k: nat)
    requires Refines(vm, r, m)
    ensures LiveFrom(vm, k)
  {
    forall u | 0 <= u < |vm.uvs| && vm.uvs[u].Open? ensures vm.uvs[u].slot < |vm.stack| {
      assert UpvalueShows(vm, r, m, u);
    }
  }

  // ----- The steps the instructions are made of -----

  lemma PushRefines(vm: Vm, r: Ref, m: seq<nat>, v: V)
    requires Refines(vm, r, m)
    ensures Refines(Push1(vm, v), PushRef(r, v), m)
  {
    var vm', r' := Push1(vm, v), PushRef(r, v);
    forall u | 0 <= u < |m| ensures UpvalueShows(vm', r', m, u) {
      assert UpvalueShows(vm, r, m, u);
    }
  }

  lemma DropRefines(vm: Vm, r: Ref, m: seq<nat>, k: nat)
    requires Refines(vm, r, m) && k <= |vm.stack| && !SomeOpen(vm, k)
    ensures Refines(Drop(vm, k), DropRef(r, k), m)
  {
    var vm', r' := Drop(vm, k), DropRef(r, k);
    forall u | 0 <= u < |m| ensures UpvalueShows(vm', r', m, u) {
      assert UpvalueShows(vm, r, m, u);
    }
  }

  lemma CloseDropRefines(vm: Vm, r: Ref, m: seq<nat>, k: nat)
    requires Refines(vm, r, m) && k <= |vm.stack|
    ensures LiveFrom(vm, k) && Refines(Drop(CloseFrom(vm, k), k), DropRef(r, k), m)
  {
    AllLive(vm, r, m, k);
    var vm', r' := Drop(CloseFrom(vm, k), k), DropRef(r, k);
    forall u | 0 <= u < |m| ensures UpvalueShows(vm', r', m, u) {
      assert UpvalueShows(vm, r, m, u);
    }
    assert vm'.open == Below(vm, k, vm.open);
  }

  lemma WriteRefines(vm: Vm, r: Ref, m: seq<nat>, s: nat, v: V)
    requires Refines(vm, r, m) && s < |vm.stack|
    ensures Refines(Write(vm, s, v), WriteRef(r, r.cells[s], v), m)
  {
    var vm', r' := Write(vm, s, v), WriteRef(r, r.cells[s], v);
    forall u | 0 <= u < |m| ensures UpvalueShows(vm', r', m, u) {
      assert UpvalueShows(vm, r, m, u);
    }
  }

  lemma AssignRefines(vm: Vm, r: Ref, m: seq<nat>, u: nat, v: V)
    requires Refines(vm, r, m) && u < |m|
    ensures m[u] < |r.store| && Assign(vm, u, v).Some? && Refines(Assign(vm, u, v).value, WriteRef(r, m[u], v), m)
  {
    assert UpvalueShows(vm, r, m, u);
    if vm.uvs[u].Open? {
      WriteRefines(vm, r, m, vm.uvs[u].slot, v);
    } else {
      var vm', r' := Assign(vm, u, v).value, WriteRef(r, m[u], v);
      forall w | 0 <= w < |m| ensures UpvalueShows(vm', r', m, w) {
        assert UpvalueShows(vm, r, m, w);
      }
    }
  }

  lemma ReadShows(vm: Vm, r: Ref, m: seq<nat>, u: nat)
    requires Refines(vm, r, m) && u < |m|
    ensures m[u] < |r.store| && Read(vm, u) == Some(r.store[m[u]])
  {
    assert UpvalueShows(vm, r, m, u);
  }

  lemma ShareRefines(vm: Vm, r: Ref, m: seq<nat>, s: nat) returns (more: seq<nat>)
    requires Refines(vm, r, m) && s < |vm.stack|
    ensures m <= more && Refines(Share(vm, s).0, r, more) && Share(vm, s).1 < |more| && more[Share(vm, s).1] == r.cells[s]
    ensures Share(vm, s).0.stack == vm.stack && Share(vm, s).0.closures == vm.closures
  {
    var u := FindOpen(vm, vm.open, s);
    if u < |vm.uvs| {
      more := m;
      assert UpvalueShows(vm, r, m, u);
    } else {
      more := m + [r.cells[s]];
      assert u !in vm.open;
      var vm' := Share(vm, s).0;
      forall w | 0 <= w < |more| ensures UpvalueShows(vm', r, more, w) {
        if w < |m| {
          assert UpvalueShows(vm, r, m, w);
        }
      }
      forall w | 0 <= w < |m| ensures m[w] != r.cells[s] {
        assert UpvalueShows(vm, r, m, w);
      }
      MoreShow(vm, r, m, more);
    }
  }

  lemma MoreShow(vm: Vm, r: Ref, m: seq<nat>, more: seq<nat>)
    requires ClosuresShow(vm, r, m) && m <= more
    ensures ClosuresShow(vm, r, more)
  {
    forall c | 0 <= c < |vm.closures| ensures UpsShow(more, vm.closures[c].ups, r.closures[c].ups) {
      UpsShowMore(m, more, vm.closures[c].ups, r.closures[c].ups);
    }
  }

  lemma UpsShowMore(m: seq<nat>, more: seq<nat>, us: seq<Option<nat>>, cs: seq<Option<nat>>)
    requires UpsShow(m, us, cs) && m <= more
    ensures UpsShow(more, us, cs)
  {
    forall i | 0 <= i < |us| ensures UpShows(more, us[i], cs[i]) {
      assert UpShows(m, us[i], cs[i]);
    }
  }

  /** Both machines run the same closure. */
  lemma CalleeShows(vm: Vm, r: Ref, m: seq<nat>)
    requires Refines(vm, r, m) && vm.frames != []
    ensures CellsIn(r)
    ensures Callee(vm).Some? == CalleeRef(r).Some?
    ensures Callee(vm).Some? ==> UpsShow(m, Callee(vm).value.ups, CalleeRef(r).value.ups)
  {
    CellsAreIn(vm, r, m);
  }

  lemma UpsShowOne(m: seq<nat>, us: seq<Option<nat>>, cs: seq<Option<nat>>, u: Option<nat>, c: Option<nat>)
    requires UpsShow(m, us, cs) && UpShows(m, u, c)
    ensures UpsShow(m, us + [u], cs + [c])
  {
  }

  lemma OperandShows(m: seq<nat>, a: Option<Closure>, b: Option<Closure>, i: nat)
    requires a.Some? == b.Some? && (a.Some? ==> UpsShow(m, a.value.ups, b.value.ups))
    ensures UpShows(m, Operand(a, i), Operand(b, i))
  {
  }

  lemma {:induction false} CaptureRefines(vm: Vm, r: Ref, m: seq<nat>, captures: seq<Capture>, us: seq<Option<nat>>, cs: seq<Option<nat>>)
    returns (more: seq<nat>)
    requires Refines(vm, r, m) && vm.frames != [] && CellsIn(r) && UpsShow(m, us, cs)
    ensures var a, b := CaptureAll(vm, captures, us), CellsOf(r, captures, cs);
            a.Some? == b.Some? && m <= more &&
            (a.Some? ==> Refines(a.value.st, r, more) && UpsShow(more, a.value.ups, b.value) &&
                         a.value.st.stack == vm.stack && a.value.st.closures == vm.closures)
    decreases |captures|
  {
    hide StackShows; hide UpvaluesShow; hide ClosuresShow; hide ListShows; hide Callee; hide CalleeRef; hide UpsShow; hide Share;
    StackFacts(vm, r, m);
    more := m;
    if captures != [] {
      match captures[0]
      case Local(i) =>
        var s := Top(vm.frames).base + i;
        if s < |vm.stack| {
          var next := ShareRefines(vm, r, m, s);
          var (vm', u) := Share(vm, s);
          UpsShowMore(m, next, us, cs);
          UpsShowOne(next, us, cs, Some(u), Some(r.cells[s]));
          more := CaptureRefines(vm', r, next, captures[1..], us + [Some(u)], cs + [Some(r.cells[s])]);
        }
      case Enclosing(i) =>
        CalleeShows(vm, r, m);
        var a, b := Callee(vm), CalleeRef(r);
        var u, c := Operand(a, i), Operand(b, i);
        OperandShows(m, a, b, i);
        UpsShowOne(m, us, cs, u, c);
        more := CaptureRefines(vm, r, m, captures[1..], us + [u], cs + [c]);
    }
  }

  // ----- One instruction -----

  /** The instruction leaves no open upvalue on a slot it drops without closing it. */
  predicate NoneLeft(vm: Vm, op: Op) {
    var n := |vm.stack|;
    match op
    case Pop => n > 0 ==> !SomeOpen(vm, n - 1)
    case Store(_) => n > 0 ==> !SomeOpen(vm, n - 1)
    case SetUp(_) => n > 0 ==> !SomeOpen(vm, n - 1)
    case Throw => vm.handlers != [] ==> !SomeOpen(vm, vm.handlers[|vm.handlers| - 1].height)
    case _ => true
  }

  lemma PopRefines(vm: Vm, r: Ref, m: seq<nat>, op: Op)
    requires Refines(vm, r, m) && CellsIn(r) && NoneLeft(vm, op) && Step(vm, op).Some?
    requires op.Pop? || op.Store? || op.Throw?
    ensures StepRef(r, op).Some? && Refines(Step(vm, op).value, StepRef(r, op).value, m)
  {
    hide StackShows; hide UpvaluesShow; hide ClosuresShow; hide ListShows; hide SomeOpen; hide NoDuplicates;
    StackFacts(vm, r, m);
    var n := |vm.stack|;
    match op
    case Pop => DropRefines(vm, r, m, n - 1);
    case Store(i) =>
      DropRefines(vm, r, m, n - 1);
      WriteRefines(Drop(vm, n - 1), DropRef(r, n - 1), m, Top(vm.frames).base + i, vm.stack[n - 1]);
    case Throw =>
      var h := vm.handlers[|vm.handlers| - 1].height;
      DropRefines(vm, r, m, h);
      PushRefines(Drop(vm, h), DropRef(r, h), m, vm.stack[n - 1]);
      FramesRefine(Push1(Drop(vm, h), vm.stack[n - 1]), PushRef(DropRef(r, h), vm.stack[n - 1]), m,
                   Step(vm, op).value.frames, Step(vm, op).value.handlers);
  }

  lemma StackFacts(vm: Vm, r: Ref, m: seq<nat>)
    requires Refines(vm, r, m) && CellsIn(r)
    ensures |vm.stack| == |r.cells| && forall k :: 0 <= k < |r.cells| ==> ValueAt(r, k) == vm.stack[k]
    ensures |vm.closures| == |r.closures| && |m| == |vm.uvs|
  {
  }

  lemma FramesRefine(vm: Vm, r: Ref, m: seq<nat>, frames: seq<Frame>, handlers: seq<Handler>)
    requires Refines(vm, r, m) && (frames != [] ==> frames[0].base == 0)
    ensures Refines(vm.(frames := frames, handlers := handlers), r.(frames := frames, handlers := handlers), m)
  {
    var vm', r' := vm.(frames := frames, handlers := handlers), r.(frames := frames, handlers := handlers);
    forall u | 0 <= u < |m| ensures UpvalueShows(vm', r', m, u) {
      assert UpvalueShows(vm, r, m, u);
    }
  }

  lemma {:induction false} NullsRefine(vm: Vm, r: Ref, m: seq<nat>, n: nat)
    requires Refines(vm, r, m)
    ensures Refines(vm.(stack := vm.stack + Nulls(n)), PushNulls(r, n), m)
    ensures PushNulls(r, n).frames == r.frames && PushNulls(r, n).handlers == r.handlers
    decreases n
  {
    hide StackShows; hide UpvaluesShow; hide ClosuresShow; hide ListShows;
    if n == 0 {
      assert vm.stack + Nulls(0) == vm.stack;
    } else {
      PushRefines(vm, r, m, Plain(Null));
      NullsRefine(Push1(vm, Plain(Null)), PushRef(r, Plain(Null)), m, n - 1);
      assert vm.stack + [Plain(Null)] + Nulls(n - 1) == vm.stack + Nulls(n);
    }
  }

  lemma FrameRefines(vm: Vm, r: Ref, m: seq<nat>, op: Op)
    requires Refines(vm, r, m) && CellsIn(r) && Step(vm, op).Some?
    requires op.Call? || op.Return? || op.TryBegin? || op.TryEnd?
    ensures StepRef(r, op).Some? && Refines(Step(vm, op).value, StepRef(r, op).value, m)
  {
    hide StackShows; hide UpvaluesShow; hide ClosuresShow; hide ListShows; hide NoDuplicates; hide CloseOne; hide Below;
    StackFacts(vm, r, m);
    var n, next := |vm.stack|, Step(vm, op).value;
    match op
    case Call(argc, locals) =>
      var more := if locals > argc then locals - argc else 0;
      NullsRefine(vm, r, m, more);
      FramesRefine(vm.(stack := vm.stack + Nulls(more)), PushNulls(r, more), m, next.frames, next.handlers);
    case Return =>
      var base, rest := Top(vm.frames).base, vm.frames[..|vm.frames| - 1];
      CloseDropRefines(vm, r, m, base);
      var vm', r' := Drop(CloseFrom(vm, base), base), DropRef(r, base);
      PushRefines(vm', r', m, vm.stack[n - 1]);
      FramesRefine(Push1(vm', vm.stack[n - 1]), PushRef(r', vm.stack[n - 1]), m, next.frames, next.handlers);
    case TryBegin => FramesRefine(vm, r, m, next.frames, next.handlers);
    case TryEnd => FramesRefine(vm, r, m, next.frames, next.handlers);
  }

  lemma CloseTopRefines(vm: Vm, r: Ref, m: seq<nat>)
    requires Refines(vm, r, m) && CellsIn(r) && vm.frames != []
    ensures Step(vm, CloseTop).Some? && StepRef(r, CloseTop).Some? && Refines(Step(vm, CloseTop).value, StepRef(r, CloseTop).value, m)
  {
    hide UpvaluesShow; hide ClosuresShow; hide ListShows; hide NoDuplicates;
    StackFacts(vm, r, m);
    var n := |vm.stack|;
    if n > 0 {
      AllLive(vm, r, m, n - 1);
      CloseDropRefines(vm, r, m, n - 1);
      var vm', r' := Drop(CloseFrom(vm, n - 1), n - 1), DropRef(r, n - 1);
      PushRefines(vm', r', m, vm.stack[n - 1]);
      assert vm.stack[..n - 1] + [vm.stack[n - 1]] == vm.stack;
    }
  }

  lemma ReadRefines(vm: Vm, r: Ref, m: seq<nat>, op: Op)
    requires Refines(vm, r, m) && CellsIn(r) && Step(vm, op).Some?
    requires op.Push? || op.Load? || op.GetUp?
    ensures StepRef(r, op).Some? && Refines(Step(vm, op).value, StepRef(r, op).value, m)
  {
    hide StackShows; hide UpvaluesShow; hide ClosuresShow; hide ListShows; hide NoDuplicates; hide Callee; hide CalleeRef; hide Read;
    StackFacts(vm, r, m);
    match op
    case Push(v) => PushRefines(vm, r, m, Plain(v));
    case Load(i) => PushRefines(vm, r, m, vm.stack[Top(vm.frames).base + i]);
    case GetUp(i) =>
      CalleeShows(vm, r, m);
      assert UpShows(m, Callee(vm).value.ups[i], CalleeRef(r).value.ups[i]);
      var u := Callee(vm).value.ups[i].value;
      ReadShows(vm, r, m, u);
      PushRefines(vm, r, m, Read(vm, u).value);
  }

  lemma SetUpRefines(vm: Vm, r: Ref, m: seq<nat>, i: nat)
    requires Refines(vm, r, m) && CellsIn(r) && NoneLeft(vm, SetUp(i)) && Step(vm, SetUp(i)).Some?
    ensures StepRef(r, SetUp(i)).Some? && Refines(Step(vm, SetUp(i)).value, StepRef(r, SetUp(i)).value, m)
  {
    hide StackShows; hide UpvaluesShow; hide ClosuresShow; hide ListShows; hide NoDuplicates; hide Callee; hide CalleeRef; hide Assign; hide SomeOpen;
    StackFacts(vm, r, m);
    var n := |vm.stack|;
    DropRefines(vm, r, m, n - 1);
    var vm', r' := Drop(vm, n - 1), DropRef(r, n - 1);
    CalleeShows(vm', r', m);
    assert UpShows(m, Callee(vm').value.ups[i], CalleeRef(r').value.ups[i]);
    AssignRefines(vm', r', m, Callee(vm').value.ups[i].value, vm.stack[n - 1]);
  }

  lemma MakeRefines(vm: Vm, r: Ref, m: seq<nat>, func: nat, captures: seq<Capture>) returns (more: seq<nat>)
    requires Refines(vm, r, m) && CellsIn(r) && Step(vm, MakeClosure(func, captures)).Some?
    ensures m <= more && StepRef(r, MakeClosure(func, captures)).Some?
    ensures Refines(Step(vm, MakeClosure(func, captures)).value, StepRef(r, MakeClosure(func, captures)).value, more)
  {
    hide StackShows; hide UpvaluesShow; hide ListShows; hide NoDuplicates; hide CaptureAll; hide CellsOf; hide UpsShow;
    StackFacts(vm, r, m);
    assert UpsShow(m, [], []) by { NoUps(m); }
    more := CaptureRefines(vm, r, m, captures, [], []);
    var a, cs := CaptureAll(vm, captures, []).value, CellsOf(r, captures, []).value;
    var vm', r' := a.st.(closures := a.st.closures + [Closure(func, a.ups)]), r.(closures := r.closures + [Closure(func, cs)]);
    ClosureAdded(a.st, r, more, func, a.ups, cs);
    PushRefines(vm', r', more, Clo(|vm.closures|));
  }

  lemma NoUps(m: seq<nat>)
    ensures UpsShow(m, [], [])
  {
  }

  lemma ClosureAdded(vm: Vm, r: Ref, m: seq<nat>, func: nat, us: seq<Option<nat>>, cs: seq<Option<nat>>)
    requires Refines(vm, r, m) && UpsShow(m, us, cs)
    ensures Refines(vm.(closures := vm.closures + [Closure(func, us)]), r.(closures := r.closures + [Closure(func, cs)]), m)
  {
    hide UpsShow; hide NoDuplicates;
    var vm', r' := vm.(closures := vm.closures + [Closure(func, us)]), r.(closures := r.closures + [Closure(func, cs)]);
    forall u | 0 <= u < |m| ensures UpvalueShows(vm', r', m, u) {
      assert UpvalueShows(vm, r, m, u);
    }
  }

  /** An instruction that leaves no upvalue behind does what the reference does. */
  lemma {:induction false} StepRefines(vm: Vm, r: Ref, m: seq<nat>, op: Op) returns (more: seq<nat>)
    requires Refines(vm, r, m) && Step(vm, op).Some? && NoneLeft(vm, op)
    ensures CellsIn(r) && StepRef(r, op).Some? && m <= more && Refines(Step(vm, op).value, StepRef(r, op).value, more)
  {
    hide Step; hide StepRef; hide Refines;
    CellsAreIn(vm, r, m);
    more := m;
    match op
    case MakeClosure(func, captures) => more := MakeRefines(vm, r, m, func, captures);
    case SetUp(i) => SetUpRefines(vm, r, m, i);
    case CloseTop =>
      StepHasFrame(vm, op);
      CloseTopRefines(vm, r, m);
    case Pop => PopRefines(vm, r, m, op);
    case Store(_) => PopRefines(vm, r, m, op);
    case Throw => PopRefines(vm, r, m, op);
    case Push(_) => ReadRefines(vm, r, m, op);
    case Load(_) => ReadRefines(vm, r, m, op);
    case GetUp(_) => ReadRefines(vm, r, m, op);
    case _ => FrameRefines(vm, r, m, op);
  }

  lemma StepHasFrame(vm: Vm, op: Op)
    requires Step(vm, op).Some?
    ensures vm.frames != []
  {
  }

  // ----- Exactness and runs -----

  /** The instruction refines the reference, with the old upvalues standing for their old cells, exactly when it leaves none behind. */
  lemma {:induction false} StepExact(vm: Vm, r: Ref, m: seq<nat>, op: Op)
    requires Refines(vm, r, m) && Step(vm, op).Some?
    ensures CellsIn(r) && StepRef(r, op).Some?
    ensures NoneLeft(vm, op) <==> exists more :: m <= more && Refines(Step(vm, op).value, StepRef(r, op).value, more)
  {
    CellsAreIn(vm, r, m);
    if NoneLeft(vm, op) {
      var more := StepRefines(vm, r, m, op);
    } else {
      RefStepsToo(vm, r, m, op);
      forall more | m <= more ensures !Refines(Step(vm, op).value, StepRef(r, op).value, more) {
        LeftBehind(vm, r, m, op, more);
      }
    }
  }

  lemma RefStepsToo(vm: Vm, r: Ref, m: seq<nat>, op: Op)
    requires Refines(vm, r, m) && CellsIn(r) && Step(vm, op).Some? && !NoneLeft(vm, op)
    ensures StepRef(r, op).Some?
  {
    hide UpvaluesShow; hide ListShows; hide NoDuplicates; hide SomeOpen;
    if op.SetUp? {
      var n := |vm.stack|;
      var vm', r' := Drop(vm, n - 1), DropRef(r, n - 1);
      assert Callee(vm').Some? && CalleeRef(r').Some?;
      assert UpsShow(m, Callee(vm').value.ups, CalleeRef(r').value.ups);
      assert UpShows(m, Callee(vm').value.ups[op.i], CalleeRef(r').value.ups[op.i]);
    }
  }

  lemma LeftBehind(vm: Vm, r: Ref, m: seq<nat>, op: Op, more: seq<nat>)
    requires Refines(vm, r, m) && CellsIn(r) && Step(vm, op).Some? && StepRef(r, op).Some? && !NoneLeft(vm, op) && m <= more
    ensures !Refines(Step(vm, op).value, StepRef(r, op).value, more)
  {
    hide ClosuresShow; hide ListShows; hide NoDuplicates; hide Callee; hide CalleeRef;
    var n := |vm.stack|;
    var k := if op.Throw? then vm.handlers[|vm.handlers| - 1].height else n - 1;
    var u :| 0 <= u < |vm.uvs| && vm.uvs[u].Open? && vm.uvs[u].slot >= k;
    assert UpvalueShows(vm, r, m, u);
    var vm', r' := Step(vm, op).value, StepRef(r, op).value;
    if |vm'.uvs| == |more| {
      assert !UpvalueShows(vm', r', more, u);
    }
  }

  function Run(vm: Vm, ops: seq<Op>): Option<Vm>
    decreases |ops|
  {
    if ops == [] then Some(vm)
    else
      var next := Step(vm, ops[0]);
      if next.None? then None else Run(next.value, ops[1..])
  }

  function RunRef(r: Ref, ops: seq<Op>): Option<Ref>
    decreases |ops|
  {
    if ops == [] then Some(r)
    else if !CellsIn(r) then None
    else
      var next := StepRef(r, ops[0]);
      if next.None? then None else RunRef(next.value, ops[1..])
  }

  /** No instruction of a run leaves an open upvalue on a dropped slot. */
  predicate NoneLeftIn(vm: Vm, ops: seq<Op>)
    decreases |ops|
  {
    ops == [] || (NoneLeft(vm, ops[0]) && (Step(vm, ops[0]).Some? ==> NoneLeftIn(Step(vm, ops[0]).value, ops[1..])))
  }

  /** A run shows at every stack position, and through every upvalue, what the reference run holds. */
  lemma {:induction false} RunRefines(vm: Vm, r: Ref, m: seq<nat>, ops: seq<Op>) returns (more: seq<nat>)
    requires Refines(vm, r, m) && Run(vm, ops).Some? && NoneLeftIn(vm, ops)
    ensures RunRef(r, ops).Some? && m <= more && Refines(Run(vm, ops).value, RunRef(r, ops).value, more)
    decreases |ops|
  {
    hide Step; hide StepRef; hide Refines; hide NoneLeft;
    more := m;
    if ops != [] {
      var next := StepRefines(vm, r, m, ops[0]);
      more := RunRefines(Step(vm, ops[0]).value, StepRef(r, ops[0]).value, next, ops[1..]);
    }
  }

  // ----- Runs that keep to their operands -----

  /** The frames lie one after the other on the stack, and every open upvalue in the locals of one of them. */
  ghost predicate Disciplined(vm: Vm) {
    && (forall f :: 0 <= f < |vm.frames| ==> FrameEnds(vm, f))
    && (forall u :: 0 <= u < |vm.uvs| && vm.uvs[u].Open? ==> exists f :: Owns(vm.frames, f, vm.uvs[u].slot))
  }

  predicate FrameEnds(vm: Vm, f: nat)
    requires f < |vm.frames|
  {
    vm.frames[f].base + vm.frames[f].locals <= if f + 1 < |vm.frames| then vm.frames[f + 1].base else |vm.stack|
  }

  predicate Owns(frames: seq<Frame>, f: nat, s: nat) {
    f < |frames| && frames[f].base <= s < frames[f].base + frames[f].locals
  }

  /** The operands above the top frame's locals. */
  function Operands(vm: Vm): int
    requires vm.frames != []
  {
    |vm.stack| - Top(vm.frames).base - Top(vm.frames).locals
  }

  /** What verified code does: pops only operands, captures only locals, and throws within its frame. */
  predicate WithinOperands(vm: Vm, op: Op)
    requires vm.frames != []
  {
    match op
    case Pop => Operands(vm) >= 1
    case Store(i) => Operands(vm) >= 1 && i < Top(vm.frames).locals
    case SetUp(_) => Operands(vm) >= 1
    case Return => Operands(vm) >= 1
    case Call(argc, _) => Operands(vm) >= argc
    case CloseTop => true
    case MakeClosure(_, captures) => forall k :: 0 <= k < |captures| && captures[k].Local? ==> captures[k].index < Top(vm.frames).locals
    case Throw =>
      vm.handlers != [] ==>
        var h := vm.handlers[|vm.handlers| - 1];
        h.depth == |vm.frames| && h.height >= Top(vm.frames).base + Top(vm.frames).locals
    case _ => true
  }

  lemma {:induction false} FramesBelowTop(vm: Vm, f: nat)
    requires f < |vm.frames| && forall g :: 0 <= g < |vm.frames| ==> FrameEnds(vm, g)
    ensures vm.frames[f].base + vm.frames[f].locals <= Top(vm.frames).base + Top(vm.frames).locals
    ensures f + 1 < |vm.frames| ==> vm.frames[f].base + vm.frames[f].locals <= Top(vm.frames).base
    decreases |vm.frames| - f
  {
    assert FrameEnds(vm, f);
    if f + 1 < |vm.frames| {
      FramesBelowTop(vm, f + 1);
    }
  }

  /** Open upvalues are below the operands. */
  lemma OpenBelowOperands(vm: Vm, k: nat)
    requires Disciplined(vm) && vm.frames != [] && k >= Top(vm.frames).base + Top(vm.frames).locals
    ensures !SomeOpen(vm, k)
  {
    forall u | 0 <= u < |vm.uvs| && vm.uvs[u].Open? ensures vm.uvs[u].slot < k {
      var f: nat :| Owns(vm.frames, f, vm.uvs[u].slot);
      FramesBelowTop(vm, f);
    }
  }

  lemma NoneLeftWithin(vm: Vm, op: Op)
    requires Disciplined(vm) && vm.frames != [] && WithinOperands(vm, op)
    ensures NoneLeft(vm, op)
  {
    hide SomeOpen; hide Disciplined;
    if op.Throw? && vm.handlers != [] {
      OpenBelowOperands(vm, vm.handlers[|vm.handlers| - 1].height);
    }
    if op.Pop? || op.Store? || op.SetUp? {
      OpenBelowOperands(vm, |vm.stack| - 1);
    }
  }

  /** The same frames on a stack that still covers the locals, with no new open upvalue. */
  lemma SameFrames(vm: Vm, next: Vm)
    requires Disciplined(vm) && next.frames == vm.frames
    requires vm.frames != [] ==> |next.stack| >= Top(vm.frames).base + Top(vm.frames).locals
    requires |next.uvs| == |vm.uvs| && forall u :: 0 <= u < |vm.uvs| && next.uvs[u].Open? ==> next.uvs[u] == vm.uvs[u]
    ensures Disciplined(next)
  {
    forall f | 0 <= f < |next.frames| ensures FrameEnds(next, f) {
      assert FrameEnds(vm, f);
    }
  }

  lemma CallDisciplined(vm: Vm, argc: nat, locals: nat)
    requires Disciplined(vm) && vm.frames != [] && Operands(vm) >= argc && Step(vm, Call(argc, locals)).Some?
    ensures Disciplined(Step(vm, Call(argc, locals)).value)
  {
    var next := Step(vm, Call(argc, locals)).value;
    forall f | 0 <= f < |next.frames| ensures FrameEnds(next, f) {
      if f < |vm.frames| {
        assert FrameEnds(vm, f);
      }
    }
    forall u | 0 <= u < |next.uvs| && next.uvs[u].Open? ensures exists f :: Owns(next.frames, f, next.uvs[u].slot) {
      var f: nat :| Owns(vm.frames, f, vm.uvs[u].slot);
      assert Owns(next.frames, f, next.uvs[u].slot);
    }
  }

  /** A return closes everything at or above its frame. */
  lemma ReturnDisciplined(vm: Vm)
    requires Disciplined(vm) && Step(vm, Return).Some? && vm.frames[0].base == 0
    ensures Disciplined(Step(vm, Return).value) && !SomeOpen(Step(vm, Return).value, Top(vm.frames).base)
  {
    var next := Step(vm, Return).value;
    forall f | 0 <= f < |next.frames| ensures FrameEnds(next, f) {
      assert FrameEnds(vm, f);
    }
    forall u | 0 <= u < |next.uvs| && next.uvs[u].Open?
      ensures next.uvs[u].slot < Top(vm.frames).base && exists f :: Owns(next.frames, f, next.uvs[u].slot)
    {
      assert next.uvs[u] == vm.uvs[u];
      var f: nat :| Owns(vm.frames, f, vm.uvs[u].slot);
      assert f < |vm.frames| - 1;
      assert Owns(next.frames, f, next.uvs[u].slot);
    }
  }

  lemma {:induction false} CaptureDisciplined(vm: Vm, captures: seq<Capture>, us: seq<Option<nat>>)
    requires Disciplined(vm) && vm.frames != [] && WithinOperands(vm, MakeClosure(0, captures))
    requires CaptureAll(vm, captures, us).Some?
    ensures var next := CaptureAll(vm, captures, us).value.st;
            Disciplined(next) && next.frames == vm.frames && next.stack == vm.stack
    decreases |captures|
  {
    if captures != [] {
      match captures[0]
      case Local(i) =>
        var s := Top(vm.frames).base + i;
        var (next, u) := Share(vm, s);
        ShareDisciplined(vm, s);
        CaptureDisciplined(next, captures[1..], us + [Some(u)]);
      case Enclosing(i) =>
        CaptureDisciplined(vm, captures[1..], us + [Operand(Callee(vm), i)]);
    }
  }

  lemma ShareDisciplined(vm: Vm, s: nat)
    requires Disciplined(vm) && vm.frames != [] && Owns(vm.frames, |vm.frames| - 1, s)
    ensures var next := Share(vm, s).0; Disciplined(next) && next.frames == vm.frames && next.stack == vm.stack
  {
    var next := Share(vm, s).0;
    forall f | 0 <= f < |next.frames| ensures FrameEnds(next, f) {
      assert FrameEnds(vm, f);
    }
    forall u | 0 <= u < |next.uvs| && next.uvs[u].Open? ensures exists f :: Owns(next.frames, f, next.uvs[u].slot) {
      if u < |vm.uvs| {
        assert next.uvs[u] == vm.uvs[u];
      } else {
        assert Owns(next.frames, |vm.frames| - 1, s);
      }
    }
  }

  /** Code that keeps to its operands keeps every open upvalue in some active frame's locals, and leaves none behind. */
  lemma {:induction false} DisciplineKept(vm: Vm, r: Ref, m: seq<nat>, op: Op)
    requires Refines(vm, r, m) && Disciplined(vm) && Step(vm, op).Some? && WithinOperands(vm, op)
    ensures NoneLeft(vm, op) && Disciplined(Step(vm, op).value)
  {
    hide Refines; hide Disciplined; hide CaptureAll; hide Callee; hide Below;
    NoneLeftWithin(vm, op);
    BottomAtZero(vm, r, m);
    TopEnds(vm);
    var next := Step(vm, op).value;
    match op
    case Call(argc, locals) => CallDisciplined(vm, argc, locals);
    case Return => ReturnDisciplined(vm);
    case MakeClosure(func, captures) =>
      CaptureDisciplined(vm, captures, []);
      var st := CaptureAll(vm, captures, []).value.st;
      TopEnds(st);
      SameFrames(st, next);
    case _ => SameFrames(vm, next);
  }

  lemma BottomAtZero(vm: Vm, r: Ref, m: seq<nat>)
    requires Refines(vm, r, m) && vm.frames != []
    ensures vm.frames[0].base == 0
  {
  }

  lemma TopEnds(vm: Vm)
    requires Disciplined(vm) && vm.frames != []
    ensures Operands(vm) >= 0
  {
    assert FrameEnds(vm, |vm.frames| - 1);
  }

  predicate RunsWithin(vm: Vm, ops: seq<Op>)
    decreases |ops|
  {
    ops == [] || (Step(vm, ops[0]).Some? ==> WithinOperands(vm, ops[0]) && RunsWithin(Step(vm, ops[0]).value, ops[1..]))
  }

  lemma {:induction false} RunKeepsVariables(vm: Vm, r: Ref, m: seq<nat>, ops: seq<Op>) returns (more: seq<nat>)
    requires Refines(vm, r, m) && Disciplined(vm) && Run(vm, ops).Some? && RunsWithin(vm, ops)
    ensures RunRef(r, ops).Some? && Refines(Run(vm, ops).value, RunRef(r, ops).value, more) && Disciplined(Run(vm, ops).value)
    decreases |ops|
  {
    hide Step; hide StepRef; hide Refines; hide NoneLeft; hide Disciplined; hide WithinOperands;
    more := m;
    if ops != [] {
      DisciplineKept(vm, r, m, ops[0]);
      var next := StepRefines(vm, r, m, ops[0]);
      more := RunKeepsVariables(Step(vm, ops[0]).value, StepRef(r, ops[0]).value, next, ops[1..]);
    }
  }

  // ----- Whole runs -----

  function Start(locals: nat): Vm { Vm(Nulls(locals), [Frame(0, locals)], [], [], [], []) }

  function StartRef(locals: nat): Ref { PushNulls(Ref([], [], [Frame(0, locals)], [], []), locals) }

  lemma StartRefines(locals: nat)
    ensures Refines(Start(locals), StartRef(locals), []) && Disciplined(Start(locals))
  {
    var vm, r := Vm([], [Frame(0, locals)], [], [], [], []), Ref([], [], [Frame(0, locals)], [], []);
    assert Refines(vm, r, []);
    NullsRefine(vm, r, [], locals);
    assert [] + Nulls(locals) == Nulls(locals);
    assert FrameEnds(Start(locals), 0);
  }

  /** What the stack holds at the end of a run is what it holds when every variable has its own cell. */
  lemma {:induction false} ClosuresShareVariables(locals: nat, ops: seq<Op>)
    requires Run(Start(locals), ops).Some? && RunsWithin(Start(locals), ops)
    ensures RunRef(StartRef(locals), ops).Some?
    ensures var vm, r := Run(Start(locals), ops).value, RunRef(StartRef(locals), ops).value;
            CellsIn(r) && |vm.stack| == |r.cells| && forall k :: 0 <= k < |vm.stack| ==> vm.stack[k] == ValueAt(r, k)
  {
    hide Run; hide RunRef; hide Disciplined; hide RunsWithin; hide Refines;
    StartRefines(locals);
    var m := RunKeepsVariables(Start(locals), StartRef(locals), [], ops);
    var vm, r := Run(Start(locals), ops).value, RunRef(StartRef(locals), ops).value;
    CellsAreIn(vm, r, m);
    StackFacts(vm, r, m);
  }

  /** Closing changes what no upvalue reads. */
  lemma CloseKeepsReads(vm: Vm, k: nat, u: nat)
    requires LiveFrom(vm, k)
    ensures Read(CloseFrom(vm, k), u) == Read(vm, u)
    ensures !SomeOpen(CloseFrom(vm, k), k)
  {
  }

  // ----- A throw out of a frame -----

  /** A called function stores 7 and captures the variable. */
  const CAPTURING: seq<Op> := [TryBegin, Call(0, 1), Push(I64(7)), Store(0), MakeClosure(0, [Bytecode.Local(0)])]

  /** It throws the closure; its caller catches it, calls it and reads the capture. */
  const CATCHING: seq<Op> := [Throw, Call(0, 0), GetUp(0)]

  lemma {:induction false} RunOne(vm: Vm, ops: seq<Op>, next: Vm)
    requires ops != [] && Step(vm, ops[0]) == Some(next)
    ensures Run(vm, ops) == Run(next, ops[1..])
  {
  }

  const MAIN: Frame := Frame(0, 0)
  const CALLED: seq<Frame> := [MAIN, Frame(0, 1)]
  const HANDLER: seq<Handler> := [Handler(0, 1)]
  const SEVEN: V := Plain(I64(7))
  const CAPTURED: Closure := Closure(0, [Some(0)])

  /** A throw leaves the upvalue open: the capture reads 7 before, and what was thrown onto its slot after. */
  lemma ThrowLosesVariable() returns (before: Vm, after: Vm)
    ensures Run(Start(0), CAPTURING) == Some(before) && Read(before, 0) == Some(SEVEN)
    ensures Run(before, CATCHING) == Some(after) && after.stack == [Clo(0), Clo(0)]
  {
    var v3 := Vm([Plain(Null), SEVEN], CALLED, HANDLER, [], [], []);
    before := Vm([SEVEN, Clo(0)], CALLED, HANDLER, [CAPTURED], [Open(0)], [0]);
    CallAndStore(v3);
    CaptureSeven(v3, before);
    assert CAPTURING[5..] == [];
    after := CatchAndRead(before);
  }

  lemma CallAndStore(v3: Vm)
    requires v3 == Vm([Plain(Null), SEVEN], CALLED, HANDLER, [], [], [])
    ensures Run(Start(0), CAPTURING) == Run(v3, CAPTURING[3..])
  {
    hide Run; hide CloseFrom; hide Callee;
    var v1, v2 := Vm([], [MAIN], HANDLER, [], [], []), v3.(stack := [Plain(Null)]);
    assert Start(0).stack == [] && Start(0).handlers + [Handler(0, 1)] == HANDLER;
    RunOne(Start(0), CAPTURING, v1);
    assert [] + Nulls(1) == [Plain(Null)] && [MAIN] + [Frame(0, 1)] == CALLED;
    RunOne(v1, CAPTURING[1..], v2);
    assert v2.stack + [SEVEN] == v3.stack;
    RunOne(v2, CAPTURING[2..], v3);
  }

  lemma CaptureSeven(v3: Vm, v5: Vm)
    requires v3 == Vm([Plain(Null), SEVEN], CALLED, HANDLER, [], [], [])
    requires v5 == Vm([SEVEN, Clo(0)], CALLED, HANDLER, [CAPTURED], [Open(0)], [0])
    ensures Run(v3, CAPTURING[3..]) == Run(v5, CAPTURING[5..])
  {
    hide Run; hide CloseFrom; hide Callee; hide CaptureAll;
    var v4 := v3.(stack := [SEVEN]);
    assert v3.stack[..1][0 := SEVEN] == v4.stack;
    RunOne(v3, CAPTURING[3..], v4);
    CaptureOne(v4);
    assert [SEVEN] + [Clo(0)] == v5.stack && [] + [CAPTURED] == [CAPTURED];
    RunOne(v4, CAPTURING[4..], v5);
  }

  lemma RunNothing(vm: Vm)
    ensures Run(vm, []) == Some(vm)
  {
  }

  lemma CatchAndRead(v5: Vm) returns (v8: Vm)
    requires v5 == Vm([SEVEN, Clo(0)], CALLED, HANDLER, [CAPTURED], [Open(0)], [0])
    ensures Run(v5, CATCHING) == Some(v8) && v8.stack == [Clo(0), Clo(0)]
  {
    hide CloseFrom; hide CaptureAll; hide Run; hide NoDuplicates; hide LiveFrom; hide Assign;
    var v6 := Vm([Clo(0)], [MAIN], [], [CAPTURED], [Open(0)], [0]);
    assert CALLED[..1] == [MAIN] && HANDLER[..0] == [] && v5.stack[..0] + [Clo(0)] == [Clo(0)];
    RunOne(v5, CATCHING, v6);
    var v7 := v6.(frames := [MAIN, Frame(1, 0)]);
    assert v6.stack + Nulls(0) == v6.stack && [MAIN] + [Frame(1, 0)] == v7.frames;
    RunOne(v6, CATCHING[1..], v7);
    v8 := v7.(stack := [Clo(0), Clo(0)]);
    assert [Clo(0)] + [Clo(0)] == v8.stack;
    RunOne(v7, CATCHING[2..], v8);
    assert CATCHING[3..] == [];
    RunNothing(v8);
  }

  lemma CaptureOne(vm: Vm)
    requires vm.frames == CALLED && |vm.stack| == 1 && vm.uvs == [] && vm.open == []
    ensures CaptureAll(vm, [Bytecode.Local(0)], []) == Some(Captured(vm.(uvs := [Open(0)], open := [0]), [Some(0)]))
  {
    var next := vm.(uvs := [Open(0)], open := [0]);
    assert FindOpen(vm, vm.open, 0) == 0;
    assert vm.uvs + [Open(0)] == next.uvs && [0] + vm.open == next.open;
    assert Share(vm, 0) == (next, 0);
    var ups: seq<Option<nat>> := [] + [Some(0)];
    assert ups == [Some(0)];
    assert [Bytecode.Local(0)][1..] == [];
    assert CaptureAll(next, [], ups) == Some(Captured(next, ups));
  }

  // ----- The machine as it runs -----

  /** The first `i` of the list have been closed where needed. */
  ghost predicate ClosedSoFar(was: Vm, k: nat, uvs: seq<Upvalue>, i: nat)
    requires LiveFrom(was, k) && |uvs| == |was.uvs| && i <= |was.open|
  {
    forall u :: 0 <= u < |uvs| ==> uvs[u] == if u in was.open[..i] then CloseOne(was, k, u) else was.uvs[u]
  }

  lemma NothingClosed(was: Vm, k: nat)
    requires LiveFrom(was, k)
    ensures ClosedSoFar(was, k, was.uvs, 0) && Below(was, k, []) == []
  {
  }

  lemma FreshInList(was: Vm, k: nat, i: nat)
    requires ListShows(was) && i < |was.open|
    ensures was.open[i] < |was.uvs| && was.uvs[was.open[i]].Open? && was.open[i] !in was.open[..i]
    ensures Below(was, k, was.open[i..]) == (if was.uvs[was.open[i]].slot < k then [was.open[i]] else []) + Below(was, k, was.open[i + 1..])
  {
    assert was.open[i] in was.open;
    assert was.open[i..][1..] == was.open[i + 1..];
  }

  lemma ClosedOneMore(was: Vm, k: nat, i: nat, uvs: seq<Upvalue>)
    requires LiveFrom(was, k) && |uvs| == |was.uvs| && i < |was.open| && ClosedSoFar(was, k, uvs, i)
    requires was.open[i] < |uvs| && was.uvs[was.open[i]].Open? && was.open[i] !in was.open[..i]
    ensures var u := was.open[i];
            uvs[u] == was.uvs[u] && (uvs[u].slot >= k ==> uvs[u].slot < |was.stack|) &&
            ClosedSoFar(was, k, if uvs[u].slot >= k then uvs[u := Closed(was.stack[uvs[u].slot])] else uvs, i + 1)
  {
    assert was.open[..i + 1] == was.open[..i] + [was.open[i]];
  }

  lemma AllClosed(was: Vm, k: nat, uvs: seq<Upvalue>)
    requires ListShows(was) && LiveFrom(was, k) && |uvs| == |was.uvs| && ClosedSoFar(was, k, uvs, |was.open|)
    ensures uvs == CloseFrom(was, k).uvs
  {
    assert was.open[..|was.open|] == was.open;
  }

  lemma ClosedList(was: Vm, k: nat)
    requires ListShows(was) && LiveFrom(was, k)
    ensures ListShows(CloseFrom(was, k))
  {
  }

  lemma SameList(vm: Vm, next: Vm)
    requires ListShows(vm) && next.uvs == vm.uvs && next.open == vm.open
    ensures ListShows(next)
  {
  }

  lemma SameOpen(vm: Vm, next: Vm)
    requires ListShows(vm) && next.open == vm.open && |next.uvs| == |vm.uvs|
    requires forall u :: 0 <= u < |vm.uvs| ==> next.uvs[u].Open? == vm.uvs[u].Open?
    ensures ListShows(next)
  {
  }

  lemma CaptureTurn(vm: Vm, captures: seq<Capture>, i: nat, ups: seq<Option<nat>>)
    requires vm.frames != [] && i < |captures|
    ensures captures[i].Enclosing? ==>
              CaptureAll(vm, captures[i..], ups) == CaptureAll(vm, captures[i + 1..], ups + [Operand(Callee(vm), captures[i].index)])
    ensures captures[i].Local? ==>
              var s := Top(vm.frames).base + captures[i].index;
              CaptureAll(vm, captures[i..], ups) ==
              if s >= |vm.stack| then None else CaptureAll(Share(vm, s).0, captures[i + 1..], ups + [Some(Share(vm, s).1)])
  {
    assert captures[i..][1..] == captures[i + 1..];
  }

  lemma CaptureEnd(vm: Vm, ups: seq<Option<nat>>)
    requires vm.frames != []
    ensures CaptureAll(vm, [], ups) == Some(Captured(vm, ups))
  {
  }

  class ClosureMachine {
    const stack: array<V>
    var sp: nat
    var frames: seq<Frame>
    var handlers: seq<Handler>
    var closures: seq<Closure>
    var uvs: seq<Upvalue>
    var open: seq<nat>

    function State(): Vm
      requires sp <= stack.Length
      reads this, stack
    {
      Vm(stack[..sp], frames, handlers, closures, uvs, open)
    }

    ghost predicate Valid()
      reads this, stack
    {
      stack.Length == Limits.STACK_MAX && sp <= Limits.STACK_MAX && ListShows(State())
    }

    constructor (locals: nat)
      requires locals <= Limits.STACK_MAX
      ensures Valid() && fresh(stack) && State() == Start(locals)
    {
      stack := new V[Limits.STACK_MAX](_ => Plain(Null));
      sp := locals;
      frames, handlers, closures, uvs, open := [Frame(0, locals)], [], [], [], [];
      new;
      assert stack[..sp] == Nulls(locals);
    }

    /** Looks along the list for an upvalue on the slot, and makes one in front if there is none. */
    method Capture(s: nat) returns (u: nat)
      requires Valid()
      modifies this`uvs, this`open
      ensures Valid() && State() == Share(old(State()), s).0 && u == Share(old(State()), s).1
    {
      var i := 0;
      assert open[0..] == open;
      while i < |open|
        invariant 0 <= i <= |open| && FindOpen(State(), open, s) == FindOpen(State(), open[i..], s)
      {
        assert open[i..][1..] == open[i + 1..];
        assert open[i] in State().open;
        if uvs[open[i]] == Open(s) { return open[i]; }
        i := i + 1;
      }
      u := |uvs|;
      assert u !in open;
      uvs := uvs + [Open(s)];
      open := [u] + open;
    }

    /** Walks the list, copying the value into every upvalue at or above the height and unlinking it. */
    method CloseUpvalues(k: nat)
      requires Valid() && LiveFrom(State(), k)
      modifies this`uvs, this`open
      ensures Valid() && State() == CloseFrom(old(State()), k)
    {
      hide NoDuplicates; hide ListShows; hide CloseOne; hide ClosedSoFar; hide Below; hide LiveFrom;
      ghost var was := State();
      NothingClosed(was, k);
      assert was.open[0..] == was.open;
      var i, kept := 0, [];
      while i < |open|
        invariant 0 <= i <= |open| && open == was.open && |uvs| == |was.uvs|
        invariant Below(was, k, was.open) == kept + Below(was, k, was.open[i..])
        invariant ClosedSoFar(was, k, uvs, i)
      {
        var u := open[i];
        FreshInList(was, k, i);
        ClosedOneMore(was, k, i, uvs);
        if uvs[u].slot >= k {
          uvs := uvs[u := Closed(stack[uvs[u].slot])];
        } else {
          kept := kept + [u];
        }
        i := i + 1;
      }
      AllClosed(was, k, uvs);
      ClosedList(was, k);
      assert was.open[i..] == [];
      open := kept;
      assert State() == CloseFrom(was, k);
    }

    method PushValue(v: V)
      requires Valid() && sp < Limits.STACK_MAX
      modifies this`sp, stack
      ensures Valid() && State() == Push1(old(State()), v)
    {
      hide ListShows;
      ghost var was := State();
      stack[sp] := v;
      sp := sp + 1;
      assert stack[..sp] == was.stack + [v];
      SameList(was, State());
    }

    /** The closure found just below the frame. */
    method RunningClosure() returns (c: Option<Closure>)
      requires Valid() && frames != []
      ensures c == Callee(State())
    {
      var s := CalleeSlot(frames);
      if s < sp && stack[s].Clo? && stack[s].id < |closures| {
        c := Some(closures[stack[s].id]);
      } else {
        c := None;
      }
    }

    method NewClosure(func: nat, captures: seq<Capture>) returns (ok: bool)
      requires Valid() && frames != []
      modifies this, stack
      ensures Valid()
      ensures ok == Step(old(State()), MakeClosure(func, captures)).Some?
      ensures ok ==> State() == Step(old(State()), MakeClosure(func, captures)).value
    {
      hide ListShows; hide CaptureAll; hide Share; hide Callee;
      var ups, i := [], 0;
      ghost var was := State();
      assert captures[0..] == captures;
      while i < |captures|
        invariant 0 <= i <= |captures| && Valid() && State().stack == was.stack && closures == was.closures
        invariant frames == was.frames && handlers == was.handlers && sp == |was.stack|
        invariant CaptureAll(was, captures, []) == CaptureAll(State(), captures[i..], ups)
      {
        ghost var before := State();
        var c := captures[i];
        CaptureTurn(before, captures, i, ups);
        if c.Local? {
          var s := Top(frames).base + c.index;
          if s >= sp { return false; }
          var u := Capture(s);
          ups := ups + [Some(u)];
        } else {
          var callee := RunningClosure();
          ups := ups + [Operand(callee, c.index)];
        }
        i := i + 1;
      }
      assert captures[i..] == [];
      CaptureEnd(State(), ups);
      if sp >= Limits.STACK_MAX { return false; }
      ghost var captured := State();
      closures := closures + [Closure(func, ups)];
      SameList(captured, State());
      PushValue(Clo(|closures| - 1));
      ok := true;
    }

    method GetUpvalue(i: nat) returns (ok: bool)
      requires Valid() && frames != []
      modifies this, stack
      ensures Valid()
      ensures ok == Step(old(State()), GetUp(i)).Some?
      ensures ok ==> State() == Step(old(State()), GetUp(i)).value
    {
      hide ListShows; hide Callee;
      var callee := RunningClosure();
      var u := Operand(callee, i);
      if u.None? || u.value >= |uvs| || sp >= Limits.STACK_MAX { return false; }
      match uvs[u.value] {
        case Closed(v) => PushValue(v);
        case Open(s) =>
          if s >= sp { return false; }
          PushValue(stack[s]);
      }
      ok := true;
    }

    /** Pops a value into the upvalue's slot, or into the upvalue once it is closed. */
    method SetUpvalue(i: nat) returns (ok: bool)
      requires Valid() && frames != []
      modifies this, stack
      ensures Valid()
      ensures ok == Step(old(State()), SetUp(i)).Some?
      ensures ok ==> State() == Step(old(State()), SetUp(i)).value
    {
      hide ListShows; hide Callee;
      if sp == 0 { return false; }
      ghost var was := State();
      sp := sp - 1;
      var v := stack[sp];
      assert stack[..sp] == was.stack[..sp];
      SameList(was, State());
      var callee := RunningClosure();
      var u := Operand(callee, i);
      if u.None? || u.value >= |uvs| { return false; }
      match uvs[u.value] {
        case Closed(_) =>
          uvs := uvs[u.value := Closed(v)];
          SameOpen(was, State());
        case Open(s) =>
          if s >= sp { return false; }
          stack[s] := v;
          assert stack[..sp] == was.stack[..sp][s := v];
          SameList(was, State());
      }
      ok := true;
    }

    /** Closes what the frame's slots are shared through, drops the frame and pushes the result. */
    method ReturnFrom() returns (ok: bool)
      requires Valid() && frames != []
      modifies this, stack
      ensures Valid()
      ensures ok == Step(old(State()), Return).Some?
      ensures ok ==> State() == Step(old(State()), Return).value
    {
      hide ListShows; hide CloseOne; hide Below; hide Callee;
      var base := Top(frames).base;
      if sp == 0 || base >= sp || !LiveFrom(State(), base) { return false; }
      var result := stack[sp - 1];
      ghost var was := State();
      CloseUpvalues(base);
      ghost var closed := State();
      frames := frames[..|frames| - 1];
      sp := if frames == [] then 0 else base;
      assert stack[..sp] == was.stack[..sp];
      SameList(closed, State());
      PushValue(result);
      ok := true;
    }

    method CloseTopValue() returns (ok: bool)
      requires Valid() && frames != []
      modifies this`uvs, this`open
      ensures Valid()
      ensures ok == Step(old(State()), CloseTop).Some?
      ensures ok ==> State() == Step(old(State()), CloseTop).value
    {
      hide ListShows; hide CloseOne; hide Below;
      if sp == 0 { return true; }
      if !LiveFrom(State(), sp - 1) { return false; }
      CloseUpvalues(sp - 1);
      ok := true;
    }
  }
}
