/**
 Blocking channels: a ring buffer guarded by one mutex, with one condition variable
 for receivers and one for senders. Any number of threads run the send and receive
 procedures statement by statement in any interleaving, a wait may end without a
 signal, and a signal wakes some waiting thread if there is one.
 */
module Channels {
  import opened Values

  // ----- The ring buffer -----

  /** The slot `k` places after `from`, wrapping at the end of the buffer. */
  function Slot(cap: nat, from: nat, k: nat): (r: nat)
    requires cap > 0
    ensures r < cap
  {
    (from + k) % cap
  }

  /** The `count` values stored from `head` on. */
  function Ring(buffer: seq<Value>, head: nat, count: nat): (r: seq<Value>)
    requires |buffer| > 0
    ensures |r| == count
  {
    seq(count, k requires 0 <= k < count => buffer[Slot(|buffer|, head, k)])
  }

  lemma SmallMod(n: nat, x: nat)
    requires 0 < n && x < 2 * n
    ensures x % n == if x < n then x else x - n
  {
    if x >= n {
      assert x / n == 1;
    }
  }

  lemma SlotsDiffer(n: nat, from: nat, j: nat, k: nat)
    requires from < n && j < k < n
    ensures Slot(n, from, j) != Slot(n, from, k)
  {
    SmallMod(n, from + j);
    SmallMod(n, from + k);
  }

  lemma SlotNext(n: nat, from: nat, k: nat)
    requires from < n && k < n
    ensures Slot(n, Slot(n, from, 1), k) == Slot(n, from, k + 1) == Slot(n, Slot(n, from, k), 1)
    ensures Slot(n, from, 0) == from
  {
    SmallMod(n, from);
    SmallMod(n, from + 1);
    SmallMod(n, from + k);
    SmallMod(n, from + k + 1);
    SmallMod(n, Slot(n, from, 1) + k);
    SmallMod(n, Slot(n, from, k) + 1);
  }

  /** A value stored at the slot after the last becomes the last. */
  lemma {:induction false} RingStore(buffer: seq<Value>, head: nat, count: nat, v: Value)
    requires head < |buffer| && count < |buffer|
    ensures Ring(buffer[Slot(|buffer|, head, count) := v], head, count + 1) == Ring(buffer, head, count) + [v]
  {
    hide Slot;
    var n := |buffer|;
    var next := buffer[Slot(n, head, count) := v];
    forall k | 0 <= k < count ensures next[Slot(n, head, k)] == buffer[Slot(n, head, k)] {
      SlotsDiffer(n, head, k, count);
    }
  }

  /** The slot at `head` holds the first value; moving `head` on drops it. */
  lemma {:induction false} RingTake(buffer: seq<Value>, head: nat, count: nat)
    requires head < |buffer| && 0 < count <= |buffer|
    ensures Ring(buffer, head, count) == [buffer[head]] + Ring(buffer, Slot(|buffer|, head, 1), count - 1)
  {
    hide Slot;
    var n := |buffer|;
    SlotNext(n, head, 0);
    forall k | 0 <= k < count - 1 ensures Slot(n, Slot(n, head, 1), k) == Slot(n, head, k + 1) {
      SlotNext(n, head, k);
    }
  }

  /** The fields of a channel and its critical sections. */
  class Channel {
    const buffer: array<Value>
    var head: nat
    var tail: nat
    var count: nat
    var closed: bool

    ghost predicate Valid()
      reads this, buffer
    {
      var cap := buffer.Length;
      0 < cap && head < cap && count <= cap && tail == Slot(cap, head, count)
    }

    ghost function Contents(): (q: seq<Value>)
      requires buffer.Length > 0
      reads this, buffer
    {
      Ring(buffer[..], head, count)
    }

    constructor (capacity: nat)
      ensures Valid() && fresh(buffer) && Contents() == [] && !closed
      ensures buffer.Length == if capacity > 0 then capacity else 1
    {
      buffer := new Value[if capacity > 0 then capacity else 1](_ => Null);
      head, tail, count, closed := 0, 0, 0, false;
    }

    /** What a sender does once its wait is over: there is room, or the channel is closed. */
    method FinishSend(v: Value) returns (ok: bool)
      requires Valid() && (count < buffer.Length || closed)
      modifies this`tail, this`count, buffer
      ensures Valid() && ok == !closed
      ensures Contents() == if ok then old(Contents()) + [v] else old(Contents())
    {
      if closed { return false; }
      RingStore(buffer[..], head, count, v);
      SlotNext(buffer.Length, head, count);
      buffer[tail] := v;
      tail := (tail + 1) % buffer.Length;
      count := count + 1;
      ok := true;
    }

    /** What a receiver does once its wait is over: there is a value, or the channel is closed. */
    method FinishReceive() returns (got: Option<Value>)
      requires Valid() && (count > 0 || closed)
      modifies this`head, this`count
      ensures Valid() && (got.None? <==> old(Contents()) == [])
      ensures old(Contents()) == (if got.None? then [] else [got.value]) + Contents()
    {
      if count == 0 { return None; }
      RingTake(buffer[..], head, count);
      SlotNext(buffer.Length, head, count - 1);
      got := Some(buffer[head]);
      head := (head + 1) % buffer.Length;
      count := count - 1;
    }
  }

  // ----- Threads -----

  /** Where a thread is. Locking and signalling are steps of their own; a wait releases the mutex. */
  datatype Pc =
    | Idle
    | SendLock(v: Value) | SendCheck(v: Value) | SendWait(v: Value) | SendWoken(v: Value)
    | SendStore(v: Value) | SendAdvance | SendCount | SendSignal | SendUnlock(ok: bool)
    | RecvLock | RecvCheck | RecvWait | RecvWoken
    | RecvTake | RecvAdvance(v: Value) | RecvCount(v: Value) | RecvSignal(v: Value) | RecvUnlock(got: Option<Value>)
  {
    /** Inside the critical section. */
    predicate Holds() { Sending() || Receiving() }

    predicate Sending() { SendCheck? || SendStore? || SendAdvance? || SendCount? || SendSignal? || SendUnlock? }

    predicate Receiving() { RecvCheck? || RecvTake? || RecvAdvance? || RecvCount? || RecvSignal? || RecvUnlock? }
  }

  /** `sent` and `received` record the values stored and taken so far, in order. */
  datatype State = State(threads: seq<Pc>, owner: Option<nat>, buffer: seq<Value>, head: nat, tail: nat, count: int,
                         closed: bool, sent: seq<Value>, received: seq<Value>)
  {
    function Cap(): nat { |buffer| }
    function At(i: nat, pc: Pc): State
      requires i < |threads|
    {
      this.(threads := threads[i := pc])
    }
  }

  /** `Start` begins a call; `Move` runs the thread's next statement, `wake` being the thread a signal picks. */
  datatype Action = StartSend(i: nat, v: Value) | StartRecv(i: nat) | Move(i: nat, wake: nat) | Spurious(i: nat)

  predicate Signalled(s: State, j: nat, sender: bool) {
    j < |s.threads| && if sender then s.threads[j].SendWait? else s.threads[j].RecvWait?
  }

  predicate NoneWaits(s: State, sender: bool) {
    forall j :: 0 <= j < |s.threads| ==> !Signalled(s, j, sender)
  }

  predicate Enabled(s: State, a: Action) {
    a.i < |s.threads| &&
    match a
    case StartSend(i, _) => s.threads[i].Idle?
    case StartRecv(i) => s.threads[i].Idle?
    case Spurious(i) => s.threads[i].SendWait? || s.threads[i].RecvWait?
    case Move(i, wake) =>
      match s.threads[i]
      case Idle => false
      case SendWait(_) => false
      case RecvWait => false
      case SendLock(_) => s.owner.None?
      case SendWoken(_) => s.owner.None?
      case RecvLock => s.owner.None?
      case RecvWoken => s.owner.None?
      case SendSignal => Signalled(s, wake, false) || NoneWaits(s, false)
      case RecvSignal(_) => Signalled(s, wake, true) || NoneWaits(s, true)
      case _ => true
  }

  function Woken(pc: Pc): Pc {
    match pc
    case SendWait(v) => SendWoken(v)
    case RecvWait => RecvWoken
    case _ => pc
  }

  function Apply(s: State, a: Action): (t: State)
    requires Enabled(s, a) && s.Cap() > 0 && s.head < s.Cap() && s.tail < s.Cap()
  {
    match a
    case StartSend(i, v) => s.At(i, SendLock(v))
    case StartRecv(i) => s.At(i, RecvLock)
    case Spurious(i) => s.At(i, Woken(s.threads[i]))
    case Move(i, wake) =>
      if s.threads[i].SendLock? || s.threads[i].SendWoken? then s.At(i, SendCheck(s.threads[i].v)).(owner := Some(i))
      else if s.threads[i].RecvLock? || s.threads[i].RecvWoken? then s.At(i, RecvCheck).(owner := Some(i))
      else if s.threads[i].Sending() then Send(s, i, wake)
      else Receive(s, i, wake)
  }

  /** The statements of a send, in order. */
  function Send(s: State, i: nat, wake: nat): State
    requires i < |s.threads| && s.threads[i].Sending() && s.Cap() > 0 && s.tail < s.Cap()
    requires s.threads[i].SendSignal? ==> Signalled(s, wake, false) || NoneWaits(s, false)
  {
    match s.threads[i]
    case SendCheck(v) =>
      if s.count >= s.Cap() && !s.closed then s.At(i, SendWait(v)).(owner := None)
      else if s.closed then s.At(i, SendUnlock(false))
      else s.At(i, SendStore(v))
    case SendStore(v) => s.At(i, SendAdvance).(buffer := s.buffer[s.tail := v], sent := s.sent + [v])
    case SendAdvance => s.At(i, SendCount).(tail := Slot(s.Cap(), s.tail, 1))
    case SendCount => s.At(i, SendSignal).(count := s.count + 1)
    case SendSignal =>
      var t := s.At(i, SendUnlock(true));
      if Signalled(s, wake, false) then t.At(wake, RecvWoken) else t
    case SendUnlock(_) => s.At(i, Idle).(owner := None)
  }

  /** The statements of a receive, in order. */
  function Receive(s: State, i: nat, wake: nat): State
    requires i < |s.threads| && s.threads[i].Receiving() && s.Cap() > 0 && s.head < s.Cap()
    requires s.threads[i].RecvSignal? ==> Signalled(s, wake, true) || NoneWaits(s, true)
  {
    match s.threads[i]
    case RecvCheck =>
      if s.count == 0 && !s.closed then s.At(i, RecvWait).(owner := None)
      else if s.count == 0 then s.At(i, RecvUnlock(None))
      else s.At(i, RecvTake)
    case RecvTake => s.At(i, RecvAdvance(s.buffer[s.head])).(received := s.received + [s.buffer[s.head]])
    case RecvAdvance(v) => s.At(i, RecvCount(v)).(head := Slot(s.Cap(), s.head, 1))
    case RecvCount(v) => s.At(i, RecvSignal(v)).(count := s.count - 1)
    case RecvSignal(v) =>
      var t := s.At(i, RecvUnlock(Some(v)));
      if Signalled(s, wake, true) then t.At(wake, SendWoken(s.threads[wake].v)) else t
    case RecvUnlock(_) => s.At(i, Idle).(owner := None)
  }

  // ----- The ring between statements -----

  /** The thread inside the critical section, Idle if there is none. */
  function Holder(s: State): Pc {
    if s.owner.Some? && s.owner.value < |s.threads| then s.threads[s.owner.value] else Idle
  }

  /** Head, length and tail of the queue counting what the holder has begun. */
  function QueueHead(s: State): nat
    requires s.Cap() > 0
  {
    if Holder(s).RecvAdvance? then Slot(s.Cap(), s.head, 1) else s.head
  }

  function QueueCount(s: State): int {
    var h := Holder(s);
    if h.SendAdvance? || h.SendCount? then s.count + 1
    else if h.RecvAdvance? || h.RecvCount? then s.count - 1
    else s.count
  }

  function QueueTail(s: State): nat
    requires s.Cap() > 0
  {
    if Holder(s).SendAdvance? then Slot(s.Cap(), s.tail, 1) else s.tail
  }

  ghost predicate RingInv(s: State) {
    && 0 < s.Cap() && s.head < s.Cap() && s.tail < s.Cap()
    && 0 <= QueueCount(s) <= s.Cap()
    && QueueTail(s) == Slot(s.Cap(), QueueHead(s), QueueCount(s))
    && s.sent == s.received + Ring(s.buffer, QueueHead(s), QueueCount(s))
    && (Holder(s).SendStore? ==> s.count < s.Cap())
    && (Holder(s).RecvTake? ==> s.count > 0)
  }

  /** Only the owner of the mutex is inside the critical section. */
  ghost predicate Exclusive(s: State) {
    && (s.owner.Some? ==> s.owner.value < |s.threads| && s.threads[s.owner.value].Holds())
    && forall i :: 0 <= i < |s.threads| && s.threads[i].Holds() ==> s.owner == Some(i)
  }

  // ----- Waiting and woken threads -----

  datatype Group = WaitingSenders | WokenSenders | WaitingReceivers | WokenReceivers

  predicate In(pc: Pc, g: Group) {
    match g
    case WaitingSenders => pc.SendWait?
    case WokenSenders => pc.SendWoken?
    case WaitingReceivers => pc.RecvWait?
    case WokenReceivers => pc.RecvWoken?
  }

  function One(pc: Pc, g: Group): nat { if In(pc, g) then 1 else 0 }

  function Count(threads: seq<Pc>, g: Group): nat {
    if threads == [] then 0 else One(threads[0], g) + Count(threads[1..], g)
  }

  lemma {:induction false} CountUpdate(threads: seq<Pc>, i: nat, pc: Pc, g: Group)
    requires i < |threads|
    ensures Count(threads[i := pc], g) == Count(threads, g) - One(threads[i], g) + One(pc, g)
  {
    var t := threads[i := pc];
    if i == 0 {
      assert t[1..] == threads[1..];
    } else {
      assert t[1..] == threads[1..][i - 1 := pc];
      CountUpdate(threads[1..], i - 1, pc, g);
    }
  }

  lemma {:induction false} CountNone(threads: seq<Pc>, g: Group)
    ensures Count(threads, g) == 0 <==> forall i :: 0 <= i < |threads| ==> !In(threads[i], g)
  {
    if threads != [] {
      CountNone(threads[1..], g);
      assert forall i :: 0 <= i < |threads[1..]| ==> threads[1..][i] == threads[i + 1];
    }
  }

  /** The holder has stored a value it has not signalled yet. */
  predicate StorePending(pc: Pc) { pc.SendAdvance? || pc.SendCount? || pc.SendSignal? }

  predicate TakePending(pc: Pc) { pc.RecvAdvance? || pc.RecvCount? || pc.RecvSignal? }

  /** While a receiver waits, every value has a woken receiver, a pending signal or a receiver about to look. */
  ghost predicate ReceiversInv(s: State) {
    Count(s.threads, WaitingReceivers) > 0 ==>
      QueueCount(s) <= Count(s.threads, WokenReceivers)
        + (if StorePending(Holder(s)) || Holder(s).RecvCheck? || Holder(s).RecvTake? then 1 else 0)
  }

  /** While a sender waits, every free slot has a woken sender, a pending signal or a sender about to look. */
  ghost predicate SendersInv(s: State) {
    Count(s.threads, WaitingSenders) > 0 ==>
      s.Cap() - QueueCount(s) <= Count(s.threads, WokenSenders)
        + (if TakePending(Holder(s)) || Holder(s).SendCheck? || Holder(s).SendStore? then 1 else 0)
  }

  /** Nobody waits on a closed channel. */
  ghost predicate ClosedInv(s: State) {
    s.closed ==> Count(s.threads, WaitingSenders) == 0 && Count(s.threads, WaitingReceivers) == 0
  }

  /** The value a receive in progress has taken. */
  function Taken(pc: Pc): Option<Value> {
    match pc
    case RecvAdvance(v) => Some(v)
    case RecvCount(v) => Some(v)
    case RecvSignal(v) => Some(v)
    case RecvUnlock(got) => got
    case _ => None
  }

  /** A receive returns the value it took from the queue; a call fails only on a closed channel. */
  ghost predicate ResultsInv(s: State) {
    && (Taken(Holder(s)).Some? ==> s.received != [] && s.received[|s.received| - 1] == Taken(Holder(s)).value)
    && (Holder(s) == RecvUnlock(None) || Holder(s) == SendUnlock(false) ==> s.closed)
  }

  ghost predicate Inv(s: State) {
    Exclusive(s) && RingInv(s) && ReceiversInv(s) && SendersInv(s) && ClosedInv(s) && ResultsInv(s)
  }

  // ----- Every step keeps the invariant -----

  /** Only thread `i` (and a woken thread outside the critical section) moved. */
  lemma {:induction false} MoveKeepsGroups(s: State, i: nat, pc: Pc)
    requires i < |s.threads|
    ensures forall g :: Count(s.At(i, pc).threads, g) == Count(s.threads, g) - One(s.threads[i], g) + One(pc, g)
  {
    forall g ensures Count(s.At(i, pc).threads, g) == Count(s.threads, g) - One(s.threads[i], g) + One(pc, g) {
      CountUpdate(s.threads, i, pc, g);
    }
  }

  lemma {:induction false} WaiterCounted(s: State, sender: bool)
    ensures NoneWaits(s, sender) <==> Count(s.threads, if sender then WaitingSenders else WaitingReceivers) == 0
  {
    CountNone(s.threads, if sender then WaitingSenders else WaitingReceivers);
    if NoneWaits(s, sender) {
      forall k | 0 <= k < |s.threads| ensures !In(s.threads[k], if sender then WaitingSenders else WaitingReceivers) {
        assert !Signalled(s, k, sender);
      }
    }
  }

  /** The mutex is taken only when free, given up only by its owner, and other threads stay inside or outside. */
  ghost predicate Hands(s: State, t: State, i: nat)
    requires i < |s.threads|
  {
    && |t.threads| == |s.threads|
    && t.owner == (if t.threads[i].Holds() then Some(i) else if s.owner == Some(i) then None else s.owner)
    && (t.threads[i].Holds() ==> s.owner.None? || s.owner == Some(i))
    && forall j :: 0 <= j < |s.threads| && j != i ==> t.threads[j].Holds() == s.threads[j].Holds()
  }

  lemma {:induction false} SendHands(s: State, i: nat, wake: nat)
    requires i < |s.threads| && s.owner == Some(i) && s.threads[i].Sending() && s.Cap() > 0 && s.tail < s.Cap()
    requires s.threads[i].SendSignal? ==> Signalled(s, wake, false) || NoneWaits(s, false)
    ensures Hands(s, Send(s, i, wake), i)
  {
    hide Slot; hide NoneWaits;
  }

  lemma {:induction false} ReceiveHands(s: State, i: nat, wake: nat)
    requires i < |s.threads| && s.owner == Some(i) && s.threads[i].Receiving() && s.Cap() > 0 && s.head < s.Cap()
    requires s.threads[i].RecvSignal? ==> Signalled(s, wake, true) || NoneWaits(s, true)
    ensures Hands(s, Receive(s, i, wake), i)
  {
    hide Slot; hide NoneWaits;
  }

  lemma {:induction false} StepHands(s: State, a: Action)
    requires Exclusive(s) && 0 < s.Cap() && s.head < s.Cap() && s.tail < s.Cap() && Enabled(s, a)
    ensures Hands(s, Apply(s, a), a.i)
  {
    hide Slot; hide NoneWaits; hide Send; hide Receive;
    assert s.threads[a.i].Holds() ==> s.owner == Some(a.i);
    hide Exclusive;
    if a.Move? && s.threads[a.i].Sending() {
      SendHands(s, a.i, a.wake);
      hide Hands;
    } else if a.Move? && s.threads[a.i].Receiving() {
      ReceiveHands(s, a.i, a.wake);
      hide Hands;
    }
  }

  lemma {:induction false} StepExclusive(s: State, a: Action)
    requires Inv(s) && Enabled(s, a)
    ensures Exclusive(Apply(s, a))
  {
    StepHands(s, a);
    hide Apply; hide Enabled;
  }

  /** The holder's next statement, other than a signal. */
  lemma {:induction false} SendKeeps(s: State, i: nat, wake: nat)
    requires Inv(s) && i < |s.threads| && s.threads[i].Sending() && !s.threads[i].SendSignal?
    requires Exclusive(Send(s, i, wake))
    ensures Inv(Send(s, i, wake))
  {
    hide Slot; hide Count; hide Ring; hide NoneWaits;
    assert s.owner == Some(i) && Holder(s) == s.threads[i];
    hide Exclusive;
    var t := Send(s, i, wake);
    MoveKeepsGroups(s, i, t.threads[i]);
    if s.threads[i].SendStore? {
      RingStore(s.buffer, s.head, s.count, s.threads[i].v);
      SlotNext(s.Cap(), s.head, s.count);
    }
  }

  lemma {:induction false} ReceiveKeeps(s: State, i: nat, wake: nat)
    requires Inv(s) && i < |s.threads| && s.threads[i].Receiving() && !s.threads[i].RecvSignal?
    requires Exclusive(Receive(s, i, wake))
    ensures Inv(Receive(s, i, wake))
  {
    hide Slot; hide Count; hide Ring; hide NoneWaits;
    assert s.owner == Some(i) && Holder(s) == s.threads[i];
    hide Exclusive;
    var t := Receive(s, i, wake);
    MoveKeepsGroups(s, i, t.threads[i]);
    if s.threads[i].RecvTake? {
      RingTake(s.buffer, s.head, s.count);
      SlotNext(s.Cap(), s.head, s.count - 1);
    }
  }

  /** A signal wakes a waiting thread if there is one. */
  lemma {:induction false} SignalKeeps(s: State, i: nat, wake: nat)
    requires Inv(s) && i < |s.threads| && (s.threads[i].SendSignal? || s.threads[i].RecvSignal?)
    requires Enabled(s, Move(i, wake)) && Exclusive(Apply(s, Move(i, wake)))
    ensures Inv(Apply(s, Move(i, wake)))
  {
    hide Slot; hide Count; hide Ring; hide NoneWaits;
    assert s.owner == Some(i) && Holder(s) == s.threads[i];
    hide Exclusive;
    var pc := s.threads[i];
    var sender := pc.RecvSignal?;
    var u := s.At(i, if sender then RecvUnlock(Some(pc.v)) else SendUnlock(true));
    MoveKeepsGroups(s, i, u.threads[i]);
    WaiterCounted(s, sender);
    if Signalled(s, wake, sender) {
      MoveKeepsGroups(u, wake, Woken(s.threads[wake]));
    }
  }

  lemma {:induction false} OthersKeep(s: State, a: Action)
    requires Inv(s) && Enabled(s, a) && (a.Move? ==> !s.threads[a.i].Holds())
    requires Exclusive(Apply(s, a))
    ensures Inv(Apply(s, a))
  {
    hide Slot; hide Count; hide Ring; hide NoneWaits;
    var t := Apply(s, a);
    MoveKeepsGroups(s, a.i, t.threads[a.i]);
    assert s.owner.Some? ==> s.owner.value != a.i && t.threads[s.owner.value] == s.threads[s.owner.value];
    hide Exclusive;
  }

  /** No interleaving of statements, signals and spurious wake-ups breaks the invariant. */
  lemma {:induction false} StepKeeps(s: State, a: Action)
    requires Inv(s) && Enabled(s, a)
    ensures Inv(Apply(s, a))
  {
    assert 0 < s.Cap() && s.head < s.Cap() && s.tail < s.Cap();
    hide Inv; hide Exclusive;
    StepExclusive(s, a);
    if a.Move? && (s.threads[a.i].SendSignal? || s.threads[a.i].RecvSignal?) {
      SignalKeeps(s, a.i, a.wake);
    } else if a.Move? && s.threads[a.i].Sending() {
      SendKeeps(s, a.i, a.wake);
    } else if a.Move? && s.threads[a.i].Receiving() {
      ReceiveKeeps(s, a.i, a.wake);
    } else {
      OthersKeep(s, a);
    }
  }

  // ----- Runs -----

  ghost predicate Steps(s: State, t: State) {
    0 < s.Cap() && s.head < s.Cap() && s.tail < s.Cap() && exists a :: Enabled(s, a) && t == Apply(s, a)
  }

  /** A new channel with `n` idle threads. */
  function New(capacity: nat, n: nat): State {
    var cap := if capacity > 0 then capacity else 1;
    State(seq(n, _ => Idle), None, seq(cap, _ => Null), 0, 0, 0, false, [], [])
  }

  ghost predicate IsRun(run: seq<State>, capacity: nat, n: nat) {
    run != [] && run[0] == New(capacity, n) && forall k :: 0 < k < |run| ==> Steps(run[k - 1], run[k])
  }

  lemma {:induction false} NewInv(capacity: nat, n: nat)
    ensures Inv(New(capacity, n))
  {
    var s := New(capacity, n);
    forall g ensures Count(s.threads, g) == 0 {
      CountNone(s.threads, g);
    }
    SlotNext(s.Cap(), 0, 0);
  }

  lemma {:induction false} Always(run: seq<State>, capacity: nat, n: nat, k: nat)
    requires IsRun(run, capacity, n) && k < |run|
    ensures Inv(run[k]) && !run[k].closed && run[k].Cap() == run[0].Cap() && |run[k].threads| == n
  {
    hide Inv; hide Enabled; hide Apply;
    if k == 0 {
      NewInv(capacity, n);
    } else {
      Always(run, capacity, n, k - 1);
      assert Steps(run[k - 1], run[k]);
      var a :| Enabled(run[k - 1], a) && run[k] == Apply(run[k - 1], a);
      StepKeeps(run[k - 1], a);
      StepFrame(run[k - 1], a);
    }
  }

  /** Nothing closes a channel, the history only grows, and no thread appears or vanishes. */
  lemma StepFrame(s: State, a: Action)
    requires 0 < s.Cap() && s.head < s.Cap() && s.tail < s.Cap() && Enabled(s, a)
    ensures var t := Apply(s, a);
            t.closed == s.closed && t.Cap() == s.Cap() && |t.threads| == |s.threads| &&
            s.sent <= t.sent && s.received <= t.received
  {
  }

  // ----- What holds at every point of every run -----

  /** Values come out in the order they went in, and none is lost or made up. */
  lemma {:induction false} Fifo(run: seq<State>, capacity: nat, n: nat, k: nat)
    requires IsRun(run, capacity, n) && k < |run|
    ensures var s := run[k];
            && s.received <= s.sent && |s.sent| <= |s.received| + s.Cap()
            && (s.owner.None? ==>
                  && 0 <= s.count <= s.Cap() && s.head < s.Cap() && s.tail == Slot(s.Cap(), s.head, s.count)
                  && s.sent == s.received + Ring(s.buffer, s.head, s.count))
  {
    hide Slot; hide Ring;
    Always(run, capacity, n, k);
  }

  /** Two threads are never inside the critical section together. */
  lemma {:induction false} MutualExclusion(run: seq<State>, capacity: nat, n: nat, k: nat, i: nat, j: nat)
    requires IsRun(run, capacity, n) && k < |run| && i < |run[k].threads| && j < |run[k].threads|
    requires run[k].threads[i].Holds() && run[k].threads[j].Holds()
    ensures i == j
  {
    Always(run, capacity, n, k);
  }

  /** Calls on a channel succeed, and a receive returns the latest value taken. */
  lemma {:induction false} CallsSucceed(run: seq<State>, capacity: nat, n: nat, k: nat, i: nat)
    requires IsRun(run, capacity, n) && k < |run| && i < |run[k].threads|
    ensures run[k].threads[i] != SendUnlock(false) && run[k].threads[i] != RecvUnlock(None)
    ensures run[k].threads[i].RecvUnlock? ==>
              run[k].received != [] && run[k].threads[i].got == Some(run[k].received[|run[k].received| - 1])
  {
    Always(run, capacity, n, k);
    if run[k].threads[i].Holds() {
      assert Holder(run[k]) == run[k].threads[i];
    }
  }

  /** While a receiver waits for a signal, each value in the buffer has a woken receiver coming for it; dually for senders. */
  lemma {:induction false} NoLostWakeUp(run: seq<State>, capacity: nat, n: nat, k: nat)
    requires IsRun(run, capacity, n) && k < |run| && run[k].owner.None?
    ensures var s := run[k];
            && (!NoneWaits(s, false) ==> s.count <= Count(s.threads, WokenReceivers))
            && (!NoneWaits(s, true) ==> s.Cap() - s.count <= Count(s.threads, WokenSenders))
  {
    hide Slot; hide Ring;
    Always(run, capacity, n, k);
    WaiterCounted(run[k], true);
    WaiterCounted(run[k], false);
  }

  /** With the mutex free and nobody woken, senders and receivers never wait for each other. */
  lemma {:induction false} NeverBothWait(run: seq<State>, capacity: nat, n: nat, k: nat)
    requires IsRun(run, capacity, n) && k < |run| && run[k].owner.None?
    requires Count(run[k].threads, WokenReceivers) == 0 && Count(run[k].threads, WokenSenders) == 0
    ensures NoneWaits(run[k], true) || NoneWaits(run[k], false)
  {
    hide Slot; hide Ring;
    Always(run, capacity, n, k);
    NoLostWakeUp(run, capacity, n, k);
  }

  /** Thread `i` can execute its next statement. */
  ghost predicate CanMove(s: State, i: nat) { exists wake :: Enabled(s, Move(i, wake)) }

  /**
   Deadlock freedom: when no thread can move, every thread is idle or waits, and
   either all waiting threads are receivers of an empty channel or all are senders
   to a full one.
   */
  lemma {:induction false} StuckMeansEmptyOrFull(run: seq<State>, capacity: nat, n: nat, k: nat)
    requires IsRun(run, capacity, n) && k < |run|
    requires forall i :: 0 <= i < |run[k].threads| ==> !CanMove(run[k], i)
    ensures var s := run[k];
            && (forall i :: 0 <= i < |s.threads| ==> s.threads[i].Idle? || s.threads[i].SendWait? || s.threads[i].RecvWait?)
            && (NoneWaits(s, true) || NoneWaits(s, false))
            && (!NoneWaits(s, false) ==> s.count == 0 && s.sent == s.received)
            && (!NoneWaits(s, true) ==> s.count == s.Cap() && |s.sent| == |s.received| + s.Cap())
  {
    hide Slot; hide Ring;
    var s := run[k];
    Always(run, capacity, n, k);
    Fifo(run, capacity, n, k);
    if s.owner.Some? {
      HolderMoves(s);
      assert false;
    } else {
      forall i | 0 <= i < |s.threads|
        ensures s.threads[i].Idle? || s.threads[i].SendWait? || s.threads[i].RecvWait?
      {
        assert !CanMove(s, i);
        assert Enabled(s, Move(i, 0)) || s.threads[i].Idle? || s.threads[i].SendWait? || s.threads[i].RecvWait?;
      }
      CountNone(s.threads, WokenReceivers);
      CountNone(s.threads, WokenSenders);
      NoLostWakeUp(run, capacity, n, k);
    }
  }

  /** The owner of the mutex is never blocked. */
  lemma HolderMoves(s: State)
    requires Inv(s) && s.owner.Some?
    ensures s.owner.value < |s.threads| && CanMove(s, s.owner.value)
  {
    var i := s.owner.value;
    var sender := s.threads[i].RecvSignal?;
    if NoneWaits(s, sender) {
      assert Enabled(s, Move(i, 0));
    } else {
      var j :| 0 <= j < |s.threads| && Signalled(s, j, sender);
      assert Enabled(s, Move(i, j));
    }
  }
}
