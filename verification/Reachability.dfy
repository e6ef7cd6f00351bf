/** Directed graphs, what roots reach in them, and what a depth-first marking establishes. */
module Reachability {
  /** A directed graph: every node with the nodes its edges lead to. */
  type Edges<T> = map<T, set<T>>

  /** Where one edge leads from a set of nodes. */
  ghost function Next<T>(e: Edges<T>, from: set<T>): set<T> {
    set o, c | o in from && o in e && c in e[o] :: c
  }

  /** Where at most `n` edges lead from the roots. */
  ghost function Within<T>(e: Edges<T>, roots: set<T>, n: nat): set<T> {
    if n == 0 then roots else Within(e, roots, n - 1) + Next(e, Within(e, roots, n - 1))
  }

  /** Some path leads from a root to the node. */
  ghost predicate Reachable<T>(e: Edges<T>, roots: set<T>, o: T) {
    exists n: nat :: o in Within(e, roots, n)
  }

  lemma RootReachable<T>(e: Edges<T>, roots: set<T>, o: T)
    requires o in roots
    ensures Reachable(e, roots, o)
  {
    assert o in Within(e, roots, 0);
  }

  lemma {:induction false} WithinMore<T>(e: Edges<T>, roots: set<T>, more: set<T>, n: nat)
    requires roots <= more
    ensures Within(e, roots, n) <= Within(e, more, n)
  {
    if n > 0 {
      WithinMore(e, roots, more, n - 1);
    }
  }

  lemma MoreRoots<T>(e: Edges<T>, roots: set<T>, more: set<T>, o: T)
    requires roots <= more && Reachable(e, roots, o)
    ensures Reachable(e, more, o)
  {
    var n: nat :| o in Within(e, roots, n);
    WithinMore(e, roots, more, n);
  }

  lemma {:induction false} WithinTargets<T>(e: Edges<T>, o: T, n: nat)
    requires o in e
    ensures Within(e, e[o], n) <= Within(e, {o}, n + 1)
  {
    if n == 0 {
      assert Within(e, {o}, 0) == {o};
    } else {
      WithinTargets(e, o, n - 1);
    }
  }

  /** What the successors of a node reach, the node reaches. */
  lemma ThroughTarget<T>(e: Edges<T>, o: T, x: T)
    requires o in e && Reachable(e, e[o], x)
    ensures Reachable(e, {o}, x)
  {
    var n: nat :| x in Within(e, e[o], n);
    WithinTargets(e, o, n);
  }

  /** A set that holds the roots and is closed under edges holds everything reachable. */
  lemma {:induction false} ClosedHolds<T>(e: Edges<T>, held: set<T>, roots: set<T>, n: nat)
    requires roots <= held
    requires forall o :: o in held && o in e ==> e[o] <= held
    ensures Within(e, roots, n) <= held
  {
    if n > 0 {
      ClosedHolds(e, held, roots, n - 1);
    }
  }

  /** The nodes the roots reach and no others. */
  ghost predicate Exactly<T>(e: Edges<T>, roots: set<T>, live: set<T>) {
    live <= e.Keys && forall o :: o in e ==> (o in live <==> Reachable(e, roots, o))
  }

  // ----- Depth-first marking -----

  /** From `before` to `after` marks were added only for what `roots` reach, together with all their successors. */
  ghost predicate Progress<T>(e: Edges<T>, before: set<T>, after: set<T>, roots: set<T>) {
    && before <= after
    && (forall o :: o in after && o !in before ==> o in e && e[o] <= after && Reachable(e, roots, o))
    && roots <= after
  }

  lemma {:induction false} ProgressThen<T>(e: Edges<T>, a: set<T>, b: set<T>, c: set<T>, r: set<T>, q: set<T>)
    requires Progress(e, a, b, r) && Progress(e, b, c, q)
    ensures Progress(e, a, c, r + q)
  {
    forall o | o in c && o !in a
      ensures o in e && e[o] <= c && Reachable(e, r + q, o)
    {
      MoreRoots(e, if o in b then r else q, r + q, o);
    }
  }

  lemma ProgressNone<T>(e: Edges<T>, a: set<T>)
    ensures Progress(e, a, a, {})
  {
  }

  /** Marking a node and then all its successors is progress from the node. */
  lemma {:induction false} ProgressNode<T>(e: Edges<T>, before: set<T>, after: set<T>, o: T)
    requires o in e && Progress(e, before + {o}, after, e[o])
    ensures Progress(e, before, after, {o})
  {
    forall x | x in after && x !in before
      ensures x in e && e[x] <= after && Reachable(e, {o}, x)
    {
      if x == o {
        RootReachable(e, {o}, o);
      } else {
        ThroughTarget(e, o, x);
      }
    }
  }

  /** Starting unmarked, the marks at the end are exactly what the roots reach. */
  lemma {:induction false} MarkedIsReachable<T>(e: Edges<T>, after: set<T>, roots: set<T>)
    requires Progress(e, {}, after, roots)
    ensures Exactly(e, roots, after) && forall o :: o in after ==> e[o] <= after
  {
    forall o | o in e && Reachable(e, roots, o) ensures o in after {
      var n: nat :| o in Within(e, roots, n);
      ClosedHolds(e, after, roots, n);
    }
  }
}
