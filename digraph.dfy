/** Walks, reachability and reachable cycles over a set of directed edges,
 *  with the two facts every graph search in the model rests on: a set closed
 *  under the edges contains everything reachable from it, and a walk through
 *  nodes ranked so that every edge goes down in rank never repeats a node. */
module Digraph {
  /** `p` is a non-empty walk along `E`. */
  ghost predicate IsWalk<T(!new)>(E: set<(T, T)>, p: seq<T>) {
    |p| > 0 && forall i :: 0 <= i < |p| - 1 ==> (p[i], p[i + 1]) in E
  }

  /** Some walk along `E` leads from `a` to `b`. */
  ghost predicate Reaches<T(!new)>(E: set<(T, T)>, a: T, b: T) {
    exists p :: IsWalk(E, p) && p[0] == a && p[|p| - 1] == b
  }

  /** The last node of `p` already occurred earlier in `p`. */
  ghost predicate LastRepeats<T(!new)>(p: seq<T>) {
    exists j :: 0 <= j < |p| - 1 && p[j] == p[|p| - 1]
  }

  /** A cycle can be reached from one of `roots`: some walk from a root comes
   *  back to a node it has already passed. */
  ghost predicate CycleReachable<T(!new)>(E: set<(T, T)>, roots: set<T>) {
    exists p :: IsWalk(E, p) && p[0] in roots && LastRepeats(p)
  }

  /** Every edge leaving `S` ends in `S`. */
  ghost predicate Closed<T(!new)>(E: set<(T, T)>, S: set<T>) {
    forall e :: e in E && e.0 in S ==> e.1 in S
  }

  /** `S` is closed and every edge leaving `S` goes to a node of smaller rank. */
  ghost predicate RankedClosed<T(!new)>(E: set<(T, T)>, S: set<T>, rank: map<T, nat>) {
    S <= rank.Keys && Closed(E, S) &&
    forall e :: e in E && e.0 in S ==> rank[e.1] < rank[e.0]
  }

  lemma {:induction false} WalkStaysInClosed<T(!new)>(E: set<(T, T)>, S: set<T>, p: seq<T>, i: nat)
    requires Closed(E, S) && IsWalk(E, p) && p[0] in S && i < |p|
    ensures p[i] in S
  {
    if i > 0 {
      WalkStaysInClosed(E, S, p, i - 1);
      assert (p[i - 1], p[i]) in E;
    }
  }

  /** Nothing outside a closed set is reachable from inside it. */
  lemma ClosedHoldsReach<T(!new)>(E: set<(T, T)>, S: set<T>, a: T, b: T)
    requires Closed(E, S) && a in S && Reaches(E, a, b)
    ensures b in S
  {
    var p :| IsWalk(E, p) && p[0] == a && p[|p| - 1] == b;
    WalkStaysInClosed(E, S, p, |p| - 1);
  }

  lemma {:induction false} WalkRanksDecrease<T(!new)>(E: set<(T, T)>, S: set<T>, rank: map<T, nat>, p: seq<T>, i: nat)
    requires RankedClosed(E, S, rank) && IsWalk(E, p) && p[0] in S && i < |p|
    ensures p[i] in S
    ensures forall j :: 0 <= j < i ==> p[j] in S && rank[p[i]] < rank[p[j]]
  {
    if i > 0 {
      WalkRanksDecrease(E, S, rank, p, i - 1);
      assert (p[i - 1], p[i]) in E;
    }
  }

  /** A walk that starts in a ranked closed set never repeats its last node. */
  lemma NoRepeatFromRanked<T(!new)>(E: set<(T, T)>, S: set<T>, rank: map<T, nat>, p: seq<T>)
    requires RankedClosed(E, S, rank) && IsWalk(E, p) && p[0] in S
    ensures !LastRepeats(p)
  {
    WalkRanksDecrease(E, S, rank, p, |p| - 1);
  }

  /** If every root lies in a ranked closed set, no cycle is reachable from the roots. */
  lemma NoCycleFromRanked<T(!new)>(E: set<(T, T)>, S: set<T>, rank: map<T, nat>, roots: set<T>)
    requires RankedClosed(E, S, rank) && roots <= S
    ensures !CycleReachable(E, roots)
  {
    if CycleReachable(E, roots) {
      var p :| IsWalk(E, p) && p[0] in roots && LastRepeats(p);
      NoRepeatFromRanked(E, S, rank, p);
    }
  }

  /** A walk from a root followed by an edge back onto it exhibits a reachable cycle. */
  lemma CycleFromStack<T(!new)>(E: set<(T, T)>, roots: set<T>, stack: seq<T>, node: T)
    requires IsWalk(E, stack) && stack[0] in roots
    requires (stack[|stack| - 1], node) in E && node in stack
    ensures CycleReachable(E, roots)
  {
    var p := stack + [node];
    var k :| 0 <= k < |stack| && stack[k] == node;
    assert p[k] == p[|p| - 1];
    assert IsWalk(E, p);
  }

  /** Extending a walk by one edge. */
  lemma WalkSnoc<T(!new)>(E: set<(T, T)>, p: seq<T>, x: T)
    requires IsWalk(E, p) && (p[|p| - 1], x) in E
    ensures IsWalk(E, p + [x])
  {
  }

  lemma ReachRefl<T(!new)>(E: set<(T, T)>, a: T)
    ensures Reaches(E, a, a)
  {
    assert IsWalk(E, [a]);
  }

  /** An edge followed by a walk is a walk. */
  lemma ReachStep<T(!new)>(E: set<(T, T)>, a: T, b: T, c: T)
    requires (a, b) in E && Reaches(E, b, c)
    ensures Reaches(E, a, c)
  {
    var p :| IsWalk(E, p) && p[0] == b && p[|p| - 1] == c;
    var q := [a] + p;
    assert IsWalk(E, q) by {
      forall i | 0 <= i < |q| - 1
        ensures (q[i], q[i + 1]) in E
      {
        if i > 0 { assert (p[i - 1], p[i]) in E; }
      }
    }
    assert q[0] == a && q[|q| - 1] == c;
  }

  /** The edges of `edges` taken in both directions. */
  ghost function Undirected<T(!new)>(edges: seq<(T, T)>): set<(T, T)> {
    (set e | e in edges) + (set e | e in edges :: (e.1, e.0))
  }

  /** A strictly smaller finite set has strictly smaller size. */
  lemma StrictSubsetCard<T>(A: set<T>, B: set<T>)
    requires A < B
    ensures |A| < |B|
  {
    assert B - A != {};
    var x :| x in B - A;
    assert B == (B - {x}) + {x};
    assert A + (B - {x} - A) == B - {x};
  }

  /** The elements of a sequence. */
  function ToSet<T(!new)>(s: seq<T>): (r: set<T>)
    ensures forall x :: x in r <==> x in s
  {
    if s == [] then {} else {s[0]} + ToSet(s[1..])
  }

  /** Pushing `node` onto a depth-first branch keeps the branch a walk from a root. */
  lemma EnterNode<T(!new)>(E: set<(T, T)>, roots: set<T>, stack: seq<T>, node: T)
    requires stack == [] ==> node in roots
    requires stack != [] ==> IsWalk(E, stack) && stack[0] in roots && (stack[|stack| - 1], node) in E
    ensures IsWalk(E, stack + [node]) && (stack + [node])[0] in roots
    ensures ToSet(stack + [node]) == ToSet(stack) + {node}
  {
    if stack != [] {
      WalkSnoc(E, stack, node);
    }
  }

  /** A cycle anywhere along the edges. */
  ghost predicate HasCycle<T(!new)>(E: set<(T, T)>) {
    exists p :: IsWalk(E, p) && LastRepeats(p)
  }

  /** When every edge starts at a root, a cycle reachable from the roots is
   *  just a cycle. */
  lemma ReachableCycleIsAnyCycle<T(!new)>(E: set<(T, T)>, roots: set<T>)
    requires forall e :: e in E ==> e.0 in roots
    ensures CycleReachable(E, roots) <==> HasCycle(E)
  {
    if HasCycle(E) {
      var p :| IsWalk(E, p) && LastRepeats(p);
      assert (p[0], p[1]) in E;
    }
  }
}
