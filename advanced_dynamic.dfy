/** The combinatorial checks of the algebraic-topology, algebraic-geometry and
 *  Bayesian-network systems: the Euler characteristic, connectivity of a
 *  complex, its double covering, the boundary of a face, the dimension of a
 *  variety and acyclicity of a network. */
module AdvancedDynamic {
  import opened Digraph

  type Edge = (string, string)

  /** A simplicial complex as the topology system holds it: vertex, edge and
   *  face lists. */
  datatype Complex = Complex(vertices: seq<string>, edges: seq<Edge>, faces: seq<seq<string>>)

  /** An algebraic variety: its defining equations and its variables. */
  datatype Variety = Variety(equations: seq<string>, variables: seq<string>)

  /** A Bayesian network's graph: its node list and directed edges. */
  datatype Network = Network(nodes: seq<string>, edges: seq<Edge>)

  // ---------------------------------------------------------------- counts

  /** V - E + F, counted over the lists as given. */
  function EulerCharacteristic(c: Complex): (r: int)
    ensures |c.vertices| - |c.edges| <= r <= |c.vertices| + |c.faces|
    ensures c.edges == [] && c.faces == [] ==> r == |c.vertices|
  {
    |c.vertices| - |c.edges| + |c.faces|
  }

  /** Variables minus equations. */
  function Dimension(v: Variety): (r: int)
    ensures r <= |v.variables|
    ensures r == |v.variables| <==> v.equations == []
  {
    |v.variables| - |v.equations|
  }

  /** Each further equation cuts the dimension by one. */
  lemma DimensionDropsPerEquation(v: Variety, eq: string)
    ensures Dimension(Variety(v.equations + [eq], v.variables)) == Dimension(v) - 1
    ensures Dimension(Variety([], v.variables)) == |v.variables|
  {
  }

  // ------------------------------------------------------------- covering

  function Primed(v: string): string { v + "'" }

  function PrimeFace(face: seq<string>): (r: seq<string>)
    ensures |r| == |face| && forall i :: 0 <= i < |r| ==> r[i] == Primed(face[i])
  {
    if face == [] then [] else [Primed(face[0])] + PrimeFace(face[1..])
  }

  function PrimeVertices(vs: seq<string>): (r: seq<string>)
    ensures |r| == |vs| && forall i :: 0 <= i < |r| ==> r[i] == Primed(vs[i])
  {
    PrimeFace(vs)
  }

  function PrimeEdges(es: seq<Edge>): (r: seq<Edge>)
    ensures |r| == |es| && forall i :: 0 <= i < |r| ==> r[i] == (Primed(es[i].0), Primed(es[i].1))
  {
    if es == [] then [] else [(Primed(es[0].0), Primed(es[0].1))] + PrimeEdges(es[1..])
  }

  function PrimeFaces(fs: seq<seq<string>>): (r: seq<seq<string>>)
    ensures |r| == |fs| && forall i :: 0 <= i < |r| ==> r[i] == PrimeFace(fs[i])
  {
    if fs == [] then [] else [PrimeFace(fs[0])] + PrimeFaces(fs[1..])
  }

  /** The two-sheeted covering: the complex followed by a primed copy of it. */
  function CoveringSpace(c: Complex): (r: Complex)
    ensures |r.vertices| == 2 * |c.vertices| && |r.edges| == 2 * |c.edges| && |r.faces| == 2 * |c.faces|
    ensures r.vertices[..|c.vertices|] == c.vertices && r.edges[..|c.edges|] == c.edges
    ensures r.faces[..|c.faces|] == c.faces
    ensures forall i :: 0 <= i < |c.vertices| ==> r.vertices[|c.vertices| + i] == Primed(c.vertices[i])
    ensures forall i :: 0 <= i < |c.edges| ==>
              r.edges[|c.edges| + i] == (Primed(c.edges[i].0), Primed(c.edges[i].1))
    ensures forall i :: 0 <= i < |c.faces| ==> r.faces[|c.faces| + i] == PrimeFace(c.faces[i])
  {
    Complex(c.vertices + PrimeVertices(c.vertices), c.edges + PrimeEdges(c.edges),
            c.faces + PrimeFaces(c.faces))
  }

  /** A double covering doubles the Euler characteristic. */
  lemma CoveringDoublesEuler(c: Complex)
    ensures EulerCharacteristic(CoveringSpace(c)) == 2 * EulerCharacteristic(c)
  {
  }

  /** Every edge of the covering joins vertices of the covering whenever every
   *  edge of the base joins vertices of the base. */
  lemma CoveringKeepsEdgesOnVertices(c: Complex)
    requires forall e :: e in c.edges ==> e.0 in c.vertices && e.1 in c.vertices
    ensures forall e :: e in CoveringSpace(c).edges ==>
              e.0 in CoveringSpace(c).vertices && e.1 in CoveringSpace(c).vertices
  {
    PrimedEdgesOnVertices(c.vertices, c.edges);
    JoinedEdgesOnVertices(c.vertices, c.edges, PrimeVertices(c.vertices), PrimeEdges(c.edges));
  }

  /** Priming the vertices and edges alike keeps every edge on a vertex. */
  lemma PrimedEdgesOnVertices(vs: seq<string>, es: seq<Edge>)
    requires forall e :: e in es ==> e.0 in vs && e.1 in vs
    ensures forall e :: e in PrimeEdges(es) ==> e.0 in PrimeVertices(vs) && e.1 in PrimeVertices(vs)
  {
    var pv, pe := PrimeVertices(vs), PrimeEdges(es);
    forall e | e in pe
      ensures e.0 in pv && e.1 in pv
    {
      var k :| 0 <= k < |pe| && pe[k] == e;
      assert es[k] in es;
      var a :| 0 <= a < |vs| && vs[a] == es[k].0;
      var b :| 0 <= b < |vs| && vs[b] == es[k].1;
      assert pv[a] == e.0 && pv[b] == e.1;
    }
  }

  /** Two complexes whose edges sit on their own vertices, listed one after
   *  the other, still have every edge on a vertex. */
  lemma JoinedEdgesOnVertices<V>(vs: seq<V>, es: seq<(V, V)>, vs': seq<V>, es': seq<(V, V)>)
    requires forall e :: e in es ==> e.0 in vs && e.1 in vs
    requires forall e :: e in es' ==> e.0 in vs' && e.1 in vs'
    ensures forall e :: e in es + es' ==> e.0 in vs + vs' && e.1 in vs + vs'
  {
  }

  // ------------------------------------------------------------- boundary

  /** The boundary of a face: each vertex joined to the next, the last to the first. */
  function Boundary(face: seq<string>): (r: seq<Edge>)
    ensures |r| == |face|
    ensures forall i :: 0 <= i < |r| ==> r[i] == (face[i], face[(i + 1) % |face|])
  {
    seq(|face|, i requires 0 <= i < |face| => (face[i], face[(i + 1) % |face|]))
  }

  /** The boundary edges of a face chain head to tail into one closed loop that
   *  leaves from every vertex of the face once. */
  lemma BoundaryIsClosedChain(face: seq<string>)
    ensures forall i :: 0 <= i < |face| - 1 ==> Boundary(face)[i].1 == Boundary(face)[i + 1].0
    ensures |face| > 0 ==> Boundary(face)[|face| - 1].1 == Boundary(face)[0].0
    ensures forall i :: 0 <= i < |face| ==> Boundary(face)[i].0 == face[i]
  {
    var n := |face|;
    var b := Boundary(face);
    if n > 0 {
      NextIndex(n - 1, n);
      assert b[n - 1] == (face[n - 1], face[0]);
    }
    forall i | 0 <= i < n - 1
      ensures b[i].1 == b[i + 1].0
    {
      NextIndex(i, n);
      assert b[i] == (face[i], face[i + 1]);
    }
  }

  /** The index after `i` around a face of `n` vertices. */
  lemma NextIndex(i: int, n: int)
    requires 0 <= i < n
    ensures (i + 1) % n == if i + 1 == n then 0 else i + 1
  {
  }

  // ---------------------------------------------------------- connectivity

  /** Every endpoint of an edge, together with `start`. */
  function Endpoints(edges: seq<Edge>, start: string): set<string> {
    {start} + (set e | e in edges :: e.0) + (set e | e in edges :: e.1)
  }

  /** The nodes an undirected walk from `start` can reach. */
  ghost function ReachFrom(edges: seq<Edge>, start: string): set<string> {
    set x | x in Endpoints(edges, start) && Reaches(Undirected(edges), start, x)
  }

  /** Every node of `visited`, except the ones still being explored, has the
   *  other end of each edge touching it in `visited`. */
  ghost predicate ClosedExcept(edges: seq<Edge>, visited: set<string>, active: set<string>) {
    forall k :: 0 <= k < |edges| ==>
      (edges[k].0 in visited && edges[k].0 !in active ==> edges[k].1 in visited) &&
      (edges[k].1 in visited && edges[k].1 !in active ==> edges[k].0 in visited)
  }

  /** Once every edge touching `vertex` leads into `visited`, `vertex` no longer
   *  needs to be excepted. */
  lemma FinishVertex(edges: seq<Edge>, visited: set<string>, active: set<string>, vertex: string)
    requires ClosedExcept(edges, visited, active + {vertex})
    requires Marked(edges, vertex, |edges|, visited)
    ensures ClosedExcept(edges, visited, active)
  {
  }

  /** With nothing excepted, `visited` is closed under the undirected edges. */
  lemma ClosedUndirected(edges: seq<Edge>, visited: set<string>)
    requires ClosedExcept(edges, visited, {})
    ensures Closed(Undirected(edges), visited)
  {
    forall d | d in Undirected(edges) && d.0 in visited
      ensures d.1 in visited
    {
      if d in edges {
        var k :| 0 <= k < |edges| && edges[k] == d;
      } else {
        var k :| 0 <= k < |edges| && (edges[k].1, edges[k].0) == d;
      }
    }
  }

  /** Whatever a neighbour `w` of `vertex` reaches, `vertex` reaches too. */
  lemma ReachThrough(U: set<Edge>, vertex: string, w: string, visited: set<string>,
                     before: set<string>, after: set<string>)
    requires (vertex, w) in U
    requires forall x :: x in before ==> x in visited || Reaches(U, vertex, x)
    requires forall x :: x in after ==> x in before || Reaches(U, w, x)
    ensures forall x :: x in after ==> x in visited || Reaches(U, vertex, x)
  {
    forall x | x in after && x !in before
      ensures Reaches(U, vertex, x)
    {
      ReachStep(U, vertex, w, x);
    }
  }

  /** Anything an undirected walk from `start` reaches is `start` or an endpoint. */
  lemma ReachedIsEndpoint(edges: seq<Edge>, start: string, x: string)
    requires Reaches(Undirected(edges), start, x)
    ensures x in Endpoints(edges, start)
  {
    var p :| IsWalk(Undirected(edges), p) && p[0] == start && p[|p| - 1] == x;
    if |p| > 1 {
      var d := (p[|p| - 2], p[|p| - 1]);
      assert d in Undirected(edges);
      if d in edges {
        var k :| 0 <= k < |edges| && edges[k] == d;
      } else {
        var k :| 0 <= k < |edges| && (edges[k].1, edges[k].0) == d;
      }
    }
  }

  /** Every edge among the first `i` that touches `vertex` has its other
   *  end marked. */
  ghost predicate Marked(edges: seq<Edge>, vertex: string, i: int, visited: set<string>) {
    forall k :: 0 <= k < i && k < |edges| ==>
      (edges[k].0 == vertex ==> edges[k].1 in visited) && (edges[k].1 == vertex ==> edges[k].0 in visited)
  }

  /** Marking more nodes keeps the edges marked, and the `i`-th edge joins
   *  them once its other end is marked. */
  lemma MarkedGrows(edges: seq<Edge>, vertex: string, i: nat, before: set<string>, after: set<string>)
    requires i < |edges| && Marked(edges, vertex, i, before) && before <= after
    requires edges[i].0 == vertex ==> edges[i].1 in after
    requires edges[i].1 == vertex ==> edges[i].0 in after
    ensures Marked(edges, vertex, i + 1, after)
  {
  }

  /** The recursive `dfs` inside `is_connected`: marks `vertex` and walks every
   *  edge touching it whose other end is still unmarked. */
  method ConnectDfs(edges: seq<Edge>, vertex: string, visited: set<string>,
                    ghost active: set<string>, ghost nodes: set<string>)
    returns (visited': set<string>)
    requires forall e :: e in edges ==> e.0 in nodes && e.1 in nodes
    requires vertex in nodes && visited <= nodes
    requires vertex !in visited && active <= visited
    requires ClosedExcept(edges, visited, active)
    ensures visited + {vertex} <= visited' <= nodes
    ensures ClosedExcept(edges, visited', active)
    ensures forall x :: x in visited' ==> x in visited || Reaches(Undirected(edges), vertex, x)
    decreases |nodes - visited|
  {
    ghost var U := Undirected(edges);
    visited' := visited + {vertex};
    ReachRefl(U, vertex);
    var i := 0;
    while i < |edges|
      invariant 0 <= i <= |edges|
      invariant visited + {vertex} <= visited' <= nodes
      invariant ClosedExcept(edges, visited', active + {vertex})
      invariant Marked(edges, vertex, i, visited')
      invariant forall x :: x in visited' ==> x in visited || Reaches(U, vertex, x)
    {
      var e := edges[i];
      assert e in edges;
      ghost var start := visited';
      if e.0 == vertex && e.1 !in visited' {
        StrictSubsetCard(nodes - visited', nodes - visited);
        ghost var before := visited';
        visited' := ConnectDfs(edges, e.1, visited', active + {vertex}, nodes);
        ReachThrough(U, vertex, e.1, visited, before, visited');
      } else if e.1 == vertex && e.0 !in visited' {
        StrictSubsetCard(nodes - visited', nodes - visited);
        ghost var before := visited';
        visited' := ConnectDfs(edges, e.0, visited', active + {vertex}, nodes);
        ReachThrough(U, vertex, e.0, visited, before, visited');
      }
      MarkedGrows(edges, vertex, i, start, visited');
      i := i + 1;
    }
    FinishVertex(edges, visited', active, vertex);
  }

  /** `is_connected`: True for a complex without vertices; otherwise a DFS from
   *  the first vertex marks nodes, and the answer compares the number of marked
   *  nodes with the length of the vertex list. */
  method IsConnected(c: Complex) returns (r: bool)
    ensures c.vertices == [] ==> r
    ensures c.vertices != [] ==> (r <==> |ReachFrom(c.edges, c.vertices[0])| == |c.vertices|)
  {
    if c.vertices == [] {
      return true;
    }
    var start := c.vertices[0];
    ghost var nodes := Endpoints(c.edges, start);
    var visited := ConnectDfs(c.edges, start, {}, {}, nodes);
    ClosedUndirected(c.edges, visited);
    assert visited == ReachFrom(c.edges, start) by {
      forall x | x in ReachFrom(c.edges, start)
        ensures x in visited
      {
        ClosedHoldsReach(Undirected(c.edges), visited, start, x);
      }
    }
    r := |visited| == |c.vertices|;
  }

  ghost predicate Distinct(s: seq<string>) {
    forall i, j :: 0 <= i < j < |s| ==> s[i] != s[j]
  }

  lemma {:induction false} DistinctCard(s: seq<string>)
    requires Distinct(s)
    ensures |ToSet(s)| == |s|
  {
    if s != [] {
      assert Distinct(s[1..]);
      DistinctCard(s[1..]);
      assert s[0] !in ToSet(s[1..]);
    }
  }

  /** For a complex whose vertices are listed once each and whose edges join
   *  listed vertices, `is_connected` is True exactly when every vertex can be
   *  reached from the first one. */
  lemma ConnectedIffAllReached(c: Complex)
    requires c.vertices != [] && Distinct(c.vertices)
    requires forall e :: e in c.edges ==> e.0 in c.vertices && e.1 in c.vertices
    ensures |ReachFrom(c.edges, c.vertices[0])| == |c.vertices| <==>
            forall v :: v in c.vertices ==> Reaches(Undirected(c.edges), c.vertices[0], v)
  {
    var R := ReachFrom(c.edges, c.vertices[0]);
    var V := ToSet(c.vertices);
    DistinctCard(c.vertices);
    assert R <= V;
    if forall v :: v in c.vertices ==> Reaches(Undirected(c.edges), c.vertices[0], v) {
      forall v | v in V
        ensures v in R
      {
        ReachedIsEndpoint(c.edges, c.vertices[0], v);
      }
      assert R == V;
    }
    if |R| == |c.vertices| {
      if R < V {
        StrictSubsetCard(R, V);
        assert false;
      }
      forall v | v in c.vertices
        ensures Reaches(Undirected(c.edges), c.vertices[0], v)
      {
        assert v in R;
      }
    }
  }

  // ----------------------------------------------------------- acyclicity

  function EdgeSet(edges: seq<Edge>): set<Edge> {
    set e | e in edges
  }

  /** The nodes of `B` are finished: ranked and closed, with ranks below `clock`. */
  ghost predicate Finished(edges: seq<Edge>, B: set<string>, rank: map<string, nat>, clock: nat) {
    RankedClosed(EdgeSet(edges), B, rank) && forall b :: b in B ==> rank[b] < clock
  }

  /** The recursive `dfs` inside `is_acyclic`. `path` holds the nodes on the
   *  current DFS branch (ghost `stack` lists them in order) and `visited` every
   *  node entered so far. False means an edge led back onto the branch. */
  method AcyclicDfs(edges: seq<Edge>, node: string, visited: set<string>, path: set<string>,
                    ghost stack: seq<string>, ghost roots: set<string>,
                    ghost rank: map<string, nat>, ghost clock: nat, ghost nodes: set<string>)
    returns (ok: bool, visited': set<string>, path': set<string>,
             ghost rank': map<string, nat>, ghost clock': nat)
    requires forall e :: e in edges ==> e.1 in nodes
    requires node in nodes && visited <= nodes
    requires path == ToSet(stack) && path <= visited
    requires stack == [] ==> node in roots
    requires stack != [] ==> IsWalk(EdgeSet(edges), stack) && stack[0] in roots &&
                             (stack[|stack| - 1], node) in EdgeSet(edges)
    requires Finished(edges, visited - path, rank, clock)
    ensures !ok ==> CycleReachable(EdgeSet(edges), roots)
    ensures ok ==> path' == path && visited + {node} <= visited' <= nodes && node !in path'
    ensures ok ==> Finished(edges, visited' - path', rank', clock')
    decreases |nodes - visited|, 1
  {
    if node in path {
      CycleFromStack(EdgeSet(edges), roots, stack, node);
      return false, visited, path, rank, clock;
    }
    if node in visited {
      return true, visited, path, rank, clock;
    }
    EnterNode(EdgeSet(edges), roots, stack, node);
    ok, visited', rank', clock' :=
      VisitSuccessors(edges, node, visited + {node}, path + {node}, stack + [node], roots,
                      rank, clock, nodes, visited);
    if ok {
      // Every successor of `node` is finished: `node` finishes with a rank above theirs.
      FinishNode(edges, visited' - (path + {node}), rank', clock', node);
      assert visited' - path == (visited' - (path + {node})) + {node};
      rank' := rank'[node := clock'];
      clock' := clock' + 1;
    }
    path' := path;
  }

  /** The `for edge in self.edges` loop of `dfs(node)`, with `node` on the branch:
   *  explores each successor in turn and stops at the first cycle found. */
  method VisitSuccessors(edges: seq<Edge>, node: string, visited: set<string>, path: set<string>,
                         ghost stack: seq<string>, ghost roots: set<string>,
                         ghost rank: map<string, nat>, ghost clock: nat, ghost nodes: set<string>,
                         ghost entered: set<string>)
    returns (ok: bool, visited': set<string>, ghost rank': map<string, nat>, ghost clock': nat)
    requires forall e :: e in edges ==> e.1 in nodes
    requires entered + {node} <= visited <= nodes && node !in entered
    requires path == ToSet(stack) && path <= visited && node in path
    requires IsWalk(EdgeSet(edges), stack) && stack[0] in roots && stack[|stack| - 1] == node
    requires Finished(edges, visited - path, rank, clock)
    ensures !ok ==> CycleReachable(EdgeSet(edges), roots)
    ensures ok ==> visited <= visited' <= nodes
    ensures ok ==> Finished(edges, visited' - path, rank', clock')
    ensures ok ==> SuccessorsIn(edges, node, |edges|, visited' - path)
    decreases |nodes - entered|, 0
  {
    visited', rank', clock' := visited, rank, clock;
    var i := 0;
    while i < |edges|
      invariant 0 <= i <= |edges|
      invariant visited <= visited' <= nodes
      invariant Finished(edges, visited' - path, rank', clock')
      invariant SuccessorsIn(edges, node, i, visited' - path)
    {
      ghost var done := visited' - path;
      if edges[i].0 == node {
        assert edges[i] in edges;
        StrictSubsetCard(nodes - visited', nodes - entered);
        var r, p;
        r, visited', p, rank', clock' :=
          AcyclicDfs(edges, edges[i].1, visited', path, stack, roots, rank', clock', nodes);
        if !r {
          return false, visited', rank', clock';
        }
      }
      SuccessorsGrow(edges, node, i, done, visited' - path);
      i := i + 1;
    }
    ok := true;
  }

  /** Every successor of `node` through the first `n` edges lies in `B`. */
  ghost predicate SuccessorsIn(edges: seq<Edge>, node: string, n: nat, B: set<string>)
    requires n <= |edges|
  {
    forall k :: 0 <= k < n && edges[k].0 == node ==> edges[k].1 in B
  }

  lemma SuccessorsGrow(edges: seq<Edge>, node: string, i: nat, B: set<string>, B': set<string>)
    requires i < |edges| && SuccessorsIn(edges, node, i, B) && B <= B'
    requires edges[i].0 == node ==> edges[i].1 in B'
    ensures SuccessorsIn(edges, node, i + 1, B')
  {
  }

  /** A node all of whose successors are finished finishes above all of them. */
  lemma FinishNode(edges: seq<Edge>, B: set<string>, rank: map<string, nat>, clock: nat, node: string)
    requires Finished(edges, B, rank, clock)
    requires SuccessorsIn(edges, node, |edges|, B)
    requires node !in B
    ensures Finished(edges, B + {node}, rank[node := clock], clock + 1)
  {
    var rank' := rank[node := clock];
    forall e | e in EdgeSet(edges) && e.0 in B + {node}
      ensures e.1 in B + {node} && rank'[e.1] < rank'[e.0]
    {
      if e.0 == node {
        var k :| 0 <= k < |edges| && edges[k] == e;
        assert e.1 in B;
        assert rank'[e.1] == rank[e.1];
      } else {
        assert e.0 in B;
      }
    }
  }

  /** `is_acyclic`: runs the DFS from every listed node in turn and stops at the
   *  first one that finds its way back onto its own branch. */
  method IsAcyclic(net: Network) returns (r: bool)
    ensures r <==> !CycleReachable(EdgeSet(net.edges), ToSet(net.nodes))
  {
    ghost var E := EdgeSet(net.edges);
    ghost var roots := ToSet(net.nodes);
    ghost var nodes := ToSet(net.nodes) + (set e | e in net.edges :: e.1);
    var visited: set<string> := {};
    var path: set<string> := {};
    ghost var rank: map<string, nat> := map[];
    ghost var clock: nat := 0;
    var i := 0;
    while i < |net.nodes|
      invariant 0 <= i <= |net.nodes|
      invariant path == {} && visited <= nodes
      invariant Finished(net.edges, visited, rank, clock)
      invariant forall k :: 0 <= k < i ==> net.nodes[k] in visited
    {
      var ok;
      ok, visited, path, rank, clock := AcyclicDfs(net.edges, net.nodes[i], visited, path, [], roots, rank, clock, nodes);
      if !ok {
        return false;
      }
      i := i + 1;
    }
    NoCycleFromRanked(E, visited, rank, roots);
    return true;
  }

  /** When every edge starts at a listed node, "a cycle reachable from the
   *  nodes" is just "a cycle": `is_acyclic` is False exactly when the directed
   *  edges contain a cycle. */
  lemma IsAcyclicMeansNoCycle(net: Network)
    requires forall e :: e in net.edges ==> e.0 in net.nodes
    ensures CycleReachable(EdgeSet(net.edges), ToSet(net.nodes)) <==> HasCycle(EdgeSet(net.edges))
  {
    ReachableCycleIsAnyCycle(EdgeSet(net.edges), ToSet(net.nodes));
  }
}
