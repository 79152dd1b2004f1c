/** Breadth-first path search over an undirected reading of an edge list,
 *  as done by `RelationGraph.find_path` and `KnowledgeGraphAnalyzer.find_path`:
 *  a queue of paths from the source, a visited set, and each dequeued node
 *  expanded by its neighbours. */
module GraphSearch {
  import opened Wrappers
  import opened Digraph

  type Edges<T> = seq<(T, T)>

  lemma UndirectedMember<T(!new)>(edges: Edges<T>, x: T, y: T)
    ensures (x, y) in Undirected(edges) <==> (x, y) in edges || (y, x) in edges
  {
    if (y, x) in edges {
      assert (x, y) == ((y, x).1, (y, x).0);
    }
  }

  /** The other endpoint of every edge at `x`, in edge order: the target of an
   *  edge from `x`, else the source of an edge into `x`. */
  function Neighbours<T(==, !new)>(edges: Edges<T>, x: T): (ns: seq<T>)
    ensures forall y :: y in ns <==> (x, y) in edges || (y, x) in edges
  {
    if edges == [] then []
    else
      var e := edges[|edges| - 1];
      assert forall d :: d in edges <==> d in edges[..|edges| - 1] || d == e by {
        assert edges == edges[..|edges| - 1] + [e];
      }
      Neighbours(edges[..|edges| - 1], x) + (if e.0 == x then [e.1] else if e.1 == x then [e.0] else [])
  }

  /** Every edge joins two of `nodes`. */
  predicate EndpointsIn<T>(edges: Edges<T>, nodes: set<T>) {
    forall e :: e in edges ==> e.0 in nodes && e.1 in nodes
  }

  /** Every node that is some edge's endpoint. */
  ghost function Endpoints<T>(edges: Edges<T>): set<T> {
    (set e | e in edges :: e.0) + (set e | e in edges :: e.1)
  }

  lemma NeighbourIsEndpoint<T>(edges: Edges<T>, x: T, y: T)
    requires (x, y) in edges || (y, x) in edges
    ensures y in Endpoints(edges)
  {
    if (x, y) in edges {
      assert y == (x, y).1;
    } else {
      assert y == (y, x).0;
    }
  }

  /** Each queued path is a walk from `source` ending at the matching entry
   *  of `lasts`. */
  ghost predicate QueueOk<T(!new)>(E: set<(T, T)>, source: T, queue: seq<seq<T>>, lasts: seq<T>) {
    |lasts| == |queue| &&
    forall i :: 0 <= i < |queue| ==>
      IsWalk(E, queue[i]) && queue[i][0] == source && queue[i][|queue[i]| - 1] == lasts[i]
  }

  /** A visited node has been expanded or is waiting at the end of a queued
   *  path. */
  ghost predicate Frontier<T(!new)>(visited: set<T>, done: set<T>, lasts: seq<T>) {
    forall v :: v in visited <==> v in done || v in lasts
  }

  /** Every neighbour of an expanded node has been visited. */
  ghost predicate Expanded<T(!new)>(E: set<(T, T)>, done: set<T>, visited: set<T>) {
    forall d, y :: d in done && (d, y) in E ==> y in visited
  }

  /** `w` is a walk along `E` that starts at `source`. */
  ghost predicate WalkFrom<T(!new)>(E: set<(T, T)>, source: T, w: seq<T>) {
    IsWalk(E, w) && w[0] == source
  }

  /** No walk from `source` to `v` has fewer than `k` nodes. */
  ghost predicate NoShorter<T(!new)>(E: set<(T, T)>, source: T, v: T, k: nat) {
    forall w {:trigger WalkFrom(E, source, w)} :: WalkFrom(E, source, w) && w[|w| - 1] == v ==> k <= |w|
  }

  /** `p` is a shortest walk from `source` to `target`: no such walk has
   *  fewer nodes. */
  ghost predicate Shortest<T(!new)>(E: set<(T, T)>, source: T, target: T, p: seq<T>) {
    forall w :: IsWalk(E, w) && w[0] == source && w[|w| - 1] == target ==> |p| <= |w|
  }

  /** Every node some walk of at most `level` nodes from `source` reaches
   *  has been visited. */
  ghost predicate Covered<T(!new)>(E: set<(T, T)>, source: T, level: nat, visited: set<T>) {
    forall w {:trigger WalkFrom(E, source, w)} :: WalkFrom(E, source, w) && |w| <= level ==> w[|w| - 1] in visited
  }

  /** The first `short` queued paths have `level` nodes and the rest
   *  `level + 1`. */
  ghost predicate Layered<T>(queue: seq<seq<T>>, level: nat, short: nat) {
    short <= |queue| &&
    forall i :: 0 <= i < |queue| ==> |queue[i]| == if i < short then level else level + 1
  }

  /** Each visited node has a distance no walk beats, and a queued path is
   *  as long as the distance of its last node. */
  ghost predicate Distances<T(!new)>(E: set<(T, T)>, source: T, visited: set<T>, dist: map<T, nat>,
                                     queue: seq<seq<T>>, lasts: seq<T>) {
    |lasts| == |queue| && dist.Keys == visited &&
    (forall i :: 0 <= i < |queue| ==> lasts[i] in dist && dist[lasts[i]] == |queue[i]|) &&
    (forall v :: v in visited ==> NoShorter(E, source, v, dist[v]))
  }

  /** Once the front of the queue is one node longer than `level`, every
   *  node within `level + 1` nodes of the source is visited: the
   *  next-to-last node of such a walk is within `level`, so it is no
   *  longer queued and has been expanded. */
  lemma NextLayer<T(!new)>(E: set<(T, T)>, source: T, level: nat, visited: set<T>, done: set<T>,
                           dist: map<T, nat>, queue: seq<seq<T>>, lasts: seq<T>)
    requires Frontier(visited, done, lasts) && Expanded(E, done, visited)
    requires Distances(E, source, visited, dist, queue, lasts) && Covered(E, source, level, visited)
    requires Layered(queue, level, 0) && 1 <= level
    ensures Covered(E, source, level + 1, visited) && Layered(queue, level + 1, |queue|)
  {
    forall w | WalkFrom(E, source, w) && |w| <= level + 1
      ensures w[|w| - 1] in visited
    {
      if |w| == level + 1 {
        var w' := w[..|w| - 1];
        assert WalkFrom(E, source, w');
        var u := w[|w| - 2];
        assert w'[|w'| - 1] == u;
        assert dist[u] <= level;
        assert forall i :: 0 <= i < |lasts| ==> dist[lasts[i]] == |queue[i]| == level + 1;
        assert u in done;
        assert (w[|w| - 2], w[|w| - 2 + 1]) in E;
      }
    }
  }

  /** Queuing a one-node extension of a path of `level` nodes to a node no
   *  walk of at most `level` nodes reaches keeps the layers and the
   *  distances. */
  lemma QueueKeeps<T(!new)>(E: set<(T, T)>, source: T, level: nat, short: nat, covered: set<T>, visited: set<T>,
                            dist: map<T, nat>, queue: seq<seq<T>>, lasts: seq<T>, path: seq<T>, n: T)
    requires Layered(queue, level, short) && Distances(E, source, visited, dist, queue, lasts)
    requires Covered(E, source, level, covered) && covered <= visited && n !in visited
    requires |path| == level
    ensures Layered(queue + [path + [n]], level, short)
    ensures Distances(E, source, visited + {n}, dist[n := level + 1], queue + [path + [n]], lasts + [n])
  {
    assert NoShorter(E, source, n, level + 1);
    var q, l, d := queue + [path + [n]], lasts + [n], dist[n := level + 1];
    forall i | 0 <= i < |q|
      ensures l[i] in d && d[l[i]] == |q[i]|
    {
      if i < |queue| {
        assert l[i] == lasts[i] && q[i] == queue[i];
        assert lasts[i] in visited;
      }
    }
  }

  /** A distance no walk beats makes a path of that length a shortest one. */
  lemma ShortestFromDistance<T(!new)>(E: set<(T, T)>, source: T, target: T, p: seq<T>)
    requires NoShorter(E, source, target, |p|)
    ensures Shortest(E, source, target, p)
  {
    forall w | IsWalk(E, w) && w[0] == source && w[|w| - 1] == target
      ensures |p| <= |w|
    {
      assert WalkFrom(E, source, w);
    }
  }

  /** Dequeuing the front path keeps the layers and the distances. */
  lemma PopKeeps<T(!new)>(E: set<(T, T)>, source: T, level: nat, short: nat, visited: set<T>,
                          dist: map<T, nat>, queue: seq<seq<T>>, lasts: seq<T>)
    requires QueueOk(E, source, queue, lasts)
    requires Layered(queue, level, short) && Distances(E, source, visited, dist, queue, lasts) && 0 < short
    ensures QueueOk(E, source, queue[1..], lasts[1..])
    ensures |queue[0]| == level
    ensures Layered(queue[1..], level, short - 1) && Distances(E, source, visited, dist, queue[1..], lasts[1..])
  {
  }

  /** What holds after the inner loop of the search has looked at the first
   *  `j` neighbours `ns`, starting from `queue0` and `visited0`. */
  ghost predicate Enqueuing<T(!new)>(E: set<(T, T)>, universe: set<T>, done: set<T>, source: T,
                                    level: nat, short: nat, ns: seq<T>, j: int, queue0: seq<seq<T>>, visited0: set<T>,
                                    queue: seq<seq<T>>, visited: set<T>, lasts: seq<T>, dist: map<T, nat>) {
    0 <= j <= |ns| &&
    QueueOk(E, source, queue, lasts) && Frontier(visited, done, lasts) &&
    visited0 <= visited <= universe &&
    (forall k :: 0 <= k < j ==> ns[k] in visited) &&
    |universe - visited| + |queue| <= |universe - visited0| + |queue0| &&
    Layered(queue, level, short) && Distances(E, source, visited, dist, queue, lasts)
  }

  /** Queuing the extension of `path` to a neighbour not yet visited keeps
   *  what the inner loop promises. */
  lemma EnqueueAdds<T(!new)>(E: set<(T, T)>, universe: set<T>, done: set<T>, source: T, path: seq<T>,
                             level: nat, short: nat, ns: seq<T>, j: int, queue0: seq<seq<T>>, visited0: set<T>,
                             queue: seq<seq<T>>, visited: set<T>, lasts: seq<T>, dist: map<T, nat>)
    requires IsWalk(E, path) && path[0] == source && path[|path| - 1] in done
    requires forall y :: y in ns ==> (path[|path| - 1], y) in E && y in universe
    requires |path| == level && Covered(E, source, level, visited0)
    requires Enqueuing(E, universe, done, source, level, short, ns, j, queue0, visited0, queue, visited, lasts, dist)
    requires j < |ns| && ns[j] !in visited
    ensures Enqueuing(E, universe, done, source, level, short, ns, j + 1, queue0, visited0,
                      queue + [path + [ns[j]]], visited + {ns[j]}, lasts + [ns[j]], dist[ns[j] := level + 1])
  {
    var n := ns[j];
    assert n in ns;
    WalkSnoc(E, path, n);
    QueueKeeps(E, source, level, short, visited0, visited, dist, queue, lasts, path, n);
    assert universe - (visited + {n}) == (universe - visited) - {n};
  }

  /** Before the inner loop, no neighbour has been looked at. */
  lemma EnqueueStarts<T(!new)>(E: set<(T, T)>, universe: set<T>, done: set<T>, source: T,
                               level: nat, short: nat, ns: seq<T>, queue: seq<seq<T>>, visited: set<T>,
                               lasts: seq<T>, dist: map<T, nat>)
    requires QueueOk(E, source, queue, lasts) && Frontier(visited, done, lasts) && visited <= universe
    requires Layered(queue, level, short) && Distances(E, source, visited, dist, queue, lasts)
    ensures Enqueuing(E, universe, done, source, level, short, ns, 0, queue, visited, queue, visited, lasts, dist)
  {
  }

  /** A neighbour already visited is passed over. */
  lemma EnqueueSkips<T(!new)>(E: set<(T, T)>, universe: set<T>, done: set<T>, source: T,
                              level: nat, short: nat, ns: seq<T>, j: int, queue0: seq<seq<T>>, visited0: set<T>,
                              queue: seq<seq<T>>, visited: set<T>, lasts: seq<T>, dist: map<T, nat>)
    requires Enqueuing(E, universe, done, source, level, short, ns, j, queue0, visited0, queue, visited, lasts, dist)
    requires j < |ns| && ns[j] in visited
    ensures Enqueuing(E, universe, done, source, level, short, ns, j + 1, queue0, visited0, queue, visited, lasts, dist)
  {
  }

  /** The inner loop of the search: queues a one-step extension of `path`
   *  for each neighbour not yet visited. */
  method Enqueue<T(==, !new)>(ghost E: set<(T, T)>, ghost universe: set<T>, ghost done: set<T>,
                 source: T, path: seq<T>, ns: seq<T>, queue: seq<seq<T>>, visited: set<T>, ghost lasts: seq<T>,
                 ghost level: nat, ghost short: nat, ghost dist: map<T, nat>)
    returns (queue': seq<seq<T>>, visited': set<T>, ghost lasts': seq<T>, ghost dist': map<T, nat>)
    requires QueueOk(E, source, queue, lasts) && Frontier(visited, done, lasts)
    requires IsWalk(E, path) && path[0] == source && path[|path| - 1] in done
    requires visited <= universe
    requires forall y :: y in ns ==> (path[|path| - 1], y) in E && y in universe
    requires |path| == level && Layered(queue, level, short) && Covered(E, source, level, visited)
    requires Distances(E, source, visited, dist, queue, lasts)
    ensures Enqueuing(E, universe, done, source, level, short, ns, |ns|, queue, visited, queue', visited', lasts', dist')
  {
    queue', visited', lasts', dist' := queue, visited, lasts, dist;
    EnqueueStarts(E, universe, done, source, level, short, ns, queue, visited, lasts, dist);
    for j := 0 to |ns|
      invariant Enqueuing(E, universe, done, source, level, short, ns, j, queue, visited, queue', visited', lasts', dist')
    {
      var n := ns[j];
      if n !in visited' {
        EnqueueAdds(E, universe, done, source, path, level, short, ns, j, queue, visited, queue', visited', lasts', dist');
        visited' := visited' + {n};
        queue' := queue' + [path + [n]];
        lasts' := lasts' + [n];
        dist' := dist'[n := level + 1];
      } else {
        EnqueueSkips(E, universe, done, source, level, short, ns, j, queue, visited, queue', visited', lasts', dist');
      }
    }
  }

  /** When the queue runs dry, the expanded nodes are closed under the
   *  edges, so a target never expanded is out of reach. */
  lemma Exhausted<T(!new)>(E: set<(T, T)>, done: set<T>, source: T, target: T)
    requires Expanded(E, done, done) && source in done && target !in done
    ensures !Reaches(E, source, target)
  {
    assert Closed(E, done) by {
      forall e | e in E && e.0 in done
        ensures e.1 in done
      {
        assert (e.0, e.1) in E;
      }
    }
    if Reaches(E, source, target) {
      ClosedHoldsReach(E, done, source, target);
    }
  }

  /** When every edge joins two of `nodes`, whatever a node of `nodes`
   *  reaches is in `nodes`. */
  lemma ReachStaysIn<T(!new)>(edges: Edges<T>, nodes: set<T>, s: T, x: T)
    requires EndpointsIn(edges, nodes) && s in nodes && Reaches(Undirected(edges), s, x)
    ensures x in nodes
  {
    var p :| IsWalk(Undirected(edges), p) && p[0] == s && p[|p| - 1] == x;
    if |p| > 1 {
      UndirectedMember(edges, p[|p| - 2], x);
    }
  }

  /** The neighbours of `node` are joined to it and are edge endpoints. */
  lemma NeighboursAdjacent<T(!new)>(edges: Edges<T>, node: T, ns: seq<T>)
    requires forall y :: y in ns <==> (node, y) in edges || (y, node) in edges
    ensures forall y :: y in ns ==> (node, y) in Undirected(edges) && y in Endpoints(edges)
  {
    forall y | y in ns
      ensures (node, y) in Undirected(edges) && y in Endpoints(edges)
    {
      UndirectedMember(edges, node, y);
      NeighbourIsEndpoint(edges, node, y);
    }
  }

  /** Once all of a node's neighbours are visited, the node counts as
   *  expanded. */
  lemma ExpandedGrows<T(!new)>(edges: Edges<T>, done: set<T>, node: T, visited: set<T>, ns: seq<T>)
    requires Expanded(Undirected(edges), done, visited)
    requires forall y :: y in ns <==> (node, y) in edges || (y, node) in edges
    requires forall y :: y in ns ==> y in visited
    ensures Expanded(Undirected(edges), done + {node}, visited)
  {
    forall d, y | d in done + {node} && (d, y) in Undirected(edges)
      ensures y in visited
    {
      if d == node {
        UndirectedMember(edges, node, y);
      }
    }
  }

  /** What holds between two turns of the search loop: the bounds of the
   *  sets it keeps, and the order of the walks it queues. */
  ghost predicate Searching<T(!new)>(edges: Edges<T>, source: T, target: T, universe: set<T>,
                                    queue: seq<seq<T>>, lasts: seq<T>, visited: set<T>, done: set<T>,
                                    level: nat, short: nat, dist: map<T, nat>) {
    Bounded(edges, source, target, universe, queue, visited, done) &&
    Ordered(Undirected(edges), source, queue, lasts, visited, done, level, short, dist)
  }

  /** Every node seen is an edge endpoint or the source; the target has not
   *  been expanded; and a search from the target to itself starts out
   *  with the one-node walk. */
  ghost predicate Bounded<T(!new)>(edges: Edges<T>, source: T, target: T, universe: set<T>,
                                  queue: seq<seq<T>>, visited: set<T>, done: set<T>) {
    universe == Endpoints(edges) + {source} &&
    source in visited && visited <= universe && target !in done &&
    (source == target ==> queue == [[source]] && done == {})
  }

  /** The queue holds walks from the source in order of length, each node
   *  seen has its shortest distance recorded, and every expanded node has
   *  all its neighbours seen. */
  ghost predicate Ordered<T(!new)>(E: set<(T, T)>, source: T, queue: seq<seq<T>>, lasts: seq<T>,
                                  visited: set<T>, done: set<T>, level: nat, short: nat, dist: map<T, nat>) {
    QueueOk(E, source, queue, lasts) && Frontier(visited, done, lasts) &&
    Expanded(E, done, visited) &&
    1 <= level && Layered(queue, level, short) && Covered(E, source, level, visited) &&
    Distances(E, source, visited, dist, queue, lasts)
  }

  /** What holds once `path`, ending at `node` other than the target, has
   *  been taken off the queue. */
  ghost predicate Popped<T(!new)>(edges: Edges<T>, source: T, target: T, universe: set<T>, path: seq<T>, node: T,
                                 queue: seq<seq<T>>, lasts: seq<T>, visited: set<T>, done: set<T>,
                                 level: nat, short: nat, dist: map<T, nat>) {
    var E := Undirected(edges);
    universe == Endpoints(edges) + {source} && source != target &&
    QueueOk(E, source, queue, lasts) && Frontier(visited, done + {node}, lasts) &&
    Expanded(E, done, visited) &&
    source in visited && visited <= universe && target !in done && node != target &&
    IsWalk(E, path) && path[0] == source && path[|path| - 1] == node &&
    |path| == level && 1 <= level && Layered(queue, level, short) && Covered(E, source, level, visited) &&
    Distances(E, source, visited, dist, queue, lasts)
  }

  /** The layer the head of the queue belongs to. */
  function NextLevel(level: nat, short: nat): nat {
    if short == 0 then level + 1 else level
  }

  /** How many walks of that layer are queued. */
  function NextShort<T>(queue: seq<seq<T>>, short: nat): nat {
    if short == 0 then |queue| else short
  }

  /** Taking the head off the queue: it is a walk from the source to its
   *  last node, a shortest one; and unless it ends at the target, what is
   *  left is ready for expanding that node. */
  lemma PopStep<T(!new)>(edges: Edges<T>, source: T, target: T, universe: set<T>,
                        queue: seq<seq<T>>, lasts: seq<T>, visited: set<T>, done: set<T>,
                        level: nat, short: nat, dist: map<T, nat>)
    requires Searching(edges, source, target, universe, queue, lasts, visited, done, level, short, dist) && queue != []
    ensures 1 <= NextShort(queue, short)
    ensures IsWalk(Undirected(edges), queue[0]) && queue[0][0] == source && queue[0][|queue[0]| - 1] == lasts[0]
    ensures Reaches(Undirected(edges), source, lasts[0])
    ensures lasts[0] == target ==> Shortest(Undirected(edges), source, target, queue[0])
    ensures source == target ==> queue[0] == [source]
    ensures lasts[0] != target ==>
              Popped(edges, source, target, universe, queue[0], lasts[0], queue[1..], lasts[1..], visited, done,
                     NextLevel(level, short), NextShort(queue, short) - 1, dist)
  {
    var E := Undirected(edges);
    var level', short' := NextLevel(level, short), NextShort(queue, short);
    if short == 0 {
      NextLayer(E, source, level, visited, done, dist, queue, lasts);
    }
    assert IsWalk(E, queue[0]) && queue[0][0] == source && queue[0][|queue[0]| - 1] == lasts[0];
    assert NoShorter(E, source, lasts[0], |queue[0]|);
    PopKeeps(E, source, level', short', visited, dist, queue, lasts);
    if lasts[0] == target {
      ShortestFromDistance(E, source, target, queue[0]);
    }
  }

  /** Expands the node at the end of a dequeued path: queues a one-step
   *  extension for each neighbour not yet visited, and counts the node as
   *  expanded. */
  method Expand<T(==, !new)>(edges: Edges<T>, ghost universe: set<T>, ghost done: set<T>, source: T, target: T,
                 path: seq<T>, ghost node: T, ns: seq<T>, queue: seq<seq<T>>, visited: set<T>, ghost lasts: seq<T>,
                 ghost level: nat, ghost short: nat, ghost dist: map<T, nat>)
    returns (queue': seq<seq<T>>, visited': set<T>, ghost lasts': seq<T>, ghost done': set<T>, ghost dist': map<T, nat>)
    requires Popped(edges, source, target, universe, path, node, queue, lasts, visited, done, level, short, dist)
    requires forall y :: y in ns <==> (node, y) in edges || (y, node) in edges
    ensures Searching(edges, source, target, universe, queue', lasts', visited', done', level, short, dist')
    ensures |universe - visited'| + |queue'| <= |universe - visited| + |queue|
  {
    ghost var E := Undirected(edges);
    done' := done + {node};
    NeighboursAdjacent(edges, node, ns);
    queue', visited', lasts', dist' := Enqueue(E, universe, done', source, path, ns, queue, visited, lasts, level, short, dist);
    ExpandedGrows(edges, done, node, visited', ns);
  }

  /** One turn of the search loop: dequeue a path; stop with it when it
   *  ends at the target, stop with the error of reading its last node's
   *  neighbours, or else expand that node. */
  method Turn<T(==, !new)>(edges: Edges<T>, neighbours: T -> Result<seq<T>>, source: T, target: T,
                 ghost universe: set<T>, queue: seq<seq<T>>, ghost lasts: seq<T>, visited: set<T>, ghost done: set<T>,
                 ghost level: nat, ghost short: nat, ghost dist: map<T, nat>)
    returns (stop: Option<Result<seq<T>>>, queue': seq<seq<T>>, ghost lasts': seq<T>, visited': set<T>,
             ghost done': set<T>, ghost level': nat, ghost short': nat, ghost dist': map<T, nat>)
    requires forall x :: neighbours(x).Ok? ==> forall y :: y in neighbours(x).value <==> (x, y) in edges || (y, x) in edges
    requires Searching(edges, source, target, universe, queue, lasts, visited, done, level, short, dist) && queue != []
    ensures stop.None? ==> Searching(edges, source, target, universe, queue', lasts', visited', done', level', short', dist')
    ensures stop.None? ==> |universe - visited'| + |queue'| < |universe - visited| + |queue|
    ensures stop.Some? ==> Answers(edges, neighbours, source, target, stop.value)
    ensures source == target ==> stop.Some?
  {
    PopStep(edges, source, target, universe, queue, lasts, visited, done, level, short, dist);
    level', short' := NextLevel(level, short), NextShort(queue, short) - 1;
    var path := queue[0];
    if path[|path| - 1] == target {
      assert Reaches(Undirected(edges), source, target);
      return Some(Ok(path)), queue, lasts, visited, done, level', short', dist;
    }
    ghost var node := lasts[0];
    var ns := neighbours(path[|path| - 1]);
    if ns.Err? {
      assert Reaches(Undirected(edges), source, node) && neighbours(node) == Err(ns.error);
      assert source != target;
      return Some(Err(ns.error)), queue, lasts, visited, done, level', short', dist;
    }
    stop := None;
    queue', visited', lasts', done', dist' := Expand(edges, universe, done, source, target, path, node, ns.value,
                                                   queue[1..], visited, lasts[1..], level', short', dist);
  }

  /** The search loop's invariant holds at the start. */
  lemma SearchStarts<T(!new)>(edges: Edges<T>, source: T, target: T)
    ensures Searching(edges, source, target, Endpoints(edges) + {source}, [[source]], [source], {source}, {},
                      1, 1, map[source := 1])
  {
    assert IsWalk(Undirected(edges), [source]);
    assert Covered(Undirected(edges), source, 1, {source});
  }

  /** When the queue runs dry, the target was never the source and cannot
   *  be reached, so ValueError is the right answer. */
  lemma SearchEnds<T(!new)>(edges: Edges<T>, neighbours: T -> Result<seq<T>>, source: T, target: T,
                           universe: set<T>, lasts: seq<T>, visited: set<T>, done: set<T>,
                           level: nat, short: nat, dist: map<T, nat>)
    requires Searching(edges, source, target, universe, [], lasts, visited, done, level, short, dist)
    ensures source != target && !Reaches(Undirected(edges), source, target)
    ensures Answers(edges, neighbours, source, target, Err(ValueError))
  {
    Exhausted(Undirected(edges), done, source, target);
  }

  /** What `find_path`'s search promises of its answer `r`: a found path is
   *  a shortest walk from the source to the target; a node is its own
   *  path; an error is ValueError or one raised for a node the search
   *  reached; and when no reachable node raises, a path is found exactly
   *  when the target can be reached. */
  ghost predicate Answers<T(!new)>(edges: Edges<T>, neighbours: T -> Result<seq<T>>, source: T, target: T,
                                  r: Result<seq<T>>) {
    var E := Undirected(edges);
    (r.Ok? ==> IsWalk(E, r.value) && r.value[0] == source && r.value[|r.value| - 1] == target) &&
    (r.Ok? ==> Shortest(E, source, target, r.value)) &&
    (source == target ==> r == Ok([source])) &&
    (r.Err? ==> r.error == ValueError || exists x :: Reaches(E, source, x) && neighbours(x) == Err(r.error)) &&
    ((forall x :: Reaches(E, source, x) ==> neighbours(x).Ok?) ==> (r.Ok? <==> Reaches(E, source, target)))
  }

  /** The BFS of `find_path`, once the source and the target have been
   *  checked. `neighbours` gives the related nodes of a node, or the error
   *  that asking for them raises. A found path is a walk from the source to
   *  the target, and no walk between them is shorter; an error is
   *  ValueError (no path) or one raised for a node the search reached; and when no reachable node raises, the search
   *  fails exactly when the target cannot be reached. */
  method Search<T(==, !new)>(edges: Edges<T>, neighbours: T -> Result<seq<T>>, source: T, target: T)
    returns (r: Result<seq<T>>)
    requires forall x :: neighbours(x).Ok? ==> forall y :: y in neighbours(x).value <==> (x, y) in edges || (y, x) in edges
    ensures r.Ok? ==> IsWalk(Undirected(edges), r.value) && r.value[0] == source && r.value[|r.value| - 1] == target
    ensures r.Ok? ==> Shortest(Undirected(edges), source, target, r.value)
    ensures source == target ==> r == Ok([source])
    ensures r.Err? ==> r.error == ValueError || exists x :: Reaches(Undirected(edges), source, x) && neighbours(x) == Err(r.error)
    ensures (forall x :: Reaches(Undirected(edges), source, x) ==> neighbours(x).Ok?) ==>
              (r.Ok? <==> Reaches(Undirected(edges), source, target))
  {
    ghost var universe := Endpoints(edges) + {source};
    var queue: seq<seq<T>> := [[source]];
    var visited := {source};
    ghost var lasts := [source];
    ghost var done: set<T> := {};
    ghost var level: nat := 1;
    ghost var short: nat := 1;
    ghost var dist: map<T, nat> := map[source := 1];
    SearchStarts(edges, source, target);
    while queue != []
      invariant Searching(edges, source, target, universe, queue, lasts, visited, done, level, short, dist)
      decreases |universe - visited| + |queue|
    {
      var stop;
      stop, queue, lasts, visited, done, level, short, dist :=
        Turn(edges, neighbours, source, target, universe, queue, lasts, visited, done, level, short, dist);
      if stop.Some? {
        return stop.value;
      }
    }
    SearchEnds(edges, neighbours, source, target, universe, lasts, visited, done, level, short, dist);
    return Err(ValueError);
  }
}
