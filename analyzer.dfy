/** `KnowledgeGraphAnalyzer`: queries over the node and edge lists of a
 *  `GraphBuilder` (its `graph["nodes"]` and `graph["edges"]`). Node and
 *  edge dicts are read with `[]`, so a missing field raises KeyError at the
 *  point the scan reaches it. */
module KnowledgeGraphAnalysis {
  import opened Wrappers
  import opened PyValue
  import opened Digraph
  import opened KnowledgeGraphBuilder
  import GraphSearch

  predicate NoRepeats(s: seq<Value>) {
    forall i, j :: 0 <= i < j < |s| ==> s[i] != s[j]
  }

  /** `any(node["id"] == x for node in nodes)`: the scan stops at the first
   *  match, so only a node before it that lacks "id" raises KeyError. */
  function Listed(nodes: seq<Fields>, x: Value): (r: Result<bool>)
    ensures r == Ok(true) ==> exists i :: 0 <= i < |nodes| && VStr("id") in nodes[i] && nodes[i][VStr("id")] == x
    ensures r == Ok(false) ==> forall i :: 0 <= i < |nodes| ==> VStr("id") in nodes[i] && nodes[i][VStr("id")] != x
    ensures r.Err? ==> r.error == KeyError && exists i :: 0 <= i < |nodes| && VStr("id") !in nodes[i]
    ensures (forall i :: 0 <= i < |nodes| ==> VStr("id") in nodes[i]) ==> r.Ok?
  {
    if nodes == [] then Ok(false)
    else
      match Index(nodes[0], "id")
      case Err(e) => Err(e)
      case Ok(v) =>
        if v == x then Ok(true)
        else
          var rest := Listed(nodes[1..], x);
          assert forall i :: 1 <= i < |nodes| ==> nodes[i] == nodes[1..][i - 1];
          rest
  }

  /** The IDs of the nodes that have one. */
  ghost function NodeIds(nodes: seq<Fields>): set<Value> {
    set i | 0 <= i < |nodes| && VStr("id") in nodes[i] :: nodes[i][VStr("id")]
  }

  /** The (source, target) pair of every edge, or the KeyError of the first
   *  edge lacking one of them. */
  function Pairs(edges: seq<Fields>): (r: Result<seq<(Value, Value)>>)
    ensures r.Ok? <==> forall i :: 0 <= i < |edges| ==> VStr("source") in edges[i] && VStr("target") in edges[i]
    ensures r.Ok? ==> (|r.value| == |edges| &&
              forall i :: 0 <= i < |edges| ==> r.value[i] == (edges[i][VStr("source")], edges[i][VStr("target")]))
    ensures r.Err? ==> r.error == KeyError
  {
    if edges == [] then Ok([])
    else
      var n := |edges| - 1;
      assert forall i :: 0 <= i < n ==> edges[..n][i] == edges[i];
      var prev :- Pairs(edges[..n]);
      var s :- Index(edges[n], "source");
      var t :- Index(edges[n], "target");
      Ok(prev + [(s, t)])
  }

  /** The pairs, or no edges when some edge lacks an endpoint. */
  function EdgePairs(edges: seq<Fields>): GraphSearch.Edges<Value> {
    if Pairs(edges).Ok? then Pairs(edges).value else []
  }

  lemma PairsIn(edges: seq<Fields>, a: Value, b: Value)
    requires Pairs(edges).Ok?
    ensures (a, b) in Pairs(edges).value <==>
              exists i :: 0 <= i < |edges| && edges[i][VStr("source")] == a && edges[i][VStr("target")] == b
  {
    var ps := Pairs(edges).value;
    if (a, b) in ps {
      var i :| 0 <= i < |ps| && ps[i] == (a, b);
      assert edges[i][VStr("source")] == a && edges[i][VStr("target")] == b;
    }
    if exists i :: 0 <= i < |edges| && edges[i][VStr("source")] == a && edges[i][VStr("target")] == b {
      var i :| 0 <= i < |edges| && edges[i][VStr("source")] == a && edges[i][VStr("target")] == b;
      assert ps[i] == (a, b);
    }
  }

  /** One edge of the neighbour loop: its target joins the neighbours when
   *  its source is `id`, else its source when its target is. */
  function AddNeighbour(prev: seq<Value>, s: Value, t: Value, id: Value): (r: Result<seq<Value>>)
    ensures r.Ok? ==> forall y :: y in r.value <==> y in prev || (s == id && y == t) || (t == id && y == s)
    ensures r.Ok? && NoRepeats(prev) ==> NoRepeats(r.value)
    ensures r.Err? ==> r.error == TypeError
    ensures Hashable(s) && Hashable(t) ==> r.Ok?
  {
    if s == id then
      if !Hashable(t) then Err(TypeError)
      else Ok(if t in prev then prev else prev + [t])
    else if t == id then
      if !Hashable(s) then Err(TypeError)
      else Ok(if s in prev then prev else prev + [s])
    else Ok(prev)
  }

  /** The neighbour list of `get_node_neighbors`, in the order its members
   *  were first added, or the error of the first edge that raises. */
  function NeighbourScan(edges: seq<Fields>, id: Value): Result<seq<Value>> {
    if edges == [] then Ok([])
    else
      var prev :- NeighbourScan(edges[..|edges| - 1], id);
      var s :- Index(edges[|edges| - 1], "source");
      var t :- Index(edges[|edges| - 1], "target");
      AddNeighbour(prev, s, t, id)
  }

  /** The neighbours hold no repeats and are exactly the nodes joined to
   *  `id` by an edge in either direction; only a missing field (KeyError)
   *  or an unhashable neighbour (TypeError) raises. */
  lemma {:induction false} NeighbourScanMeans(edges: seq<Fields>, id: Value)
    ensures var r := NeighbourScan(edges, id);
            r.Ok? ==> (Pairs(edges).Ok? && NoRepeats(r.value) &&
              forall y :: y in r.value <==> (id, y) in Pairs(edges).value || (y, id) in Pairs(edges).value)
    ensures NeighbourScan(edges, id).Err? ==> NeighbourScan(edges, id).error in {KeyError, TypeError}
    ensures Pairs(edges).Ok? && (forall e :: e in Pairs(edges).value ==> Hashable(e.0) && Hashable(e.1)) ==>
              NeighbourScan(edges, id).Ok?
  {
    if edges != [] {
      var n := |edges| - 1;
      var e := edges[n];
      assert edges[..n] + [e] == edges;
      NeighbourScanMeans(edges[..n], id);
      if Pairs(edges).Ok? {
        assert Pairs(edges).value == Pairs(edges[..n]).value + [(e[VStr("source")], e[VStr("target")])];
      }
    }
  }

  /** An error raised by an edge stops the scan. */
  lemma {:induction false} NeighbourScanStops(edges: seq<Fields>, i: nat, id: Value)
    requires i <= |edges| && NeighbourScan(edges[..i], id).Err?
    ensures NeighbourScan(edges, id) == NeighbourScan(edges[..i], id)
    decreases |edges| - i
  {
    if i < |edges| {
      assert edges[..i + 1][..i] == edges[..i];
      NeighbourScanStops(edges, i + 1, id);
    } else {
      assert edges[..i] == edges;
    }
  }

  /** The number of edges at `id`: those whose source is `id` or, failing
   *  that, whose target is. */
  ghost function Incidence(edges: seq<Fields>, id: Value): set<int> {
    set i | 0 <= i < |edges| && Incident(edges[i], id) == Ok(true)
  }

  lemma IncidenceSnoc(edges: seq<Fields>, id: Value)
    requires edges != []
    ensures var n := |edges| - 1;
            Incidence(edges, id) == Incidence(edges[..n], id) + (if Incident(edges[n], id) == Ok(true) then {n} else {}) &&
            n !in Incidence(edges[..n], id)
  {
    var n := |edges| - 1;
    assert forall i :: 0 <= i < n ==> edges[..n][i] == edges[i];
  }

  /** The loop of `get_node_degree`: the count of edges at `id`, or the
   *  KeyError of the first edge lacking a field it reads. */
  function DegreeScan(edges: seq<Fields>, id: Value): Result<nat> {
    if edges == [] then Ok(0)
    else
      var prev :- DegreeScan(edges[..|edges| - 1], id);
      var hit :- Incident(edges[|edges| - 1], id);
      Ok(if hit then prev + 1 else prev)
  }

  lemma {:induction false} DegreeScanStops(edges: seq<Fields>, i: nat, id: Value)
    requires i <= |edges| && DegreeScan(edges[..i], id).Err?
    ensures DegreeScan(edges, id) == DegreeScan(edges[..i], id)
    decreases |edges| - i
  {
    if i < |edges| {
      assert edges[..i + 1][..i] == edges[..i];
      DegreeScanStops(edges, i + 1, id);
    } else {
      assert edges[..i] == edges;
    }
  }

  /** The degree is the number of edges at `id`; it raises (KeyError)
   *  exactly when some edge lacks a field the test reads. */
  lemma {:induction false} DegreeScanMeans(edges: seq<Fields>, id: Value)
    ensures DegreeScan(edges, id).Ok? ==> DegreeScan(edges, id).value == |Incidence(edges, id)|
    ensures DegreeScan(edges, id).Ok? <==> forall i :: 0 <= i < |edges| ==> Incident(edges[i], id).Ok?
    ensures DegreeScan(edges, id).Err? ==> DegreeScan(edges, id).error == KeyError
  {
    if edges != [] {
      var n := |edges| - 1;
      assert forall i :: 0 <= i < n ==> edges[..n][i] == edges[i];
      IncidenceSnoc(edges, id);
      DegreeScanMeans(edges[..n], id);
    }
  }

  /** `get_node_neighbors`: ValueError for a node not in the list. The
   *  neighbours are listed in the order the scan first meets them, one of
   *  the orders `list(set)` may give. */
  function NeighboursOf(nodes: seq<Fields>, edges: seq<Fields>, x: Value): Result<seq<Value>> {
    var known :- Listed(nodes, x);
    if !known then Err(ValueError) else NeighbourScan(edges, x)
  }

  /** `get_node_degree`: ValueError for a node not in the list. */
  function DegreeOf(nodes: seq<Fields>, edges: seq<Fields>, x: Value): Result<nat> {
    var known :- Listed(nodes, x);
    if !known then Err(ValueError) else DegreeScan(edges, x)
  }

  /** Every node has a hashable ID and every edge joins two of them: what
   *  `GraphBuilder.add_node` and `add_edge` ensure of what they store. */
  ghost predicate WellFormed(nodes: seq<Fields>, edges: seq<Fields>) {
    (forall i :: 0 <= i < |nodes| ==> VStr("id") in nodes[i] && Hashable(nodes[i][VStr("id")])) &&
    Pairs(edges).Ok? && GraphSearch.EndpointsIn(Pairs(edges).value, NodeIds(nodes))
  }

  /** In a well-formed graph a node is listed exactly when it is one of the
   *  IDs, and the neighbours of a listed node can be read. */
  lemma WellFormedNeighbours(nodes: seq<Fields>, edges: seq<Fields>, x: Value)
    requires WellFormed(nodes, edges)
    ensures Listed(nodes, x) == Ok(x in NodeIds(nodes))
    ensures x in NodeIds(nodes) ==> NeighboursOf(nodes, edges, x).Ok? && DegreeOf(nodes, edges, x).Ok?
  {
    var listed := Listed(nodes, x);
    assert listed.Ok?;
    if x in NodeIds(nodes) {
      var i :| 0 <= i < |nodes| && VStr("id") in nodes[i] && nodes[i][VStr("id")] == x;
      assert listed != Ok(false);
    }
    if listed.value {
      var i :| 0 <= i < |nodes| && VStr("id") in nodes[i] && nodes[i][VStr("id")] == x;
      assert nodes[i][VStr("id")] in NodeIds(nodes);
    }
    forall e | e in Pairs(edges).value
      ensures Hashable(e.0) && Hashable(e.1)
    {
      var i :| 0 <= i < |nodes| && VStr("id") in nodes[i] && nodes[i][VStr("id")] == e.0;
      var j :| 0 <= j < |nodes| && VStr("id") in nodes[j] && nodes[j][VStr("id")] == e.1;
    }
    forall i | 0 <= i < |edges|
      ensures Incident(edges[i], x).Ok?
    {
    }
    NeighbourScanMeans(edges, x);
    DegreeScanMeans(edges, x);
  }

  /** The neighbour lists a search reads agree with the edge pairs. */
  lemma NeighboursMatch(nodes: seq<Fields>, edges: seq<Fields>)
    ensures forall x :: NeighboursOf(nodes, edges, x).Err? ==> NeighboursOf(nodes, edges, x).error in {KeyError, ValueError, TypeError}
    ensures forall x :: NeighboursOf(nodes, edges, x).Ok? ==>
              forall y :: y in NeighboursOf(nodes, edges, x).value <==> (x, y) in EdgePairs(edges) || (y, x) in EdgePairs(edges)
  {
    forall x | NeighboursOf(nodes, edges, x).Ok?
      ensures forall y :: y in NeighboursOf(nodes, edges, x).value <==> (x, y) in EdgePairs(edges) || (y, x) in EdgePairs(edges)
    {
      NeighbourScanMeans(edges, x);
    }
    forall x | NeighboursOf(nodes, edges, x).Err?
      ensures NeighboursOf(nodes, edges, x).error in {KeyError, ValueError, TypeError}
    {
      NeighbourScanMeans(edges, x);
    }
  }

  /** The degree of a node with no missing fields counts the edge pairs
   *  that touch it. */
  lemma DegreeCountsPairs(edges: seq<Fields>, id: Value)
    requires Pairs(edges).Ok?
    ensures DegreeScan(edges, id).Ok?
    ensures DegreeScan(edges, id).value ==
              |set i | 0 <= i < |edges| && (Pairs(edges).value[i].0 == id || Pairs(edges).value[i].1 == id)|
  {
    var ps := Pairs(edges).value;
    DegreeScanMeans(edges, id);
    forall i | 0 <= i < |edges|
      ensures Incident(edges[i], id) == Ok(ps[i].0 == id || ps[i].1 == id)
    {
    }
    assert Incidence(edges, id) == set i | 0 <= i < |edges| && (ps[i].0 == id || ps[i].1 == id);
  }

  /** The loop of `get_node_neighbors`, one edge at a time. */
  method Neighbours(nodes: seq<Fields>, edges: seq<Fields>, id: Value) returns (r: Result<seq<Value>>)
    ensures r == NeighboursOf(nodes, edges, id)
  {
    var known := Listed(nodes, id);
    if known.Err? {
      return Err(known.error);
    }
    if !known.value {
      return Err(ValueError);
    }
    var neighbours: seq<Value> := [];
    for i := 0 to |edges|
      invariant NeighbourScan(edges[..i], id) == Ok(neighbours)
    {
      var e := edges[i];
      assert edges[..i + 1][..i] == edges[..i] && edges[..i + 1][i] == e;
      if VStr("source") !in e {
        NeighbourScanStops(edges, i + 1, id);
        return Err(KeyError);
      }
      var s := e[VStr("source")];
      if s == id {
        if VStr("target") !in e {
          NeighbourScanStops(edges, i + 1, id);
          return Err(KeyError);
        }
        var t := e[VStr("target")];
        if !Hashable(t) {
          NeighbourScanStops(edges, i + 1, id);
          return Err(TypeError);
        }
        assert AddNeighbour(neighbours, s, t, id) == Ok(if t in neighbours then neighbours else neighbours + [t]);
        if t !in neighbours {
          neighbours := neighbours + [t];
        }
      } else {
        if VStr("target") !in e {
          NeighbourScanStops(edges, i + 1, id);
          return Err(KeyError);
        }
        var t := e[VStr("target")];
        if t == id {
          if !Hashable(s) {
            NeighbourScanStops(edges, i + 1, id);
            return Err(TypeError);
          }
          if s !in neighbours {
            neighbours := neighbours + [s];
          }
        }
      }
    }
    assert edges[..|edges|] == edges;
    return Ok(neighbours);
  }

  /** The loop of `get_node_degree`: an edge counts when its source or,
   *  failing that, its target is the node. */
  method Degree(nodes: seq<Fields>, edges: seq<Fields>, id: Value) returns (r: Result<nat>)
    ensures r == DegreeOf(nodes, edges, id)
  {
    var known := Listed(nodes, id);
    if known.Err? {
      return Err(known.error);
    }
    if !known.value {
      return Err(ValueError);
    }
    var degree: nat := 0;
    for i := 0 to |edges|
      invariant DegreeScan(edges[..i], id) == Ok(degree)
    {
      assert edges[..i + 1][..i] == edges[..i] && edges[..i + 1][i] == edges[i];
      var hit := Incident(edges[i], id);
      if hit.Err? {
        DegreeScanStops(edges, i + 1, id);
        return Err(KeyError);
      }
      if hit.value {
        degree := degree + 1;
      }
    }
    assert edges[..|edges|] == edges;
    return Ok(degree);
  }

  /** What `find_path` promises: an unlisted end raises (the source is
   *  checked first); an unhashable source raises TypeError when it is put
   *  into the `visited` set; a path found is a walk along the edges from the
   *  source to the target; a hashable node is its own path; errors are those
   *  of the checks, of reading neighbours or of no path; a path found is a shortest
   *  one, as the breadth-first search promises; and in a well-formed
   *  graph a path is found exactly when the target can be reached. */
  ghost predicate PathMeets(nodes: seq<Fields>, edges: seq<Fields>, source: Value, target: Value, r: Result<seq<Value>>) {
    (Listed(nodes, source) != Ok(true) ==> r == Err(if Listed(nodes, source).Err? then KeyError else ValueError)) &&
    (Listed(nodes, source) == Ok(true) && Listed(nodes, target) != Ok(true) ==>
       r == Err(if Listed(nodes, target).Err? then KeyError else ValueError)) &&
    (r.Ok? ==> IsWalk(Undirected(EdgePairs(edges)), r.value) && r.value[0] == source && r.value[|r.value| - 1] == target) &&
    (r.Ok? ==> GraphSearch.Shortest(Undirected(EdgePairs(edges)), source, target, r.value)) &&
    (Listed(nodes, source) == Ok(true) && Listed(nodes, target) == Ok(true) && !Hashable(source) ==> r == Err(TypeError)) &&
    (Listed(nodes, source) == Ok(true) && Hashable(source) && source == target ==> r == Ok([source])) &&
    (r.Err? ==> r.error in {KeyError, ValueError, TypeError}) &&
    (WellFormed(nodes, edges) ==>
       (r.Ok? <==> source in NodeIds(nodes) && target in NodeIds(nodes) && Reaches(Undirected(EdgePairs(edges)), source, target)))
  }

  /** A node whose "id" is a list is listed, but `find_path` on it raises
   *  TypeError at `visited = {source_id}` instead of returning `[source]`. */
  lemma UnhashableSourceRaises(r: Result<seq<Value>>)
    requires PathMeets([map[VStr("id") := VList([])]], [], VList([]), VList([]), r)
    ensures r == Err(TypeError)
  {
    var nodes: seq<Fields> := [map[VStr("id") := VList([])]];
    assert Index(nodes[0], "id") == Ok(VList([]));
    assert Listed(nodes, VList([])) == Ok(true);
  }

  /** `find_path`: both ends must be listed; then the breadth-first search
   *  over the neighbour lists. */
  method Path(nodes: seq<Fields>, edges: seq<Fields>, source: Value, target: Value) returns (r: Result<seq<Value>>)
    ensures PathMeets(nodes, edges, source, target, r)
  {
    var hasSource := Listed(nodes, source);
    if hasSource.Err? {
      return Err(KeyError);
    }
    if !hasSource.value {
      return Err(ValueError);
    }
    var hasTarget := Listed(nodes, target);
    if hasTarget.Err? {
      return Err(KeyError);
    }
    if !hasTarget.value {
      return Err(ValueError);
    }
    if !Hashable(source) {
      if WellFormed(nodes, edges) {
        WellFormedNeighbours(nodes, edges, source);
      }
      return Err(TypeError);
    }
    var pairs := EdgePairs(edges);
    NeighboursMatch(nodes, edges);
    r := GraphSearch.Search(pairs, x => NeighboursOf(nodes, edges, x), source, target);
    if WellFormed(nodes, edges) {
      WellFormedNeighbours(nodes, edges, source);
      WellFormedNeighbours(nodes, edges, target);
      forall x | Reaches(Undirected(pairs), source, x)
        ensures NeighboursOf(nodes, edges, x).Ok?
      {
        GraphSearch.ReachStaysIn(pairs, NodeIds(nodes), source, x);
        WellFormedNeighbours(nodes, edges, x);
      }
    }
  }

  /** What `get_centrality` promises: an unlisted node raises; with at most
   *  one node the centrality is 0; otherwise it is the degree over `n - 1`,
   *  and never negative. */
  ghost predicate CentralityMeets(nodes: seq<Fields>, edges: seq<Fields>, id: Value, r: Result<real>) {
    (Listed(nodes, id) != Ok(true) ==> r.Err? && r.error == (if Listed(nodes, id).Err? then KeyError else ValueError)) &&
    (Listed(nodes, id) == Ok(true) && |nodes| <= 1 ==> r == Ok(0.0)) &&
    (Listed(nodes, id) == Ok(true) && |nodes| > 1 ==>
       (r.Ok? <==> DegreeOf(nodes, edges, id).Ok?) &&
       (r.Err? ==> r.error == KeyError) &&
       (r.Ok? ==> r.value * (|nodes| - 1) as real == DegreeOf(nodes, edges, id).value as real)) &&
    (r.Ok? ==> r.value >= 0.0)
  }

  lemma RatioTimes(a: real, b: real)
    requires a >= 0.0 && b > 0.0
    ensures a / b >= 0.0 && (a / b) * b == a
  {
  }

  /** `get_centrality` as a value: the degree over `n - 1`. */
  function CentralityOf(nodes: seq<Fields>, edges: seq<Fields>, id: Value): Result<real> {
    match Listed(nodes, id)
    case Err(_) => Err(KeyError)
    case Ok(known) =>
      if !known then Err(ValueError)
      else if |nodes| <= 1 then Ok(0.0)
      else match DegreeOf(nodes, edges, id)
        case Err(e) => Err(e)
        case Ok(d) => Ok(d as real / (|nodes| - 1) as real)
  }

  lemma CentralityOfMeets(nodes: seq<Fields>, edges: seq<Fields>, id: Value)
    ensures CentralityMeets(nodes, edges, id, CentralityOf(nodes, edges, id))
  {
    DegreeScanMeans(edges, id);
    if Listed(nodes, id) == Ok(true) && |nodes| > 1 && DegreeOf(nodes, edges, id).Ok? {
      RatioTimes(DegreeOf(nodes, edges, id).value as real, (|nodes| - 1) as real);
    }
  }

  method Centrality(nodes: seq<Fields>, edges: seq<Fields>, id: Value) returns (r: Result<real>)
    ensures CentralityMeets(nodes, edges, id, r)
  {
    var known := Listed(nodes, id);
    if known.Err? {
      r := Err(KeyError);
    } else if !known.value {
      r := Err(ValueError);
    } else if |nodes| > 1 {
      var degree := Degree(nodes, edges, id);
      if degree.Err? {
        r := Err(degree.error);
      } else {
        r := Ok(degree.value as real / (|nodes| - 1) as real);
      }
    } else {
      r := Ok(0.0);
    }
    assert r == CentralityOf(nodes, edges, id);
    CentralityOfMeets(nodes, edges, id);
  }

  class KnowledgeGraphAnalyzer {
    const builder: GraphBuilder

    constructor (builder: GraphBuilder)
      ensures this.builder == builder
    {
      this.builder := builder;
    }

    /** `get_node_neighbors`: `list(set)` lists the neighbours in hash
     *  order, so only the members are promised, each once; the errors are
     *  those of the scan. */
    method GetNodeNeighbors(id: Value) returns (r: Result<seq<Value>>)
      ensures var N := NeighboursOf(FieldsOf(builder.nodeList), FieldsOf(builder.edgeList), id);
              (N.Err? ==> r == N) &&
              (N.Ok? ==>
                 r.Ok? && NoRepeats(r.value) &&
                 forall y :: y in r.value <==>
                   (id, y) in EdgePairs(FieldsOf(builder.edgeList)) || (y, id) in EdgePairs(FieldsOf(builder.edgeList)))
    {
      var nodes, edges := FieldsOf(builder.nodeList), FieldsOf(builder.edgeList);
      r := Neighbours(nodes, edges, id);
      NeighboursMatch(nodes, edges);
      NeighbourScanMeans(edges, id);
    }

    method GetNodeDegree(id: Value) returns (r: Result<nat>)
      ensures r == DegreeOf(FieldsOf(builder.nodeList), FieldsOf(builder.edgeList), id)
    {
      r := Degree(FieldsOf(builder.nodeList), FieldsOf(builder.edgeList), id);
    }

    method FindPath(source: Value, target: Value) returns (r: Result<seq<Value>>)
      ensures PathMeets(FieldsOf(builder.nodeList), FieldsOf(builder.edgeList), source, target, r)
    {
      var nodes, edges := FieldsOf(builder.nodeList), FieldsOf(builder.edgeList);
      r := Path(nodes, edges, source, target);
    }
    method GetCentrality(id: Value) returns (r: Result<real>)
      ensures CentralityMeets(FieldsOf(builder.nodeList), FieldsOf(builder.edgeList), id, r)
    {
      r := Centrality(FieldsOf(builder.nodeList), FieldsOf(builder.edgeList), id);
    }

    /** `get_graph_density`: the edge count over the `n(n-1)/2` possible
     *  edges, and 0 with fewer than two nodes. */
    function GetGraphDensity(): (d: real)
      reads builder
      ensures var n := |builder.nodeList|;
              var m := |builder.edgeList|;
              d >= 0.0 &&
              (d == 0.0 <==> n < 2 || m == 0) &&
              (n >= 2 ==> d * (n * (n - 1)) as real == 2.0 * m as real) &&
              (n >= 2 && 2 * m <= n * (n - 1) ==> d <= 1.0)
    {
      var n := |builder.nodeList|;
      if n < 2 then 0.0
      else
        var maxEdges := (n * (n - 1)) as real / 2.0;
        assert n * (n - 1) >= 2 by {
          assert n - 1 >= 1;
        }
        |builder.edgeList| as real / maxEdges
    }
  }
}
