/** `GraphBuilder`: node and edge dicts kept twice, in the `nodes` and `edges`
 *  lookup dicts and in the `graph` lists. Both views hold the same dict
 *  objects, so a change made to a node or edge through one view shows in
 *  the other; removals only touch the lookup dicts. */
module KnowledgeGraphBuilder {
  import opened Wrappers
  import opened PyValue

  type Fields = map<Value, Value>

  /** A node or edge dict, shared by reference. */
  class Record {
    var fields: Fields

    constructor (fields: Fields)
      ensures this.fields == fields
    {
      this.fields := fields;
    }
  }

  /** The fields of each record, in order. */
  function FieldsOf(rs: seq<Record>): (fs: seq<Fields>)
    reads rs
    ensures |fs| == |rs| && forall i :: 0 <= i < |rs| ==> fs[i] == rs[i].fields
  {
    if rs == [] then [] else FieldsOf(rs[..|rs| - 1]) + [rs[|rs| - 1].fields]
  }

  const NodeTypes: set<Value> := {VStr("concept"), VStr("entity"), VStr("attribute")}
  const EdgeTypes: set<Value> := {VStr("includes"), VStr("uses"), VStr("related"), VStr("same_as"), VStr("subclass")}

  /** The checks of `add_node`: an empty dict, then a missing or invalid
   *  type, then a missing "id" or "name" raise ValueError; an unhashable
   *  type or ID raises TypeError. */
  function NodeCheck(node: Fields): Outcome {
    if node == map[] then Fail(ValueError)
    else
      var t := Get(node, "type", VNone);
      if !Hashable(t) then Fail(TypeError)
      else if t !in NodeTypes then Fail(ValueError)
      else if VStr("id") !in node || VStr("name") !in node then Fail(ValueError)
      else if !Hashable(node[VStr("id")]) then Fail(TypeError)
      else Pass
  }

  /** `edge[key] in valid`: KeyError for a missing key, TypeError for an
   *  unhashable value, ValueError for one outside `valid`. */
  function FieldIn(edge: Fields, key: string, valid: set<Value>): Outcome {
    match Index(edge, key)
    case Err(e) => Fail(e)
    case Ok(v) => if !Hashable(v) then Fail(TypeError) else if v !in valid then Fail(ValueError) else Pass
  }

  /** The checks of `add_edge`: an empty dict raises ValueError, then the
   *  type, the source and the target are checked in turn. */
  function EdgeCheck(edge: Fields, known: set<Value>): Outcome {
    if edge == map[] then Fail(ValueError)
    else
      var typeOk := FieldIn(edge, "type", EdgeTypes);
      if typeOk.Fail? then typeOk
      else
        var sourceOk := FieldIn(edge, "source", known);
        if sourceOk.Fail? then sourceOk
        else FieldIn(edge, "target", known)
  }

  /** `add_node` accepts exactly a dict with a valid type and a hashable
   *  "id" and a "name". */
  lemma NodeCheckMeans(node: Fields)
    ensures NodeCheck(node).Pass? <==>
              VStr("type") in node && node[VStr("type")] in NodeTypes &&
              VStr("id") in node && VStr("name") in node && Hashable(node[VStr("id")])
    ensures NodeCheck(node).Fail? ==> NodeCheck(node).error in {ValueError, TypeError}
  {
  }

  /** `add_edge` accepts exactly a dict with a valid type whose source and
   *  target are known nodes. */
  lemma EdgeCheckMeans(edge: Fields, known: set<Value>)
    ensures EdgeCheck(edge, known).Pass? <==>
              VStr("type") in edge && edge[VStr("type")] in EdgeTypes &&
              VStr("source") in edge && Hashable(edge[VStr("source")]) && edge[VStr("source")] in known &&
              VStr("target") in edge && Hashable(edge[VStr("target")]) && edge[VStr("target")] in known
  {
    if VStr("type") in edge {
      assert edge != map[];
    }
  }

  /** `edge["source"] == id or edge["target"] == id`, with the KeyError of
   *  a missing field; the target is only read when the source differs. */
  function Incident(edge: Fields, id: Value): Result<bool> {
    var s :- Index(edge, "source");
    if s == id then Ok(true)
    else
      var t :- Index(edge, "target");
      Ok(t == id)
  }

  /** Every edge in the lookup dict joins two known nodes. */
  predicate Linked(known: set<Value>, edges: map<string, Fields>) {
    forall k :: k in edges ==>
      VStr("source") in edges[k] && edges[k][VStr("source")] in known &&
      VStr("target") in edges[k] && edges[k][VStr("target")] in known
  }

  /** The edge IDs `remove_node` keeps, or the KeyError its scan raises. */
  function KeptEdges(edges: map<string, Fields>, id: Value): Result<set<string>> {
    if exists k :: k in edges && Incident(edges[k], id).Err? then Err(KeyError)
    else Ok(set k | k in edges && !Incident(edges[k], id).value)
  }

  /** The outcome of `remove_node`. */
  function RemoveNodeOutcome(known: set<Value>, edges: map<string, Fields>, id: Value): Outcome {
    if !Hashable(id) then Fail(TypeError)
    else if id !in known then Fail(ValueError)
    else if KeptEdges(edges, id).Err? then Fail(KeyError)
    else Pass
  }

  function Restrict<K, V>(m: map<K, V>, keep: set<K>): (r: map<K, V>)
    ensures r.Keys == m.Keys * keep && forall k :: k in r ==> r[k] == m[k]
  {
    map k | k in m && k in keep :: m[k]
  }

  /** With every edge linked, `remove_node` of a known node cannot raise; it
   *  keeps exactly the edges with neither end at the node, and the edges
   *  left stay linked to the nodes left. */
  lemma RemoveNodeCascades(known: set<Value>, edges: map<string, Fields>, id: Value)
    requires Linked(known, edges)
    ensures Hashable(id) && id in known ==> RemoveNodeOutcome(known, edges, id).Pass?
    ensures KeptEdges(edges, id).Ok?
    ensures forall k :: k in KeptEdges(edges, id).value <==>
              k in edges && edges[k][VStr("source")] != id && edges[k][VStr("target")] != id
    ensures Linked(known - {id}, Restrict(edges, KeptEdges(edges, id).value))
  {
  }

  /** `record["properties"].update(props)`: KeyError without properties,
   *  AttributeError when they are not a dict. */
  function UpdateProperties(fields: Fields, props: Fields): Result<Fields> {
    match Index(fields, "properties")
    case Err(e) => Err(e)
    case Ok(VDict(m)) => Ok(fields[VStr("properties") := VDict(m + props)])
    case Ok(_) => Err(AttributeError)
  }

  /** An update overrides the given properties, keeps the others and
   *  touches no other field. */
  lemma UpdatePropertiesMerges(fields: Fields, props: Fields)
    ensures var r := UpdateProperties(fields, props);
            r.Ok? ==> r.value.Keys == fields.Keys &&
                      (forall k :: k in fields && k != VStr("properties") ==> r.value[k] == fields[k]) &&
                      fields[VStr("properties")].VDict? &&
                      var old_ := fields[VStr("properties")].entries;
                      r.value[VStr("properties")] == VDict(old_ + props) &&
                      (forall k :: k in props ==> r.value[VStr("properties")].entries[k] == props[k]) &&
                      (forall k :: k in old_ && k !in props ==> r.value[VStr("properties")].entries[k] == old_[k])
    ensures UpdateProperties(fields, props).Err? <==>
              VStr("properties") !in fields || !fields[VStr("properties")].VDict?
  {
  }

  /** The scan of `remove_node` over the edge lookup dict: the IDs of the
   *  edges at `id`, or the KeyError of an edge missing an endpoint field. */
  method ScanIncident(edges: map<string, Fields>, id: Value) returns (r: Result<set<string>>)
    ensures r.Ok? <==> KeptEdges(edges, id).Ok?
    ensures r.Err? ==> r.error == KeyError
    ensures r.Ok? ==> r.value == edges.Keys - KeptEdges(edges, id).value
  {
    var doomed: set<string> := {};
    var pending := edges.Keys;
    while pending != {}
      invariant pending <= edges.Keys
      invariant forall k :: k in edges && k !in pending ==> Incident(edges[k], id).Ok?
      invariant doomed == set k | k in edges && k !in pending && Incident(edges[k], id).value
      decreases pending
    {
      var k :| k in pending;
      var hit := Incident(edges[k], id);
      if hit.Err? {
        return Err(KeyError);
      }
      if hit.value {
        doomed := doomed + {k};
      }
      pending := pending - {k};
    }
    return Ok(doomed);
  }

  /** `del m[k]` for each of `doomed`. */
  method DropKeys<K, V>(m: map<K, V>, doomed: set<K>) returns (r: map<K, V>)
    ensures r == Restrict(m, m.Keys - doomed)
  {
    r := m;
    var gone := doomed;
    while gone != {}
      invariant gone <= doomed
      invariant r == Restrict(m, m.Keys - (doomed - gone))
      decreases gone
    {
      var k :| k in gone;
      r := r - {k};
      gone := gone - {k};
    }
  }

  class GraphBuilder {
    /** `graph["nodes"]` and `graph["edges"]` */
    var nodeList: seq<Record>
    var edgeList: seq<Record>
    /** The lookup dicts */
    var nodes: map<Value, Record>
    var edges: map<string, Record>

    constructor ()
      ensures nodeList == [] && edgeList == [] && nodes == map[] && edges == map[]
    {
      nodeList := [];
      edgeList := [];
      nodes := map[];
      edges := map[];
    }

    /** The lookup dict of nodes, read through to the node dicts. */
    function NodeView(): (view: map<Value, Fields>)
      reads this, nodes.Values
      ensures view.Keys == nodes.Keys && forall k :: k in view ==> view[k] == nodes[k].fields
    {
      map k | k in nodes :: nodes[k].fields
    }

    /** The lookup dict of edges, read through to the edge dicts. */
    function EdgeView(): (view: map<string, Fields>)
      reads this, edges.Values
      ensures view.Keys == edges.Keys && forall k :: k in view ==> view[k] == edges[k].fields
    {
      map k | k in edges :: edges[k].fields
    }

    method AddNode(node: Record) returns (o: Outcome)
      modifies this
      ensures o == NodeCheck(node.fields)
      ensures o.Pass? ==> nodes == old(nodes)[node.fields[VStr("id")] := node] && nodeList == old(nodeList) + [node]
      ensures o.Fail? ==> nodes == old(nodes) && nodeList == old(nodeList)
      ensures edges == old(edges) && edgeList == old(edgeList)
    {
      var node_ := node.fields;
      if node_ == map[] {
        return Fail(ValueError);
      }
      var t := Get(node_, "type", VNone);
      if !Hashable(t) {
        return Fail(TypeError);
      }
      if t !in NodeTypes {
        return Fail(ValueError);
      }
      if VStr("id") !in node_ || VStr("name") !in node_ {
        return Fail(ValueError);
      }
      if !Hashable(node_[VStr("id")]) {
        return Fail(TypeError);
      }
      nodes := nodes[node_[VStr("id")] := node];
      nodeList := nodeList + [node];
      return Pass;
    }

    /** `add_edge`; `freshId` is the generated UUID, written into the
     *  caller's edge dict as its "id". */
    method AddEdge(edge: Record, freshId: string) returns (o: Outcome)
      modifies this, edge
      ensures o == EdgeCheck(old(edge.fields), nodes.Keys)
      ensures o.Pass? ==> edge.fields == old(edge.fields)[VStr("id") := VStr(freshId)] &&
                          edges == old(edges)[freshId := edge] && edgeList == old(edgeList) + [edge]
      ensures o.Fail? ==> edge.fields == old(edge.fields) && edges == old(edges) && edgeList == old(edgeList)
      ensures nodes == old(nodes) && nodeList == old(nodeList)
    {
      o := EdgeCheck(edge.fields, nodes.Keys);
      if o.Fail? {
        return;
      }
      edge.fields := edge.fields[VStr("id") := VStr(freshId)];
      edges := edges[freshId := edge];
      edgeList := edgeList + [edge];
    }

    /** `build_graph`: the lists are replaced by the given ones; the lookup
     *  dicts stay as they were. */
    method BuildGraph(ns: seq<Record>, es: seq<Record>) returns (graph: (seq<Record>, seq<Record>))
      modifies this
      ensures nodeList == ns && edgeList == es && graph == (ns, es)
      ensures nodes == old(nodes) && edges == old(edges)
    {
      nodeList, edgeList := ns, es;
      return (nodeList, edgeList);
    }

    function GetNode(id: Value): (r: Result<Record>)
      reads this
      ensures r.Ok? <==> Hashable(id) && id in nodes
      ensures r.Ok? ==> r.value == nodes[id]
      ensures !Hashable(id) ==> r == Err(TypeError)
      ensures Hashable(id) && id !in nodes ==> r == Err(ValueError)
    {
      if !Hashable(id) then Err(TypeError)
      else if id !in nodes then Err(ValueError)
      else Ok(nodes[id])
    }

    function GetEdge(id: string): (r: Result<Record>)
      reads this
      ensures r.Ok? <==> id in edges
      ensures r.Ok? ==> r.value == edges[id]
      ensures r.Err? ==> r.error == ValueError
    {
      if id !in edges then Err(ValueError) else Ok(edges[id])
    }

    /** `remove_node`: the IDs of the edges at the node are collected first
     *  (a missing endpoint field raises KeyError before anything goes),
     *  then those edges and the node leave the lookup dicts. */
    method RemoveNode(id: Value) returns (o: Outcome)
      modifies this
      ensures o == RemoveNodeOutcome(old(nodes).Keys, old(EdgeView()), id)
      ensures o.Pass? ==> nodes == old(nodes) - {id} && edges == Restrict(old(edges), KeptEdges(old(EdgeView()), id).value)
      ensures o.Fail? ==> nodes == old(nodes) && edges == old(edges)
      ensures nodeList == old(nodeList) && edgeList == old(edgeList)
    {
      if !Hashable(id) {
        return Fail(TypeError);
      }
      if id !in nodes {
        return Fail(ValueError);
      }
      var doomed := ScanIncident(EdgeView(), id);
      if doomed.Err? {
        return Fail(KeyError);
      }
      edges := DropKeys(edges, doomed.value);
      nodes := nodes - {id};
      return Pass;
    }

    method RemoveEdge(id: string) returns (o: Outcome)
      modifies this
      ensures id !in old(edges) ==> o == Fail(ValueError) && edges == old(edges)
      ensures id in old(edges) ==> o == Pass && edges == old(edges) - {id}
      ensures nodes == old(nodes) && nodeList == old(nodeList) && edgeList == old(edgeList)
    {
      if id !in edges {
        return Fail(ValueError);
      }
      edges := edges - {id};
      return Pass;
    }

    /** `update_node`: the node dict's properties are updated in place, so
     *  the change shows wherever that dict is held. */
    method UpdateNode(id: Value, props: Fields) returns (o: Outcome)
      modifies if Hashable(id) && id in nodes then {nodes[id]} else {}
      ensures !Hashable(id) ==> o == Fail(TypeError)
      ensures Hashable(id) && id !in nodes ==> o == Fail(ValueError)
      ensures Hashable(id) && id in nodes ==>
                var r := UpdateProperties(old(nodes[id].fields), props);
                (o.Pass? <==> r.Ok?) && (r.Err? ==> o == Fail(r.error) && nodes[id].fields == old(nodes[id].fields)) &&
                (r.Ok? ==> nodes[id].fields == r.value)
    {
      if !Hashable(id) {
        return Fail(TypeError);
      }
      if id !in nodes {
        return Fail(ValueError);
      }
      var node := nodes[id];
      var r := UpdateProperties(node.fields, props);
      if r.Err? {
        return Fail(r.error);
      }
      node.fields := r.value;
      return Pass;
    }

    /** `update_edge`, the same for an edge dict. */
    method UpdateEdge(id: string, props: Fields) returns (o: Outcome)
      modifies if id in edges then {edges[id]} else {}
      ensures id !in edges ==> o == Fail(ValueError)
      ensures id in edges ==>
                var r := UpdateProperties(old(edges[id].fields), props);
                (o.Pass? <==> r.Ok?) && (r.Err? ==> o == Fail(r.error) && edges[id].fields == old(edges[id].fields)) &&
                (r.Ok? ==> edges[id].fields == r.value)
    {
      if id !in edges {
        return Fail(ValueError);
      }
      var edge := edges[id];
      var r := UpdateProperties(edge.fields, props);
      if r.Err? {
        return Fail(r.error);
      }
      edge.fields := r.value;
      return Pass;
    }
  }
}
