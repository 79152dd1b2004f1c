/** The knowledge spectrum's `Taxonomy` (nodes with attribute dicts and typed
 *  edges between them) and the relation map of its advanced
 *  representation. */
module KnowledgeSpectrum {
  import opened Wrappers
  import opened PyValue
  import opened RelationMaps

  type Attrs = map<Value, Value>

  /** The state of a `Taxonomy`: its `nodes` and `edges` dicts. */
  datatype Tax = Tax(nodes: map<string, Attrs>, edges: Relations)

  /** Every node has an edge dict and nothing else does; every edge joins
   *  two nodes and has a non-empty type. */
  predicate Valid(t: Tax) {
    t.edges.Keys == t.nodes.Keys &&
    forall s :: s in t.edges ==> s != "" && forall x :: x in t.edges[s] ==> x in t.nodes && t.edges[s][x] != ""
  }

  /** `add_node`: an empty or existing ID raises ValueError; a new node gets
   *  the attributes and an empty edge dict. */
  function AddNodeStep(t: Tax, id: string, attrs: Attrs): (Outcome, Tax) {
    if id == "" || id in t.nodes then (Fail(ValueError), t)
    else (Pass, Tax(t.nodes[id := attrs], t.edges[id := map[]]))
  }

  /** `add_edge`: empty arguments or a missing endpoint raise ValueError;
   *  then the edge is set in the source's dict, which is a KeyError only if
   *  the source has no dict. */
  function AddEdgeStep(t: Tax, source: string, target: string, edgeType: string): (Outcome, Tax) {
    if source == "" || target == "" || edgeType == "" then (Fail(ValueError), t)
    else if source !in t.nodes || target !in t.nodes then (Fail(ValueError), t)
    else if source !in t.edges then (Fail(KeyError), t)
    else (Pass, t.(edges := t.edges[source := t.edges[source][target := edgeType]]))
  }

  /** `remove_edge`: deletes the edge if it is there, and does nothing
   *  otherwise; the source keeps its (possibly empty) dict. */
  function RemoveEdgeStep(t: Tax, source: string, target: string): Tax {
    if Related(t.edges, source, target) then t.(edges := t.edges[source := t.edges[source] - {target}])
    else t
  }

  /** `get_node`: ValueError for an unknown ID. */
  function NodeOf(t: Tax, id: string): (r: Result<Attrs>)
    ensures r.Ok? <==> id in t.nodes
    ensures r.Ok? ==> r.value == t.nodes[id]
  {
    if id !in t.nodes then Err(ValueError) else Ok(t.nodes[id])
  }

  /** `get_relations` (and, with no type, `get_children`): the edges out of
   *  `id`, all of them or only those of the given type; none for an ID
   *  without an edge dict. */
  function RelationsOf(t: Tax, id: string, edgeType: Option<string>): map<string, string> {
    if edgeType.None? then Row(t.edges, id) else OfType(Row(t.edges, id), edgeType.value)
  }

  /** `remove_node`: ValueError for an unknown node; otherwise the node, its
   *  edge dict and every edge into it go. The node is deleted before its
   *  edge dict is looked up, so a node without one is lost with a KeyError. */
  function RemoveNodeStep(t: Tax, id: string): (Outcome, Tax) {
    if id !in t.nodes then (Fail(ValueError), t)
    else if id !in t.edges then (Fail(KeyError), t.(nodes := t.nodes - {id}))
    else (Pass, Tax(t.nodes - {id}, Detach(t.edges - {id}, id)))
  }

  /** `update_node`: `dict.update` of the node's attributes; ValueError for
   *  an unknown node. */
  function UpdateNodeStep(t: Tax, id: string, attrs: Attrs): (Outcome, Tax) {
    if id !in t.nodes then (Fail(ValueError), t)
    else (Pass, t.(nodes := t.nodes[id := t.nodes[id] + attrs]))
  }

  /** `add_node` accepts exactly a new non-empty ID, stores its attributes
   *  and gives it no edges. */
  lemma AddNodeChecks(t: Tax, id: string, attrs: Attrs)
    ensures AddNodeStep(t, id, attrs).0.Pass? <==> id != "" && id !in t.nodes
    ensures AddNodeStep(t, id, attrs).0.Pass? ==>
              var t' := AddNodeStep(t, id, attrs).1;
              t'.nodes[id] == attrs && RelationsOf(t', id, None) == map[]
  {
  }

  /** On a valid taxonomy `add_edge` succeeds exactly when the arguments are
   *  non-empty and both endpoints are nodes, and then adds just that edge. */
  lemma AddEdgeChecks(t: Tax, source: string, target: string, edgeType: string)
    requires Valid(t)
    ensures AddEdgeStep(t, source, target, edgeType).0.Pass? <==>
              source != "" && target != "" && edgeType != "" && source in t.nodes && target in t.nodes
    ensures AddEdgeStep(t, source, target, edgeType).0.Pass? ==>
              var t' := AddEdgeStep(t, source, target, edgeType).1;
              t'.nodes == t.nodes && RelationsOf(t', source, None)[target] == edgeType &&
              SameElsewhere(t.edges, t'.edges, source, target)
  {
  }

  /** `remove_edge` of a missing edge changes nothing; otherwise exactly that
   *  edge is gone. */
  lemma RemoveEdgeChecks(t: Tax, source: string, target: string)
    ensures !Related(t.edges, source, target) ==> RemoveEdgeStep(t, source, target) == t
    ensures !Related(RemoveEdgeStep(t, source, target).edges, source, target)
    ensures SameElsewhere(t.edges, RemoveEdgeStep(t, source, target).edges, source, target)
    ensures RemoveEdgeStep(t, source, target).nodes == t.nodes
  {
  }

  /** On a valid taxonomy `remove_node` fails only for an unknown node, and
   *  then changes nothing; otherwise the node, its out-edges and its
   *  in-edges are gone, and every edge between other nodes stays. */
  lemma RemoveNodeCascades(t: Tax, id: string)
    requires Valid(t)
    ensures RemoveNodeStep(t, id).0.Pass? <==> id in t.nodes
    ensures RemoveNodeStep(t, id).0.Fail? ==> RemoveNodeStep(t, id).1 == t
    ensures var t' := RemoveNodeStep(t, id).1;
            id !in t'.nodes && id !in t'.edges && (forall s :: s in t'.edges ==> id !in t'.edges[s])
    ensures var t' := RemoveNodeStep(t, id).1;
            forall s, x :: s != id && x != id ==>
              (Related(t'.edges, s, x) <==> Related(t.edges, s, x)) &&
              (Related(t.edges, s, x) ==> t'.edges[s][x] == t.edges[s][x])
  {
  }

  /** A typed `get_relations` returns exactly the node's edges of that type. */
  lemma TypedRelationsFilter(t: Tax, id: string, edgeType: string, x: string)
    ensures x in RelationsOf(t, id, Some(edgeType)) <==> Related(t.edges, id, x) && t.edges[id][x] == edgeType
    ensures RelationsOf(t, id, None) == map[] <== id !in t.edges
  {
  }

  /** `update_node` merges the new attributes over the old ones and changes
   *  nothing else. */
  lemma UpdateNodeMerges(t: Tax, id: string, attrs: Attrs, k: Value)
    requires id in t.nodes
    ensures var t' := UpdateNodeStep(t, id, attrs).1;
            t'.edges == t.edges && t'.nodes.Keys == t.nodes.Keys &&
            (k in attrs ==> t'.nodes[id][k] == attrs[k]) &&
            (k !in attrs && k in t.nodes[id] ==> t'.nodes[id][k] == t.nodes[id][k])
  {
  }

  lemma AddsKeepValid(t: Tax, id: string, attrs: Attrs, source: string, target: string, edgeType: string)
    requires Valid(t)
    ensures Valid(AddNodeStep(t, id, attrs).1)
    ensures Valid(AddEdgeStep(t, source, target, edgeType).1)
  {
    var t' := AddEdgeStep(t, source, target, edgeType).1;
    if AddEdgeStep(t, source, target, edgeType).0.Pass? {
      forall s | s in t'.edges
        ensures s != "" && forall x :: x in t'.edges[s] ==> x in t'.nodes && t'.edges[s][x] != ""
      {
        if s != source {
          assert t'.edges[s] == t.edges[s];
        }
      }
    }
  }

  lemma RemovesKeepValid(t: Tax, id: string, source: string, target: string)
    requires Valid(t)
    ensures Valid(RemoveEdgeStep(t, source, target))
    ensures Valid(RemoveNodeStep(t, id).1)
  {
    RemoveEdgeKeepsValid(t, source, target);
    RemoveNodeKeepsValid(t, id);
  }

  /** Removing an edge keeps a valid taxonomy valid. */
  lemma RemoveEdgeKeepsValid(t: Tax, source: string, target: string)
    requires Valid(t)
    ensures Valid(RemoveEdgeStep(t, source, target))
  {
  }

  /** Removing a node, with the edges into it, keeps a valid taxonomy
   *  valid. */
  lemma RemoveNodeKeepsValid(t: Tax, id: string)
    requires Valid(t)
    ensures Valid(RemoveNodeStep(t, id).1)
  {
    var t' := RemoveNodeStep(t, id).1;
    if id in t.nodes {
      forall s | s in t'.edges
        ensures s != "" && forall x :: x in t'.edges[s] ==> x in t'.nodes && t'.edges[s][x] != ""
      {
        assert t'.edges[s] == t.edges[s] - {id};
      }
    }
  }

  /** Every operation keeps a valid taxonomy valid, whatever its outcome. */
  lemma StepsKeepValid(t: Tax, id: string, attrs: Attrs, source: string, target: string, edgeType: string)
    requires Valid(t)
    ensures Valid(AddNodeStep(t, id, attrs).1)
    ensures Valid(AddEdgeStep(t, source, target, edgeType).1)
    ensures Valid(RemoveEdgeStep(t, source, target))
    ensures Valid(RemoveNodeStep(t, id).1)
    ensures Valid(UpdateNodeStep(t, id, attrs).1)
  {
    AddsKeepValid(t, id, attrs, source, target, edgeType);
    RemovesKeepValid(t, id, source, target);
  }

  class Taxonomy {
    var nodes: map<string, Attrs>
    var edges: Relations

    constructor ()
      ensures nodes == map[] && edges == map[]
    {
      nodes := map[];
      edges := map[];
    }

    method AddNode(id: string, attrs: Attrs) returns (o: Outcome)
      modifies this
      ensures (o, Tax(nodes, edges)) == AddNodeStep(Tax(old(nodes), old(edges)), id, attrs)
    {
      if id == "" || id in nodes {
        return Fail(ValueError);
      }
      nodes := nodes[id := attrs];
      edges := edges[id := map[]];
      return Pass;
    }

    method AddEdge(source: string, target: string, edgeType: string) returns (o: Outcome)
      modifies this
      ensures (o, Tax(nodes, edges)) == AddEdgeStep(Tax(old(nodes), old(edges)), source, target, edgeType)
    {
      if source == "" || target == "" || edgeType == "" {
        return Fail(ValueError);
      }
      if source !in nodes || target !in nodes {
        return Fail(ValueError);
      }
      if source !in edges {
        return Fail(KeyError);
      }
      edges := edges[source := edges[source][target := edgeType]];
      return Pass;
    }

    method RemoveEdge(source: string, target: string)
      modifies this
      ensures Tax(nodes, edges) == RemoveEdgeStep(Tax(old(nodes), old(edges)), source, target)
    {
      if source in edges && target in edges[source] {
        edges := edges[source := edges[source] - {target}];
      }
    }

    function GetNode(id: string): (r: Result<Attrs>)
      reads this
      ensures r.Ok? <==> id in nodes
      ensures r.Ok? ==> r.value == nodes[id]
    {
      NodeOf(Tax(nodes, edges), id)
    }

    function GetChildren(id: string): (children: map<string, string>)
      reads this
      ensures id in edges ==> children == edges[id]
      ensures id !in edges ==> children == map[]
    {
      GetRelations(id, None)
    }

    function GetRelations(id: string, edgeType: Option<string>): (rels: map<string, string>)
      reads this
      ensures forall x :: x in rels <==> Related(edges, id, x) && (edgeType.Some? ==> edges[id][x] == edgeType.value)
      ensures forall x :: x in rels ==> Related(edges, id, x) && rels[x] == edges[id][x]
    {
      RelationsOf(Tax(nodes, edges), id, edgeType)
    }

    /** Deletes the node and its edge dict, then walks the remaining edge
     *  dicts and deletes `id` from each. */
    method RemoveNode(id: string) returns (o: Outcome)
      modifies this
      ensures (o, Tax(nodes, edges)) == RemoveNodeStep(Tax(old(nodes), old(edges)), id)
    {
      if id !in nodes {
        return Fail(ValueError);
      }
      nodes := nodes - {id};
      if id !in edges {
        return Fail(KeyError);
      }
      edges := edges - {id};
      ghost var start := edges;
      var pending := edges.Keys;
      while pending != {}
        invariant nodes == old(nodes) - {id} && start == old(edges) - {id}
        invariant pending <= start.Keys && edges.Keys == start.Keys
        invariant forall s :: s in edges ==> edges[s] == if s in pending then start[s] else start[s] - {id}
        decreases pending
      {
        var s :| s in pending;
        if id in edges[s] {
          edges := edges[s := edges[s] - {id}];
        }
        pending := pending - {s};
      }
      assert edges == Detach(start, id);
      return Pass;
    }

    method UpdateNode(id: string, attrs: Attrs) returns (o: Outcome)
      modifies this
      ensures (o, Tax(nodes, edges)) == UpdateNodeStep(Tax(old(nodes), old(edges)), id, attrs)
    {
      if id !in nodes {
        return Fail(ValueError);
      }
      nodes := nodes[id := nodes[id] + attrs];
      return Pass;
    }
  }

  /** The relation map of `KnowledgeSpectrumAdvancedRepresentation`; its
   *  features, taxonomy wrappers and spectrum analyses are not part of this
   *  model. */
  class SpectrumRelations {
    var relations: Relations

    constructor ()
      ensures relations == map[]
    {
      relations := map[];
    }

    method AddRelation(source: string, target: string, relType: string) returns (o: Outcome)
      modifies this
      ensures (o, relations) == Apply(old(relations), Add(old(relations), source, target, relType))
    {
      if source == "" || target == "" || relType == "" {
        return Fail(ValueError);
      }
      var row := if source in relations then relations[source] else map[];
      relations := relations[source := row[target := relType]];
      return Pass;
    }

    /** Removes the relation if present, dropping a source left without
     *  targets; a missing relation is ignored. */
    method RemoveRelation(source: string, target: string)
      modifies this
      ensures relations == RemoveIfPresent(old(relations), source, target)
    {
      if source in relations && target in relations[source] {
        var row := relations[source] - {target};
        if row == map[] {
          relations := relations - {source};
        } else {
          relations := relations[source := row];
        }
      }
    }

    function GetRelations(source: string, relType: Option<string>): (rels: map<string, string>)
      reads this
      ensures forall x :: x in rels <==> Related(relations, source, x) && (relType.Some? ==> relations[source][x] == relType.value)
      ensures source !in relations ==> rels == map[]
    {
      if relType.None? then Row(relations, source) else OfType(Row(relations, source), relType.value)
    }

    method UpdateRelation(source: string, target: string, relType: string) returns (o: Outcome)
      modifies this
      ensures (o, relations) == Apply(old(relations), UpdateUnchecked(old(relations), source, target, relType))
    {
      if source !in relations || target !in relations[source] {
        return Fail(ValueError);
      }
      relations := relations[source := relations[source][target := relType]];
      return Pass;
    }
  }
}
