/** `RelationGraph`: named concepts of a discipline, typed relations between
 *  them kept in insertion order, the neighbours of a concept, a breadth-first
 *  path between two concepts and the "includes" hierarchy under a concept. */
module RelationGraphs {
  import opened Wrappers
  import opened PyValue
  import opened Digraph
  import GraphSearch

  type Props = map<string, Value>

  /** A stored concept: its name and its property dict (which holds "type"). */
  datatype Concept = Concept(name: string, properties: Props)

  /** A stored relation between two concept IDs. */
  datatype Relation = Relation(source: string, target: string, relType: string, properties: Props)

  /** The `relations` dict as its (ID, relation) items in insertion order. */
  type Entries = seq<(string, Relation)>

  /** The state of a `RelationGraph`: its `concepts` and `relations` dicts. */
  datatype Graph = Graph(concepts: map<string, Concept>, relations: Entries)

  const ConceptTypes: set<Value> := {VStr("subfield"), VStr("field"), VStr("technique")}
  const RelationTypes: set<string> := {"uses", "implements", "includes", "related"}

  // ---------------------------------------------------------------------
  // The relations dict as a sequence of items

  predicate DistinctIds(es: Entries) {
    forall i, j :: 0 <= i < j < |es| ==> es[i].0 != es[j].0
  }

  function Ids(es: Entries): (ids: set<string>)
    ensures forall id :: id in ids <==> exists e :: e in es && e.0 == id
  {
    set e | e in es :: e.0
  }

  /** `relations.get(id)` */
  function Lookup(es: Entries, id: string): (r: Option<Relation>)
    ensures r.Some? <==> id in Ids(es)
    ensures r.Some? ==> (id, r.value) in es
    ensures DistinctIds(es) ==> forall rel :: (id, rel) in es ==> r == Some(rel)
  {
    if es == [] then None
    else if es[0].0 == id then Some(es[0].1)
    else
      assert forall e :: e in es <==> e == es[0] || e in es[1..];
      Lookup(es[1..], id)
  }

  /** `relations[id] = rel`: an existing item is replaced in place, a new one
   *  goes at the end. */
  function Put(es: Entries, id: string, rel: Relation): (r: Entries)
    ensures DistinctIds(es) ==> DistinctIds(r) && Lookup(r, id) == Some(rel)
    ensures forall e :: e in r <==> e == (id, rel) || (e in es && e.0 != id)
  {
    if id in Ids(es) then
      var r := seq(|es|, i requires 0 <= i < |es| => if es[i].0 == id then (id, rel) else es[i]);
      assert forall e :: e in es && e.0 != id ==> e in r by {
        forall e | e in es && e.0 != id
          ensures e in r
        {
          var i :| 0 <= i < |es| && es[i] == e;
          assert r[i] == e;
        }
      }
      assert (id, rel) in r by {
        var i :| 0 <= i < |es| && es[i].0 == id;
        assert r[i] == (id, rel);
      }
      r
    else es + [(id, rel)]
  }

  /** The (source, target) pair of each relation, in order. */
  function Edges(es: Entries): (edges: GraphSearch.Edges<string>)
    ensures |edges| == |es|
    ensures forall i :: 0 <= i < |es| ==> edges[i] == (es[i].1.source, es[i].1.target)
  {
    seq(|es|, i requires 0 <= i < |es| => (es[i].1.source, es[i].1.target))
  }

  lemma EdgesMember(es: Entries, x: string, y: string)
    ensures (x, y) in Edges(es) <==> exists e :: e in es && e.1.source == x && e.1.target == y
  {
    var edges := Edges(es);
    if (x, y) in edges {
      var i :| 0 <= i < |edges| && edges[i] == (x, y);
      assert es[i] in es;
    }
    if exists e :: e in es && e.1.source == x && e.1.target == y {
      var e :| e in es && e.1.source == x && e.1.target == y;
      var i :| 0 <= i < |es| && es[i] == e;
      assert edges[i] == (x, y);
    }
  }

  predicate Touches(rel: Relation, c: string) {
    rel.source == c || rel.target == c
  }

  /** The items of relations that do not touch `c`, in order. */
  function Keep(es: Entries, c: string): (r: Entries)
    ensures forall e :: e in r <==> e in es && !Touches(e.1, c)
    ensures DistinctIds(es) ==> DistinctIds(r)
  {
    if es == [] then []
    else
      var init, e := es[..|es| - 1], es[|es| - 1];
      assert es == init + [e];
      var k := Keep(init, c);
      assert DistinctIds(es) ==> forall d :: d in k ==> d.0 != e.0 by {
        if DistinctIds(es) {
          forall d | d in k
            ensures d.0 != e.0
          {
            var i :| 0 <= i < |init| && init[i] == d;
            assert es[i] == d;
          }
        }
      }
      k + (if Touches(e.1, c) then [] else [e])
  }

  /** The IDs of the relations touching `c`, in order. */
  function TouchingIds(es: Entries, c: string): (ids: seq<string>)
    ensures forall id :: id in ids <==> exists e :: e in es && e.0 == id && Touches(e.1, c)
  {
    if es == [] then []
    else
      var init, e := es[..|es| - 1], es[|es| - 1];
      assert es == init + [e];
      TouchingIds(init, c) + (if Touches(e.1, c) then [e.0] else [])
  }

  /** The items whose ID is not in `gone`, in order. */
  function FilterIds(es: Entries, gone: set<string>): (r: Entries)
    ensures forall e :: e in r <==> e in es && e.0 !in gone
  {
    if es == [] then []
    else
      var init, e := es[..|es| - 1], es[|es| - 1];
      assert es == init + [e];
      FilterIds(init, gone) + (if e.0 in gone then [] else [e])
  }

  /** `del relations[id]`, the item with that ID being unique. */
  function RemoveId(es: Entries, id: string): (r: Entries)
    ensures forall e :: e in r <==> e in es && e.0 != id
  {
    FilterIds(es, {id})
  }

  lemma {:induction false} FilterIdsAgree(es: Entries, s: set<string>, t: set<string>)
    requires forall e :: e in es ==> (e.0 in s <==> e.0 in t)
    ensures FilterIds(es, s) == FilterIds(es, t)
  {
    if es != [] {
      var init := es[..|es| - 1];
      assert forall e :: e in init ==> e in es;
      FilterIdsAgree(init, s, t);
    }
  }

  lemma {:induction false} FilterNothing(es: Entries)
    ensures FilterIds(es, {}) == es
  {
    if es != [] {
      FilterNothing(es[..|es| - 1]);
      assert es == es[..|es| - 1] + [es[|es| - 1]];
    }
  }

  lemma {:induction false} RemoveAfterFilter(es: Entries, gone: set<string>, id: string)
    ensures RemoveId(FilterIds(es, gone), id) == FilterIds(es, gone + {id})
  {
    if es != [] {
      var init, e := es[..|es| - 1], es[|es| - 1];
      RemoveAfterFilter(init, gone, id);
      var f := FilterIds(es, gone);
      var fi := FilterIds(init, gone);
      assert f == fi + (if e.0 in gone then [] else [e]);
      if e.0 !in gone {
        assert f[..|f| - 1] == fi;
      } else {
        assert f == fi;
      }
    }
  }

  /** Deleting, one by one, the IDs of the relations touching `c` keeps
   *  exactly the relations that do not touch `c`. */
  lemma {:induction false} FilterTouching(es: Entries, c: string, gone: set<string>)
    requires DistinctIds(es)
    requires forall id :: id in gone <==> id in TouchingIds(es, c)
    ensures FilterIds(es, gone) == Keep(es, c)
  {
    if es != [] {
      var init, e := es[..|es| - 1], es[|es| - 1];
      assert es == init + [e];
      var g0 := ToSet(TouchingIds(init, c));
      assert DistinctIds(init);
      FilterTouching(init, c, g0);
      forall d | d in init
        ensures d.0 in gone <==> d.0 in g0
      {
        var i :| 0 <= i < |init| && init[i] == d;
        assert es[i] == d && d.0 != e.0;
        assert forall f :: f in es && f.0 == d.0 ==> f in init;
      }
      FilterIdsAgree(init, gone, g0);
      if !Touches(e.1, c) {
        forall f | f in es && f.0 == e.0
          ensures !Touches(f.1, c)
        {
          var i :| 0 <= i < |es| && es[i] == f;
          assert !(i < |es| - 1);
        }
      }
    }
  }

  // ---------------------------------------------------------------------
  // The graph's invariant

  /** Every concept keeps a "type" property. */
  predicate Typed(concepts: map<string, Concept>) {
    forall k :: k in concepts ==> "type" in concepts[k].properties
  }

  /** No two concepts share a name. */
  predicate UniqueNames(concepts: map<string, Concept>) {
    forall k, l :: k in concepts && l in concepts && concepts[k].name == concepts[l].name ==> k == l
  }

  /** Relation IDs are unique and every relation joins two concepts. */
  predicate Valid(g: Graph) {
    DistinctIds(g.relations) &&
    GraphSearch.EndpointsIn(Edges(g.relations), g.concepts.Keys) &&
    Typed(g.concepts) && UniqueNames(g.concepts)
  }

  // ---------------------------------------------------------------------
  // Operations on the state

  /** The type check of `add_concept`: a missing type or one outside the
   *  concept types raises ValueError; an unhashable one makes the set
   *  membership test raise TypeError. */
  function ConceptTypeCheck(props: Props): (o: Outcome)
    ensures o.Pass? <==> "type" in props && props["type"] in ConceptTypes
  {
    if "type" !in props then Fail(ValueError)
    else if !Hashable(props["type"]) then Fail(TypeError)
    else if props["type"] !in ConceptTypes then Fail(ValueError)
    else Pass
  }

  predicate NameTaken(concepts: map<string, Concept>, name: string) {
    exists k :: k in concepts && concepts[k].name == name
  }

  /** `add_concept`, with `freshId` standing for the generated UUID. */
  function AddConceptStep(g: Graph, name: string, props: Props, freshId: string): (Result<string>, Graph) {
    var checked := ConceptTypeCheck(props);
    if checked.Fail? then (Err(checked.error), g)
    else if NameTaken(g.concepts, name) then (Err(ValueError), g)
    else (Ok(freshId), g.(concepts := g.concepts[freshId := Concept(name, props)]))
  }

  /** `add_relation`, with `freshId` standing for the generated UUID: an
   *  invalid type, then an unknown source, then an unknown target raise
   *  ValueError. */
  function AddRelationStep(g: Graph, source: string, target: string, relType: string, props: Props, freshId: string): (Result<string>, Graph) {
    if relType !in RelationTypes || source !in g.concepts || target !in g.concepts then (Err(ValueError), g)
    else (Ok(freshId), g.(relations := Put(g.relations, freshId, Relation(source, target, relType, props))))
  }

  /** `update_concept`: `dict.update` of the concept's properties. */
  function UpdateConceptStep(g: Graph, id: string, props: Props): (Outcome, Graph) {
    if id !in g.concepts then (Fail(ValueError), g)
    else
      var c := g.concepts[id];
      (Pass, g.(concepts := g.concepts[id := c.(properties := c.properties + props)]))
  }

  /** `remove_concept`: ValueError for an unknown concept; otherwise every
   *  relation touching it goes, then the concept. */
  function RemoveConceptStep(g: Graph, id: string): (Outcome, Graph) {
    if id !in g.concepts then (Fail(ValueError), g)
    else (Pass, Graph(g.concepts - {id}, Keep(g.relations, id)))
  }

  /** `add_concept` succeeds exactly for a valid type and an unused name, and
   *  then stores the concept under the new ID. */
  lemma AddConceptChecks(g: Graph, name: string, props: Props, freshId: string)
    ensures var (r, g') := AddConceptStep(g, name, props, freshId);
            (r.Ok? <==> "type" in props && props["type"] in ConceptTypes && !NameTaken(g.concepts, name)) &&
            (r.Err? ==> g' == g) &&
            (r.Ok? ==> r.value == freshId && g'.concepts[freshId] == Concept(name, props) &&
                       g'.relations == g.relations &&
                       forall k :: k in g.concepts && k != freshId ==> g'.concepts[k] == g.concepts[k])
    ensures "type" in props && !Hashable(props["type"]) ==> AddConceptStep(g, name, props, freshId).0 == Err(TypeError)
  {
  }

  /** `add_relation` succeeds exactly for a valid type between two known
   *  concepts, and the relation is then found under its new ID. */
  lemma AddRelationChecks(g: Graph, source: string, target: string, relType: string, props: Props, freshId: string)
    requires DistinctIds(g.relations)
    ensures var (r, g') := AddRelationStep(g, source, target, relType, props, freshId);
            (r.Ok? <==> relType in RelationTypes && source in g.concepts && target in g.concepts) &&
            (r.Err? ==> g' == g) &&
            (r.Ok? ==> r.value == freshId && g'.concepts == g.concepts &&
                       Lookup(g'.relations, freshId) == Some(Relation(source, target, relType, props)) &&
                       forall e :: e in g.relations && e.0 != freshId ==> e in g'.relations)
  {
  }

  /** After `remove_concept` no relation touches the removed concept, and
   *  every relation that did not touch it is kept. */
  lemma RemoveConceptCascades(g: Graph, id: string)
    ensures RemoveConceptStep(g, id).0.Pass? <==> id in g.concepts
    ensures RemoveConceptStep(g, id).0.Fail? ==> RemoveConceptStep(g, id).1 == g
    ensures var (o, g') := RemoveConceptStep(g, id);
            o.Pass? ==> id !in g'.concepts &&
                        (forall x, y :: (x, y) in Edges(g'.relations) ==> x != id && y != id) &&
                        forall e :: e in g.relations && !Touches(e.1, id) ==> e in g'.relations
  {
    var (o, g') := RemoveConceptStep(g, id);
    if o.Pass? {
      forall x, y | (x, y) in Edges(g'.relations)
        ensures x != id && y != id
      {
        EdgesMember(g'.relations, x, y);
      }
    }
  }

  /** `update_concept` merges the new properties over the old ones and
   *  keeps the concept's name. */
  lemma UpdateConceptMerges(g: Graph, id: string, props: Props)
    ensures UpdateConceptStep(g, id, props).0.Pass? <==> id in g.concepts
    ensures var (o, g') := UpdateConceptStep(g, id, props);
            o.Pass? ==> g'.concepts.Keys == g.concepts.Keys && g'.relations == g.relations &&
                        g'.concepts[id].name == g.concepts[id].name &&
                        (forall k :: k in props ==> g'.concepts[id].properties[k] == props[k]) &&
                        (forall k :: k in g.concepts[id].properties && k !in props ==>
                           g'.concepts[id].properties[k] == g.concepts[id].properties[k])
  {
  }

  lemma AddsKeepValid(g: Graph, name: string, props: Props, source: string, target: string, relType: string, freshId: string)
    requires Valid(g)
    ensures Valid(AddConceptStep(g, name, props, freshId).1)
    ensures Valid(AddRelationStep(g, source, target, relType, props, freshId).1)
  {
    var g1 := AddConceptStep(g, name, props, freshId).1;
    if g1 != g {
      forall x, y | (x, y) in Edges(g1.relations)
        ensures x in g1.concepts && y in g1.concepts
      {
        EdgesMember(g.relations, x, y);
      }
    }
    var g2 := AddRelationStep(g, source, target, relType, props, freshId).1;
    if g2 != g {
      forall e | e in Edges(g2.relations)
        ensures e.0 in g2.concepts && e.1 in g2.concepts
      {
        EdgesMember(g2.relations, e.0, e.1);
        EdgesMember(g.relations, e.0, e.1);
      }
    }
  }

  lemma ChangesKeepValid(g: Graph, id: string, props: Props)
    requires Valid(g)
    ensures Valid(UpdateConceptStep(g, id, props).1)
    ensures Valid(RemoveConceptStep(g, id).1)
  {
    var g1 := RemoveConceptStep(g, id).1;
    if g1 != g {
      forall e | e in Edges(g1.relations)
        ensures e.0 in g1.concepts && e.1 in g1.concepts
      {
        EdgesMember(g1.relations, e.0, e.1);
        EdgesMember(g.relations, e.0, e.1);
      }
    }
  }

  // ---------------------------------------------------------------------
  // The "includes" hierarchy

  /** The shape of the walk `build_hierarchy` makes: the concept's ID, name,
   *  type, its other properties and the sub-walks of its children. `Render`
   *  turns it into the dict the source returns. */
  datatype Tree = Tree(id: string, name: string, conceptType: Value, others: Props, children: seq<Tree>)

  /** The IDs of a hierarchy, root first. */
  function TreeIds(t: Tree): seq<string>
    decreases t
  {
    [t.id] + ForestIds(t.children)
  }

  function ForestIds(ts: seq<Tree>): seq<string>
    decreases ts
  {
    if ts == [] then [] else TreeIds(ts[0]) + ForestIds(ts[1..])
  }

  predicate NoRepeats(s: seq<string>) {
    forall i, j :: 0 <= i < j < |s| ==> s[i] != s[j]
  }

  lemma NoRepeatsJoin(a: seq<string>, b: seq<string>)
    requires NoRepeats(a) && NoRepeats(b) && ToSet(a) !! ToSet(b)
    ensures NoRepeats(a + b)
  {
    forall i, j | 0 <= i < j < |a + b|
      ensures (a + b)[i] != (a + b)[j]
    {
      if i < |a| <= j {
        assert (a + b)[i] in ToSet(a) && (a + b)[j] == b[j - |a|];
      }
    }
  }

  /** The targets of the "includes" relations out of `c`. */
  ghost function Included(g: Graph, c: string): set<string> {
    set e | e in g.relations && e.1.source == c && e.1.relType == "includes" :: e.1.target
  }

  /** `t` carries the stored entry of concept `c`: its ID, its name, its
   *  "type" and the rest of its properties. */
  ghost predicate NodeOf(g: Graph, c: string, t: Tree) {
    c in g.concepts && "type" in g.concepts[c].properties &&
    t.id == c && t.name == g.concepts[c].name &&
    t.conceptType == g.concepts[c].properties["type"] && t.others == g.concepts[c].properties - {"type"}
  }

  /** Every parent-child step of `t` is an "includes" relation, and every
   *  child carries its concept's entry. */
  ghost predicate FollowsIncludes(g: Graph, t: Tree)
    decreases t
  {
    forall k :: 0 <= k < |t.children| ==>
      t.children[k].id in Included(g, t.id) && NodeOf(g, t.children[k].id, t.children[k]) &&
      FollowsIncludes(g, t.children[k])
  }

  /** Every concept ID and every relation target. */
  ghost function Universe(g: Graph): set<string> {
    g.concepts.Keys + (set e | e in g.relations :: e.1.target)
  }

  lemma SubsetCard(a: set<string>, b: set<string>)
    requires a <= b
    ensures |a| <= |b|
  {
    if a != b {
      StrictSubsetCard(a, b);
    }
  }

  lemma TargetsAreConcepts(g: Graph)
    requires Valid(g)
    ensures forall e :: e in g.relations ==> e.1.source in g.concepts && e.1.target in g.concepts
  {
    forall e | e in g.relations
      ensures e.1.source in g.concepts && e.1.target in g.concepts
    {
      EdgesMember(g.relations, e.1.source, e.1.target);
    }
  }

  /** Prepending a built child to the children built after it keeps the
   *  children's properties. */
  lemma JoinForest(g: Graph, c: string, t: Tree, rest: seq<Tree>, visited: set<string>, v1: set<string>, v2: set<string>)
    requires visited <= v1 <= v2
    requires t.id in Included(g, c) && NodeOf(g, t.id, t) && FollowsIncludes(g, t)
    requires NoRepeats(TreeIds(t)) && ToSet(TreeIds(t)) <= v1 - visited
    requires forall k :: 0 <= k < |rest| ==>
               rest[k].id in Included(g, c) && NodeOf(g, rest[k].id, rest[k]) && FollowsIncludes(g, rest[k])
    requires NoRepeats(ForestIds(rest)) && ToSet(ForestIds(rest)) <= v2 - v1
    ensures forall k :: 0 <= k < |[t] + rest| ==>
              ([t] + rest)[k].id in Included(g, c) && NodeOf(g, ([t] + rest)[k].id, ([t] + rest)[k]) &&
              FollowsIncludes(g, ([t] + rest)[k])
    ensures NoRepeats(ForestIds([t] + rest)) && ToSet(ForestIds([t] + rest)) <= v2 - visited
  {
    assert ForestIds([t] + rest) == TreeIds(t) + ForestIds(rest) by {
      assert ([t] + rest)[1..] == rest;
    }
    NoRepeatsJoin(TreeIds(t), ForestIds(rest));
    assert ToSet(TreeIds(t) + ForestIds(rest)) == ToSet(TreeIds(t)) + ToSet(ForestIds(rest));
  }

  /** The node built for `c` from its concept and its children. */
  function Node(g: Graph, c: string, children: seq<Tree>): Result<Tree> {
    if c !in g.concepts || "type" !in g.concepts[c].properties then Err(KeyError)
    else
      var concept := g.concepts[c];
      Ok(Tree(c, concept.name, concept.properties["type"], concept.properties - {"type"}, children))
  }

  lemma MarkShrinks(g: Graph, c: string, visited: set<string>)
    requires c in Universe(g) && c !in visited
    ensures |Universe(g) - (visited + {c})| < |Universe(g) - visited|
  {
    assert Universe(g) - (visited + {c}) < Universe(g) - visited;
    StrictSubsetCard(Universe(g) - (visited + {c}), Universe(g) - visited);
  }

  /** The node for a concept not visited before, over children built after
   *  marking it, is an "includes" hierarchy without repeats. */
  lemma NodeKeepsChildren(g: Graph, c: string, kids: seq<Tree>, visited: set<string>, v: set<string>)
    requires c !in visited && visited + {c} <= v && Node(g, c, kids).Ok?
    requires forall k :: 0 <= k < |kids| ==>
               kids[k].id in Included(g, c) && NodeOf(g, kids[k].id, kids[k]) && FollowsIncludes(g, kids[k])
    requires NoRepeats(ForestIds(kids)) && ToSet(ForestIds(kids)) <= v - (visited + {c})
    ensures var t := Node(g, c, kids).value;
            NodeOf(g, c, t) && FollowsIncludes(g, t) && NoRepeats(TreeIds(t)) && ToSet(TreeIds(t)) <= v - visited
  {
    var t := Node(g, c, kids).value;
    assert TreeIds(t) == [c] + ForestIds(kids);
    NoRepeatsJoin([c], ForestIds(kids));
  }

  /** `build_hierarchy(c, visited)`: None for a visited concept; otherwise
   *  `c` is marked visited, the targets of its "includes" relations are
   *  built in relation order against the shared visited set, and the
   *  concept's own entry is read last (KeyError for an unknown concept or a
   *  missing type). The second component is the visited set afterwards. */
  function Build(g: Graph, c: string, visited: set<string>): (r: (Result<Option<Tree>>, set<string>))
    requires c in Universe(g)
    ensures visited <= r.1
    ensures r.0.Ok? ==> (r.0.value.None? <==> c in visited)
    ensures r.0.Err? ==> r.0.error == KeyError
    ensures r.0.Ok? && r.0.value.Some? ==>
              var t := r.0.value.value;
              NodeOf(g, c, t) && FollowsIncludes(g, t) && NoRepeats(TreeIds(t)) && ToSet(TreeIds(t)) <= r.1 - visited
    ensures Valid(g) ==> r.0.Ok?
    decreases |Universe(g) - visited|, 0
  {
    assert Valid(g) ==> c in g.concepts by {
      if Valid(g) {
        TargetsAreConcepts(g);
      }
    }
    if c in visited then (Ok(None), visited)
    else
      MarkShrinks(g, c, visited);
      var (kids, v) := Children(g, c, 0, visited + {c});
      if kids.Err? then (Err(kids.error), v)
      else
        var node := Node(g, c, kids.value);
        if node.Err? then (Err(node.error), v)
        else
          NodeKeepsChildren(g, c, kids.value, visited, v);
          (Ok(Some(node.value)), v)
  }

  /** The loop over relations `i..` of `build_hierarchy(c, ...)`: each
   *  "includes" relation out of `c` is built, and kept when not None. */
  function Children(g: Graph, c: string, i: nat, visited: set<string>): (r: (Result<seq<Tree>>, set<string>))
    requires i <= |g.relations|
    ensures visited <= r.1
    ensures r.0.Err? ==> r.0.error == KeyError
    ensures r.0.Ok? ==>
              (forall k :: 0 <= k < |r.0.value| ==>
                 r.0.value[k].id in Included(g, c) && NodeOf(g, r.0.value[k].id, r.0.value[k]) &&
                 FollowsIncludes(g, r.0.value[k])) &&
              NoRepeats(ForestIds(r.0.value)) && ToSet(ForestIds(r.0.value)) <= r.1 - visited
    ensures Valid(g) ==> r.0.Ok?
    decreases |Universe(g) - visited|, |g.relations| - i + 1
  {
    if i == |g.relations| then (Ok([]), visited)
    else
      var rel := g.relations[i].1;
      if rel.source != c || rel.relType != "includes" then Children(g, c, i + 1, visited)
      else
        assert g.relations[i] in g.relations;
        var (child, v1) := Build(g, rel.target, visited);
        SubsetCard(Universe(g) - v1, Universe(g) - visited);
        if child.Err? then (Err(child.error), v1)
        else
          var (rest, v2) := Children(g, c, i + 1, v1);
          if rest.Err? || child.value.None? then (rest, v2)
          else
            var t := child.value.value;
            assert rel.target in Included(g, c);
            JoinForest(g, c, t, rest.value, visited, v1, v2);
            (Ok([t] + rest.value), v2)
  }

  /** The walk of `get_concept_hierarchy`: ValueError for an unknown root;
   *  otherwise the walk built from it with an empty visited set, which is
   *  never None because the root has not been visited. */
  function HierarchyTree(g: Graph, root: string): (r: Result<Tree>)
    ensures root !in g.concepts ==> r == Err(ValueError)
    ensures r.Ok? ==> NodeOf(g, root, r.value) && FollowsIncludes(g, r.value) && NoRepeats(TreeIds(r.value))
    ensures Valid(g) && root in g.concepts ==> r.Ok?
  {
    if root !in g.concepts then Err(ValueError)
    else
      var built := Build(g, root, {}).0;
      if built.Err? then Err(built.error) else Ok(built.value.value)
  }

  /** The dict `build_hierarchy` returns for a walk: "id", "name", "type"
   *  and "children" (the rendered children), and then every property but
   *  "type" written over them. Always a non-empty dict, so the source's
   *  `if child_hierarchy` keeps every child built. */
  function Render(t: Tree): (d: Value)
    ensures d.VDict? && Truthy(d)
    decreases t, 1
  {
    var d := Fixed(t) + PropertyEntries(t.others);
    assert VStr("type") in d;
    VDict(d)
  }

  /** The four entries `build_hierarchy` writes before the properties. */
  function Fixed(t: Tree): (m: map<Value, Value>)
    ensures m.Keys == {VStr("id"), VStr("name"), VStr("type"), VStr("children")}
    ensures m[VStr("id")] == VStr(t.id) && m[VStr("name")] == VStr(t.name) && m[VStr("type")] == t.conceptType
    ensures m[VStr("children")] == VList(RenderAll(t.children))
    decreases t, 0
  {
    map[VStr("id") := VStr(t.id), VStr("name") := VStr(t.name), VStr("type") := t.conceptType,
        VStr("children") := VList(RenderAll(t.children))]
  }

  /** The rendered dicts of a list of walks, in order. */
  function RenderAll(ts: seq<Tree>): (ds: seq<Value>)
    ensures |ds| == |ts| && forall i :: 0 <= i < |ts| ==> ds[i] == Render(ts[i])
    decreases ts
  {
    if ts == [] then [] else [Render(ts[0])] + RenderAll(ts[1..])
  }

  /** The property keys of a concept, as dict keys. */
  function PropertyKeys(props: Props): set<Value> {
    set k | k in props :: VStr(k)
  }

  /** A concept's properties as dict entries keyed by their names. */
  function PropertyEntries(props: Props): (m: map<Value, Value>)
    ensures m.Keys == PropertyKeys(props)
    ensures forall k :: k in props ==> m[VStr(k)] == props[k]
  {
    map k | k in props :: VStr(k) := props[k]
  }

  /** Dropping "type" from the properties drops at most the "type" key. */
  lemma KeysWithoutType(props: Props)
    ensures PropertyKeys(props - {"type"}) + {VStr("type")} == PropertyKeys(props) + {VStr("type")}
  {
    forall v | v in PropertyKeys(props)
      ensures v in PropertyKeys(props - {"type"}) + {VStr("type")}
    {
      var k :| k in props && v == VStr(k);
      if k != "type" {
        assert k in props - {"type"};
      }
    }
  }

  /** What the hierarchy dict of concept `c` holds: the four fixed keys and
   *  the concept's property keys; "type" is the concept's type; every other
   *  property appears with its own value, overriding "id", "name" or
   *  "children" when it has that name; and "id", "name" and "children" not
   *  overridden are the concept's ID, its name and a list of the children's
   *  dicts. */
  ghost predicate Shows(g: Graph, c: string, d: Value) {
    c in g.concepts && "type" in g.concepts[c].properties && d.VDict? &&
    var props := g.concepts[c].properties;
    d.entries.Keys == {VStr("id"), VStr("name"), VStr("type"), VStr("children")} + PropertyKeys(props) &&
    d.entries[VStr("type")] == props["type"] &&
    (forall k :: k in props && k != "type" ==> d.entries[VStr(k)] == props[k]) &&
    ("id" !in props ==> d.entries[VStr("id")] == VStr(c)) &&
    ("name" !in props ==> d.entries[VStr("name")] == VStr(g.concepts[c].name)) &&
    ("children" !in props ==> d.entries[VStr("children")].VList?)
  }

  /** The keys of a rendered dict: the four fixed ones and the property names. */
  lemma RenderKeys(t: Tree)
    ensures Render(t).entries.Keys == {VStr("id"), VStr("name"), VStr("type"), VStr("children")} + PropertyKeys(t.others)
  {
  }

  /** In a rendered dict the properties win over the fixed entries. */
  lemma RenderValues(t: Tree)
    ensures var d := Render(t).entries;
            (forall k :: k in t.others ==> d[VStr(k)] == t.others[k]) &&
            ("type" !in t.others ==> d[VStr("type")] == t.conceptType) &&
            ("id" !in t.others ==> d[VStr("id")] == VStr(t.id)) &&
            ("name" !in t.others ==> d[VStr("name")] == VStr(t.name)) &&
            ("children" !in t.others ==> d[VStr("children")].VList?)
  {
    var others := PropertyEntries(t.others);
    forall k | k in t.others
      ensures Render(t).entries[VStr(k)] == t.others[k]
    {
      assert VStr(k) in others;
    }
    assert VStr("type") in others ==> "type" in t.others;
    assert VStr("id") in others ==> "id" in t.others;
    assert VStr("name") in others ==> "name" in t.others;
    assert VStr("children") in others ==> "children" in t.others;
  }

  /** The dict rendered from a concept's walk shows that concept, with its
   *  properties written over the fixed keys. */
  lemma RenderShows(g: Graph, c: string, t: Tree)
    requires NodeOf(g, c, t)
    ensures Shows(g, c, Render(t))
  {
    var props := g.concepts[c].properties;
    RenderKeys(t);
    RenderValues(t);
    KeysWithoutType(props);
    assert "type" !in t.others;
    assert forall k :: k in props && k != "type" ==> k in t.others;
    assert forall k :: k in t.others ==> k in props;
  }

  /** A child whose dict keeps "children" lists the dicts of its own
   *  children, one per child walk, in order. */
  lemma RenderLists(t: Tree)
    requires "children" !in t.others
    ensures Render(t).entries[VStr("children")] == VList(RenderAll(t.children))
  {
    assert VStr("children") !in PropertyEntries(t.others);
  }

  /** `get_concept_hierarchy`: ValueError for an unknown root; otherwise the
   *  dict rendered from the walk built from the root. */
  function Hierarchy(g: Graph, root: string): (r: Result<Value>)
    ensures root !in g.concepts ==> r == Err(ValueError)
    ensures r.Ok? ==> Shows(g, root, r.value)
    ensures r.Ok? <==> HierarchyTree(g, root).Ok?
    ensures r.Ok? ==> r.value == Render(HierarchyTree(g, root).value)
    ensures Valid(g) && root in g.concepts ==> r.Ok?
  {
    var tree := HierarchyTree(g, root);
    if tree.Err? then Err(tree.error)
    else
      RenderShows(g, root, tree.value);
      Ok(Render(tree.value))
  }

  /** A property named "name" replaces the concept's name in the hierarchy,
   *  and one named "children" replaces the list of sub-hierarchies. */
  lemma PropertiesOverride(g: Graph, root: string)
    requires Hierarchy(g, root).Ok?
    ensures var props := g.concepts[root].properties;
            var d := Hierarchy(g, root).value.entries;
            ("name" in props ==> d[VStr("name")] == props["name"]) &&
            ("children" in props ==> d[VStr("children")] == props["children"]) &&
            ("id" in props ==> d[VStr("id")] == props["id"])
  {
  }

  // ---------------------------------------------------------------------
  // The class

  /** The first loop of `remove_concept`: the IDs of the relations from or
   *  to `c`, in order. */
  method CollectTouching(es: Entries, c: string) returns (doomed: seq<string>)
    ensures doomed == TouchingIds(es, c)
  {
    doomed := [];
    for i := 0 to |es|
      invariant doomed == TouchingIds(es[..i], c)
    {
      assert es[..i + 1][..i] == es[..i];
      if es[i].1.source == c || es[i].1.target == c {
        doomed := doomed + [es[i].0];
      }
    }
    assert es[..|es|] == es;
  }

  /** The second loop of `remove_concept`: `del relations[id]` for each ID. */
  method DeleteAll(es: Entries, doomed: seq<string>) returns (r: Entries)
    ensures r == FilterIds(es, ToSet(doomed))
  {
    r := es;
    FilterNothing(es);
    assert doomed[..0] == [];
    for k := 0 to |doomed|
      invariant r == FilterIds(es, ToSet(doomed[..k]))
    {
      DeleteStep(es, doomed, k);
      r := RemoveId(r, doomed[k]);
    }
    assert doomed[..|doomed|] == doomed;
  }

  /** Deleting one more ID filters out one more ID. */
  lemma DeleteStep(es: Entries, doomed: seq<string>, k: nat)
    requires k < |doomed|
    ensures RemoveId(FilterIds(es, ToSet(doomed[..k])), doomed[k]) == FilterIds(es, ToSet(doomed[..k + 1]))
  {
    var gone := ToSet(doomed[..k]);
    RemoveAfterFilter(es, gone, doomed[k]);
    assert doomed[..k + 1] == doomed[..k] + [doomed[k]];
    assert ToSet(doomed[..k + 1]) == gone + {doomed[k]};
  }

  class RelationGraph {
    var concepts: map<string, Concept>
    var relations: Entries

    constructor ()
      ensures concepts == map[] && relations == []
    {
      concepts := map[];
      relations := [];
    }

    function State(): Graph
      reads this
    {
      Graph(concepts, relations)
    }

    /** `add_concept`; `freshId` is the generated UUID. The name check walks
     *  the stored concepts. */
    method AddConcept(name: string, props: Props, freshId: string) returns (r: Result<string>)
      modifies this
      ensures (r, State()) == AddConceptStep(old(State()), name, props, freshId)
    {
      if "type" !in props {
        return Err(ValueError);
      }
      if !Hashable(props["type"]) {
        return Err(TypeError);
      }
      if props["type"] !in ConceptTypes {
        return Err(ValueError);
      }
      var pending := concepts.Keys;
      while pending != {}
        invariant pending <= concepts.Keys
        invariant forall k :: k in concepts && k !in pending ==> concepts[k].name != name
        decreases pending
      {
        var k :| k in pending;
        if concepts[k].name == name {
          return Err(ValueError);
        }
        pending := pending - {k};
      }
      concepts := concepts[freshId := Concept(name, props)];
      return Ok(freshId);
    }

    /** `add_relation`; `freshId` is the generated UUID. */
    method AddRelation(source: string, target: string, relType: string, props: Props, freshId: string)
      returns (r: Result<string>)
      modifies this
      ensures (r, State()) == AddRelationStep(old(State()), source, target, relType, props, freshId)
    {
      if relType !in RelationTypes {
        return Err(ValueError);
      }
      if source !in concepts {
        return Err(ValueError);
      }
      if target !in concepts {
        return Err(ValueError);
      }
      relations := Put(relations, freshId, Relation(source, target, relType, props));
      return Ok(freshId);
    }

    function GetConcept(id: string): (r: Result<Concept>)
      reads this
      ensures r.Ok? <==> id in concepts
      ensures r.Ok? ==> r.value == concepts[id]
    {
      if id !in concepts then Err(ValueError) else Ok(concepts[id])
    }

    function GetRelation(id: string): (r: Result<Relation>)
      reads this
      ensures r.Ok? <==> id in Ids(relations)
      ensures r.Ok? ==> (id, r.value) in relations
    {
      match Lookup(relations, id)
      case None => Err(ValueError)
      case Some(rel) => Ok(rel)
    }

    /** `get_related_concepts`: ValueError for an unknown concept; otherwise,
     *  relation by relation, the target of a relation from the concept or
     *  the source of one into it. */
    method GetRelatedConcepts(id: string) returns (r: Result<seq<string>>)
      ensures r.Err? <==> id !in concepts
      ensures r.Ok? ==> r.value == GraphSearch.Neighbours(Edges(relations), id)
      ensures r.Ok? ==> forall y :: y in r.value <==>
                exists e :: e in relations && ((e.1.source == id && e.1.target == y) || (e.1.source == y && e.1.target == id))
    {
      if id !in concepts {
        return Err(ValueError);
      }
      var edges := Edges(relations);
      var related := [];
      for i := 0 to |relations|
        invariant related == GraphSearch.Neighbours(edges[..i], id)
      {
        assert edges[..i + 1][..i] == edges[..i];
        var rel := relations[i].1;
        if rel.source == id {
          related := related + [rel.target];
        } else if rel.target == id {
          related := related + [rel.source];
        }
      }
      assert edges[..|relations|] == edges;
      forall y
        ensures y in related <==>
                exists e :: e in relations && ((e.1.source == id && e.1.target == y) || (e.1.source == y && e.1.target == id))
      {
        EdgesMember(relations, id, y);
        EdgesMember(relations, y, id);
      }
      return Ok(related);
    }

    method UpdateConcept(id: string, props: Props) returns (o: Outcome)
      modifies this
      ensures (o, State()) == UpdateConceptStep(old(State()), id, props)
    {
      if id !in concepts {
        return Fail(ValueError);
      }
      var c := concepts[id];
      concepts := concepts[id := c.(properties := c.properties + props)];
      return Pass;
    }

    /** `remove_concept`: collects the IDs of the relations touching the
     *  concept, deletes them one by one, then deletes the concept. */
    method RemoveConcept(id: string) returns (o: Outcome)
      requires DistinctIds(relations)
      modifies this
      ensures (o, State()) == RemoveConceptStep(old(State()), id)
    {
      if id !in concepts {
        return Fail(ValueError);
      }
      var doomed := CollectTouching(relations, id);
      relations := DeleteAll(relations, doomed);
      FilterTouching(old(relations), id, ToSet(doomed));
      concepts := concepts - {id};
      return Pass;
    }

    function GetConceptHierarchy(root: string): (r: Result<Value>)
      reads this
      ensures root !in concepts ==> r == Err(ValueError)
      ensures r.Ok? ==> Shows(State(), root, r.value)
      ensures r.Ok? ==> HierarchyTree(State(), root).Ok? && r.value == Render(HierarchyTree(State(), root).value)
      ensures Valid(State()) && root in concepts ==> r.Ok?
    {
      Hierarchy(State(), root)
    }

    /** `find_path`: the breadth-first search over relations read in both
     *  directions, expanding a concept by its related concepts; being
     *  breadth-first, the path it returns is a shortest one. */
    method FindPath(source: string, target: string) returns (r: Result<seq<string>>)
      ensures source !in concepts || target !in concepts ==> r == Err(ValueError)
      ensures r.Err? ==> r.error == ValueError
      ensures r.Ok? ==> IsWalk(Undirected(Edges(relations)), r.value) &&
                        r.value[0] == source && r.value[|r.value| - 1] == target
      ensures r.Ok? ==> GraphSearch.Shortest(Undirected(Edges(relations)), source, target, r.value)
      ensures source == target && source in concepts ==> r == Ok([source])
      ensures Valid(State()) && source in concepts && target in concepts ==>
                (r.Ok? <==> Reaches(Undirected(Edges(relations)), source, target))
    {
      if source !in concepts || target !in concepts {
        return Err(ValueError);
      }
      var edges := Edges(relations);
      var known := concepts.Keys;
      r := GraphSearch.Search(edges, x => if x in known then Ok(GraphSearch.Neighbours(edges, x)) else Err(ValueError), source, target);
      if Valid(State()) {
        forall x | Reaches(Undirected(edges), source, x)
          ensures x in known
        {
          GraphSearch.ReachStaysIn(edges, known, source, x);
        }
      }
    }
  }
}
