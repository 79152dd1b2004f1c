/** `FeatureGraph`: named, typed features of a discipline and typed
 *  relations between them; removing a feature cascades to its relations,
 *  and two read-only analyses count the features by type and collect the
 *  correlation strengths between pairs of features. */
module FeatureGraphs {
  import opened Wrappers
  import opened PyValue
  import opened Digraph
  import RG = RelationGraphs
  import GraphSearch
  import Tally

  type Props = map<string, Value>

  /** A stored feature: its name and its property dict (which holds "type"). */
  datatype Feature = Feature(name: string, properties: Props)

  /** The state of a `FeatureGraph`: the `features` dict, the order in which
   *  its keys were inserted, and the `relations` dict as its items in
   *  insertion order. */
  datatype Graph = Graph(features: map<string, Feature>, order: seq<string>, relations: RG.Entries)

  const FeatureTypes: set<Value> := {VStr("metric"), VStr("property"), VStr("attribute")}
  const RelationTypes: set<string> := {"trade_off", "correlation", "dependency"}

  // ---------------------------------------------------------------------
  // The key order of the features dict

  predicate Distinct(s: seq<string>) {
    forall i, j :: 0 <= i < j < |s| ==> s[i] != s[j]
  }

  /** `order` lists every key of `features` once. */
  predicate Listed(features: map<string, Feature>, order: seq<string>) {
    Distinct(order) && (forall id :: id in order ==> id in features) && (forall id :: id in features ==> id in order)
  }

  /** `features[id] = ...`: a new key goes last, an existing one keeps its place. */
  function Inserted(order: seq<string>, id: string): (r: seq<string>)
    ensures forall x :: x in r <==> x in order || x == id
    ensures Distinct(order) ==> Distinct(r)
  {
    if id in order then order else order + [id]
  }

  /** `del features[id]` */
  function Deleted(order: seq<string>, id: string): (r: seq<string>)
    ensures forall x :: x in r <==> x in order && x != id
    ensures Distinct(order) ==> Distinct(r)
    decreases order
  {
    if order == [] then []
    else
      var rest := Deleted(order[1..], id);
      assert forall x :: x in order <==> x == order[0] || x in order[1..];
      assert Distinct(order) ==> Distinct(order[1..]) && order[0] !in order[1..];
      if order[0] == id then rest else [order[0]] + rest
  }

  lemma {:induction false} DistinctCard(s: seq<string>)
    requires Distinct(s)
    ensures |ToSet(s)| == |s|
  {
    if s != [] {
      assert Distinct(s[1..]);
      DistinctCard(s[1..]);
      assert s[0] !in ToSet(s[1..]);
    }
  }

  /** The key list is as long as the dict. */
  lemma ListedSize(features: map<string, Feature>, order: seq<string>)
    requires Listed(features, order)
    ensures |order| == |features|
  {
    DistinctCard(order);
    assert features.Keys == ToSet(order);
  }

  // ---------------------------------------------------------------------
  // The graph's invariant

  /** No two features share a name. */
  predicate UniqueNames(features: map<string, Feature>) {
    forall k, l :: k in features && l in features && features[k].name == features[l].name ==> k == l
  }

  /** The key order matches the dict, relation IDs are unique, every
   *  relation joins two stored features and no two features share a name. */
  predicate Valid(g: Graph) {
    Listed(g.features, g.order) && RG.DistinctIds(g.relations) &&
    GraphSearch.EndpointsIn(RG.Edges(g.relations), g.features.Keys) && UniqueNames(g.features)
  }

  // ---------------------------------------------------------------------
  // Operations on the state

  /** The type check of `add_feature`: a missing type or one outside the
   *  feature types raises ValueError; an unhashable one makes the set
   *  membership test raise TypeError. */
  function FeatureTypeCheck(props: Props): (o: Outcome)
    ensures o.Pass? <==> "type" in props && props["type"] in FeatureTypes
    ensures o.Fail? ==> o.error == (if "type" in props && !Hashable(props["type"]) then TypeError else ValueError)
  {
    if "type" !in props then Fail(ValueError)
    else if !Hashable(props["type"]) then Fail(TypeError)
    else if props["type"] !in FeatureTypes then Fail(ValueError)
    else Pass
  }

  predicate NameTaken(features: map<string, Feature>, name: string) {
    exists k :: k in features && features[k].name == name
  }

  /** `add_feature`, with `freshId` standing for the generated UUID. */
  function AddFeatureStep(g: Graph, name: string, props: Props, freshId: string): (Result<string>, Graph) {
    var checked := FeatureTypeCheck(props);
    if checked.Fail? then (Err(checked.error), g)
    else if NameTaken(g.features, name) then (Err(ValueError), g)
    else (Ok(freshId), g.(features := g.features[freshId := Feature(name, props)], order := Inserted(g.order, freshId)))
  }

  /** `add_feature_relation`, with `freshId` standing for the generated
   *  UUID: an invalid type, then an unknown source, then an unknown target
   *  raise ValueError. */
  function AddRelationStep(g: Graph, source: string, target: string, relType: string, props: Props, freshId: string): (Result<string>, Graph) {
    if relType !in RelationTypes || source !in g.features || target !in g.features then (Err(ValueError), g)
    else (Ok(freshId), g.(relations := RG.Put(g.relations, freshId, RG.Relation(source, target, relType, props))))
  }

  /** `update_feature`: `dict.update` of the feature's properties. */
  function UpdateFeatureStep(g: Graph, id: string, props: Props): (Outcome, Graph) {
    if id !in g.features then (Fail(ValueError), g)
    else
      var f := g.features[id];
      (Pass, g.(features := g.features[id := f.(properties := f.properties + props)]))
  }

  /** `remove_feature`: ValueError for an unknown feature; otherwise every
   *  relation touching it goes, then the feature. */
  function RemoveFeatureStep(g: Graph, id: string): (Outcome, Graph) {
    if id !in g.features then (Fail(ValueError), g)
    else (Pass, Graph(g.features - {id}, Deleted(g.order, id), RG.Keep(g.relations, id)))
  }

  /** `add_feature` succeeds exactly for a valid type and an unused name, and
   *  then stores the feature under the new ID. */
  lemma AddFeatureChecks(g: Graph, name: string, props: Props, freshId: string)
    ensures var (r, g') := AddFeatureStep(g, name, props, freshId);
            (r.Ok? <==> "type" in props && props["type"] in FeatureTypes && !NameTaken(g.features, name)) &&
            (r.Err? ==> g' == g) &&
            (r.Ok? ==> r.value == freshId && g'.features[freshId] == Feature(name, props) &&
                       g'.relations == g.relations &&
                       forall k :: k in g.features && k != freshId ==> g'.features[k] == g.features[k])
  {
  }

  /** `add_feature_relation` succeeds exactly for a valid type between two
   *  stored features, and the relation is then found under its new ID. */
  lemma AddRelationChecks(g: Graph, source: string, target: string, relType: string, props: Props, freshId: string)
    requires RG.DistinctIds(g.relations)
    ensures var (r, g') := AddRelationStep(g, source, target, relType, props, freshId);
            (r.Ok? <==> relType in RelationTypes && source in g.features && target in g.features) &&
            (r.Err? ==> g' == g) &&
            (r.Ok? ==> r.value == freshId && g'.features == g.features && g'.order == g.order &&
                       RG.Lookup(g'.relations, freshId) == Some(RG.Relation(source, target, relType, props)) &&
                       forall e :: e in g.relations && e.0 != freshId ==> e in g'.relations)
  {
  }

  /** After `remove_feature` no relation touches the removed feature, and
   *  every relation that did not touch it is kept. */
  lemma RemoveFeatureCascades(g: Graph, id: string)
    ensures RemoveFeatureStep(g, id).0.Pass? <==> id in g.features
    ensures RemoveFeatureStep(g, id).0.Fail? ==> RemoveFeatureStep(g, id).1 == g
    ensures var (o, g') := RemoveFeatureStep(g, id);
            o.Pass? ==> id !in g'.features && id !in g'.order &&
                        (forall e :: e in g'.relations ==> e.1.source != id && e.1.target != id) &&
                        forall e :: e in g.relations && !RG.Touches(e.1, id) ==> e in g'.relations
  {
  }

  /** `update_feature` merges the new properties over the old ones and keeps
   *  the feature's name and every other feature. */
  lemma UpdateFeatureMerges(g: Graph, id: string, props: Props)
    ensures UpdateFeatureStep(g, id, props).0.Pass? <==> id in g.features
    ensures var (o, g') := UpdateFeatureStep(g, id, props);
            o.Pass? ==> g'.features.Keys == g.features.Keys && g'.order == g.order && g'.relations == g.relations &&
                        g'.features[id].name == g.features[id].name &&
                        (forall k :: k in props ==> g'.features[id].properties[k] == props[k]) &&
                        (forall k :: k in g.features[id].properties && k !in props ==>
                           g'.features[id].properties[k] == g.features[id].properties[k]) &&
                        (forall k :: k in g.features && k != id ==> g'.features[k] == g.features[k])
  {
  }

  lemma AddsKeepValid(g: Graph, name: string, props: Props, source: string, target: string, relType: string, freshId: string)
    requires Valid(g)
    ensures Valid(AddFeatureStep(g, name, props, freshId).1)
    ensures Valid(AddRelationStep(g, source, target, relType, props, freshId).1)
  {
    var g1 := AddFeatureStep(g, name, props, freshId).1;
    if g1 != g {
      forall x, y | (x, y) in RG.Edges(g1.relations)
        ensures x in g1.features && y in g1.features
      {
        RG.EdgesMember(g.relations, x, y);
      }
    }
    var g2 := AddRelationStep(g, source, target, relType, props, freshId).1;
    if g2 != g {
      forall e | e in RG.Edges(g2.relations)
        ensures e.0 in g2.features && e.1 in g2.features
      {
        RG.EdgesMember(g2.relations, e.0, e.1);
        RG.EdgesMember(g.relations, e.0, e.1);
      }
    }
  }

  lemma ChangesKeepValid(g: Graph, id: string, props: Props)
    requires Valid(g)
    ensures Valid(UpdateFeatureStep(g, id, props).1)
    ensures Valid(RemoveFeatureStep(g, id).1)
  {
    var g1 := RemoveFeatureStep(g, id).1;
    if g1 != g {
      forall e | e in RG.Edges(g1.relations)
        ensures e.0 in g1.features && e.1 in g1.features
      {
        RG.EdgesMember(g1.relations, e.0, e.1);
        RG.EdgesMember(g.relations, e.0, e.1);
      }
    }
  }

  // ---------------------------------------------------------------------
  // Statistics

  /** `feature["properties"]["type"]` used as a dict key: a missing type
   *  raises KeyError, an unhashable one TypeError. */
  function TypeOf(f: Feature): (r: Result<Value>)
    ensures r.Ok? <==> "type" in f.properties && Hashable(f.properties["type"])
    ensures r.Ok? ==> r.value == f.properties["type"]
  {
    if "type" !in f.properties then Err(KeyError)
    else if !Hashable(f.properties["type"]) then Err(TypeError)
    else Ok(f.properties["type"])
  }

  /** The type-distribution loop of `get_feature_statistics` over the
   *  features `ids`, in order. */
  function TypeCounts(features: map<string, Feature>, ids: seq<string>): Result<Tally.Counter<Value>>
    requires forall id :: id in ids ==> id in features
  {
    if ids == [] then Ok([])
    else
      var init :- TypeCounts(features, ids[..|ids| - 1]);
      var t :- TypeOf(features[ids[|ids| - 1]]);
      Ok(Tally.Bump(init, t))
  }

  /** How many of the features `ids` have type `t`. */
  function CountOfType(features: map<string, Feature>, ids: seq<string>, t: Value): nat
    requires forall id :: id in ids ==> id in features
  {
    if ids == [] then 0
    else
      var p := features[ids[|ids| - 1]].properties;
      CountOfType(features, ids[..|ids| - 1], t) + (if "type" in p && p["type"] == t then 1 else 0)
  }

  /** The counts fail exactly when some feature has no type or an
   *  unhashable one; otherwise they add up to the number of features and
   *  give, for each type, how many features have it. */
  lemma {:induction false} TypeCountsAddUp(features: map<string, Feature>, ids: seq<string>)
    requires forall id :: id in ids ==> id in features
    ensures TypeCounts(features, ids).Ok? <==>
            forall id :: id in ids ==> "type" in features[id].properties && Hashable(features[id].properties["type"])
    ensures TypeCounts(features, ids).Ok? ==>
              Tally.Total(TypeCounts(features, ids).value) == |ids| &&
              forall t :: Tally.Get(TypeCounts(features, ids).value, t) == CountOfType(features, ids, t)
  {
    if ids != [] {
      var init := ids[..|ids| - 1];
      var last := ids[|ids| - 1];
      assert forall id :: id in ids <==> id in init || id == last by {
        assert ids == init + [last];
      }
      TypeCountsAddUp(features, init);
      var c := TypeCounts(features, init);
      if c.Ok? && TypeOf(features[last]).Ok? {
        var t := TypeOf(features[last]).value;
        Tally.BumpTotal(c.value, t);
        forall u
          ensures Tally.Get(Tally.Bump(c.value, t), u) == CountOfType(features, ids, u)
        {
          Tally.BumpGet(c.value, t, u);
        }
      }
    }
  }

  /** `min(current, value)`: `value` replaces `current` only when smaller. */
  function Min(current: Value, value: Value): Result<Value> {
    var less :- LessThan(value, current);
    Ok(if less then value else current)
  }

  /** `max(current, value)`: `value > current`, evaluated as
   *  `current < value`, decides. */
  function Max(current: Value, value: Value): Result<Value> {
    var greater :- LessThan(current, value);
    Ok(if greater then value else current)
  }

  type Ranges = map<Value, (Value, Value)>

  /** The value-range loop of `get_feature_statistics`: for each feature
   *  with a "value", the smallest and largest value seen for its type. */
  function ValueRanges(features: map<string, Feature>, ids: seq<string>): Result<Ranges>
    requires forall id :: id in ids ==> id in features
  {
    if ids == [] then Ok(map[])
    else
      var init :- ValueRanges(features, ids[..|ids| - 1]);
      var p := features[ids[|ids| - 1]].properties;
      if "value" !in p then Ok(init)
      else
        var t :- TypeOf(features[ids[|ids| - 1]]);
        Widen(init, t, p["value"])
  }

  /** One feature's value folded into the ranges of its type. */
  function Widen(ranges: Ranges, t: Value, v: Value): Result<Ranges> {
    if t !in ranges then Ok(ranges[t := (v, v)])
    else
      var lo :- Min(ranges[t].0, v);
      var hi :- Max(ranges[t].1, v);
      Ok(ranges[t := (lo, hi)])
  }

  /** On numbers, widening keeps the other types and stretches the range of
   *  `t` just enough to take in `v`. */
  lemma WidenBounds(ranges: Ranges, t: Value, v: Value)
    requires IsNumber(v) && forall u :: u in ranges ==> IsNumber(ranges[u].0) && IsNumber(ranges[u].1)
    ensures Widen(ranges, t, v).Ok?
    ensures var r := Widen(ranges, t, v).value;
            r.Keys == ranges.Keys + {t} && IsNumber(r[t].0) && IsNumber(r[t].1) &&
            NumberOf(r[t].0) <= NumberOf(v) <= NumberOf(r[t].1) &&
            (t in ranges ==> NumberOf(r[t].0) <= NumberOf(ranges[t].0) && NumberOf(ranges[t].1) <= NumberOf(r[t].1)) &&
            forall u :: u in ranges && u != t ==> r[u] == ranges[u]
  {
  }

  /** The types of the features among `ids` that have a value. */
  function ValuedTypes(features: map<string, Feature>, ids: seq<string>): set<Value>
    requires forall id :: id in ids ==> id in features && "type" in features[id].properties
  {
    set id | id in ids && "value" in features[id].properties :: features[id].properties["type"]
  }

  /** With numeric values the ranges are computed, hold numbers, and have
   *  one entry for each type of a feature with a value. */
  lemma {:induction false} RangesKeys(features: map<string, Feature>, ids: seq<string>)
    requires forall id :: id in ids ==> id in features && "type" in features[id].properties
    requires forall id :: id in ids ==> Hashable(features[id].properties["type"])
    requires forall id :: id in ids && "value" in features[id].properties ==> IsNumber(features[id].properties["value"])
    ensures ValueRanges(features, ids).Ok?
    ensures ValueRanges(features, ids).value.Keys == ValuedTypes(features, ids)
    ensures var r := ValueRanges(features, ids).value;
            forall t :: t in r ==> IsNumber(r[t].0) && IsNumber(r[t].1)
  {
    if ids != [] {
      var init := ids[..|ids| - 1];
      var last := ids[|ids| - 1];
      assert forall id :: id in ids <==> id in init || id == last by {
        assert ids == init + [last];
      }
      RangesKeys(features, init);
      var p := features[last].properties;
      if "value" in p {
        WidenBounds(ValueRanges(features, init).value, p["type"], p["value"]);
        assert ValuedTypes(features, ids) == ValuedTypes(features, init) + {p["type"]};
      } else {
        assert ValuedTypes(features, ids) == ValuedTypes(features, init);
      }
    }
  }

  /** With numeric values, the range of each type bounds every value of
   *  that type from below and above. */
  lemma {:induction false} RangesBound(features: map<string, Feature>, ids: seq<string>)
    requires forall id :: id in ids ==> id in features && "type" in features[id].properties
    requires forall id :: id in ids ==> Hashable(features[id].properties["type"])
    requires forall id :: id in ids && "value" in features[id].properties ==> IsNumber(features[id].properties["value"])
    ensures ValueRanges(features, ids).Ok?
    ensures var r := ValueRanges(features, ids).value;
            forall id :: id in ids && "value" in features[id].properties ==>
              var p := features[id].properties;
              p["type"] in r && IsNumber(r[p["type"]].0) && IsNumber(r[p["type"]].1) &&
              NumberOf(r[p["type"]].0) <= NumberOf(p["value"]) <= NumberOf(r[p["type"]].1)
  {
    RangesKeys(features, ids);
    if ids != [] {
      var init := ids[..|ids| - 1];
      var last := ids[|ids| - 1];
      assert forall id :: id in ids <==> id in init || id == last by {
        assert ids == init + [last];
      }
      RangesBound(features, init);
      RangesKeys(features, init);
      var r0 := ValueRanges(features, init).value;
      var p := features[last].properties;
      if "value" in p {
        WidenBounds(r0, p["type"], p["value"]);
        var r := ValueRanges(features, ids).value;
        assert r == Widen(r0, p["type"], p["value"]).value;
        forall id | id in ids && "value" in features[id].properties
          ensures var q := features[id].properties;
                  q["type"] in r && IsNumber(r[q["type"]].0) && IsNumber(r[q["type"]].1) &&
                  NumberOf(r[q["type"]].0) <= NumberOf(q["value"]) <= NumberOf(r[q["type"]].1)
        {
          if id != last {
            assert id in init;
          }
        }
      } else {
        assert ValueRanges(features, ids).value == r0;
      }
    }
  }

  /** What `get_feature_statistics` returns. */
  datatype Statistics = Statistics(totalFeatures: nat, featureTypes: Tally.Counter<Value>, valueRanges: Ranges)

  function StatisticsOf(g: Graph): Result<Statistics>
    requires Listed(g.features, g.order)
  {
    var counts :- TypeCounts(g.features, g.order);
    var ranges :- ValueRanges(g.features, g.order);
    Ok(Statistics(|g.features|, counts, ranges))
  }

  /** The per-type counts add up to `total_features`. */
  lemma StatisticsAddUp(g: Graph)
    requires Listed(g.features, g.order)
    ensures StatisticsOf(g).Ok? ==> Tally.Total(StatisticsOf(g).value.featureTypes) == StatisticsOf(g).value.totalFeatures
    ensures StatisticsOf(g).Ok? ==>
              forall t :: Tally.Get(StatisticsOf(g).value.featureTypes, t) == CountOfType(g.features, g.order, t)
  {
    TypeCountsAddUp(g.features, g.order);
    ListedSize(g.features, g.order);
  }

  /** For features whose types are hashable and whose values are numbers,
   *  the statistics are computed, and the value range of each type bounds
   *  every value of a feature of that type. */
  lemma StatisticsRangesBound(g: Graph)
    requires Listed(g.features, g.order)
    requires forall id :: id in g.features ==> "type" in g.features[id].properties
    requires forall id :: id in g.features ==> Hashable(g.features[id].properties["type"])
    requires forall id :: id in g.features && "value" in g.features[id].properties ==>
               IsNumber(g.features[id].properties["value"])
    ensures StatisticsOf(g).Ok?
    ensures StatisticsOf(g).value.valueRanges.Keys == ValuedTypes(g.features, g.order)
    ensures var r := StatisticsOf(g).value.valueRanges;
            forall id :: id in g.features && "value" in g.features[id].properties ==>
              var p := g.features[id].properties;
              p["type"] in r && IsNumber(r[p["type"]].0) && IsNumber(r[p["type"]].1) &&
              NumberOf(r[p["type"]].0) <= NumberOf(p["value"]) <= NumberOf(r[p["type"]].1)
  {
    TypeCountsAddUp(g.features, g.order);
    RangesKeys(g.features, g.order);
    RangesBound(g.features, g.order);
  }

  // ---------------------------------------------------------------------
  // Correlations

  /** The relation joins `a` and `b`, in either direction. */
  predicate Joins(rel: RG.Relation, a: string, b: string) {
    (rel.source == a && rel.target == b) || (rel.source == b && rel.target == a)
  }

  predicate IsCorrelation(rel: RG.Relation, a: string, b: string) {
    Joins(rel, a, b) && rel.relType == "correlation"
  }

  /** `relation["properties"].get("strength", 0)` */
  function Strength(rel: RG.Relation): Value {
    if "strength" in rel.properties then rel.properties["strength"] else VInt(0)
  }

  /** The strength of the first correlation joining `a` and `b`; a relation
   *  of another type between them is passed over. */
  function FirstCorrelation(es: RG.Entries, a: string, b: string): Option<Value>
    decreases es
  {
    if es == [] then None
    else if IsCorrelation(es[0].1, a, b) then Some(Strength(es[0].1))
    else FirstCorrelation(es[1..], a, b)
  }

  /** A strength is found exactly when some correlation joins the two
   *  features, and it is the strength of one of them. */
  lemma {:induction false} FirstCorrelationFinds(es: RG.Entries, a: string, b: string)
    ensures FirstCorrelation(es, a, b).Some? <==> exists e :: e in es && IsCorrelation(e.1, a, b)
    ensures FirstCorrelation(es, a, b).Some? ==>
              exists e :: e in es && IsCorrelation(e.1, a, b) && FirstCorrelation(es, a, b).value == Strength(e.1)
    decreases es
  {
    if es != [] && !IsCorrelation(es[0].1, a, b) {
      FirstCorrelationFinds(es[1..], a, b);
      assert forall e :: e in es <==> e == es[0] || e in es[1..];
    }
  }

  lemma FirstCorrelationStep(es: RG.Entries, k: int, a: string, b: string)
    requires 0 <= k < |es|
    ensures FirstCorrelation(es[k..], a, b) ==
            if IsCorrelation(es[k].1, a, b) then Some(Strength(es[k].1)) else FirstCorrelation(es[k + 1..], a, b)
  {
    assert es[k..][1..] == es[k + 1..];
  }

  /** The pairs (ids[i], ids[j]) with i < j that the two loops have visited
   *  before reaching (i, j). */
  function Visited(ids: seq<string>, i: int, j: int): set<(string, string)> {
    set i', j' | 0 <= i' < j' < |ids| && (i' < i || (i' == i && j' < j)) :: (ids[i'], ids[j'])
  }

  /** Every pair of features, the earlier one first. */
  function Pairs(ids: seq<string>): set<(string, string)> {
    set i, j | 0 <= i < j < |ids| :: (ids[i], ids[j])
  }

  /** The correlation strengths of the pairs in `ps` that have one. */
  function StrengthsOf(es: RG.Entries, ps: set<(string, string)>): map<(string, string), Value> {
    map p | p in ps && FirstCorrelation(es, p.0, p.1).Some? :: FirstCorrelation(es, p.0, p.1).value
  }

  /** `analyze_feature_correlations` over the key order `ids`. */
  function Correlations(ids: seq<string>, es: RG.Entries): map<(string, string), Value> {
    StrengthsOf(es, Pairs(ids))
  }

  /** A pair is reported exactly when some correlation joins its two
   *  features, the earlier-inserted one first, and it carries the strength
   *  of the first such relation. */
  lemma CorrelationsOnlyCorrelate(ids: seq<string>, es: RG.Entries, a: string, b: string)
    ensures (a, b) in Correlations(ids, es) <==>
            (exists i, j :: 0 <= i < j < |ids| && ids[i] == a && ids[j] == b) &&
            exists e :: e in es && IsCorrelation(e.1, a, b)
    ensures (a, b) in Correlations(ids, es) ==> Correlations(ids, es)[(a, b)] == FirstCorrelation(es, a, b).value
  {
    FirstCorrelationFinds(es, a, b);
    if exists i, j :: 0 <= i < j < |ids| && ids[i] == a && ids[j] == b {
      var i, j :| 0 <= i < j < |ids| && ids[i] == a && ids[j] == b;
      assert (ids[i], ids[j]) in Pairs(ids);
    }
  }

  /** Every correlation between two distinct stored features is reported
   *  under one orientation of the pair. */
  lemma CorrelationsComplete(g: Graph, e: (string, RG.Relation))
    requires Valid(g) && e in g.relations && e.1.relType == "correlation" && e.1.source != e.1.target
    ensures (e.1.source, e.1.target) in Correlations(g.order, g.relations) ||
            (e.1.target, e.1.source) in Correlations(g.order, g.relations)
  {
    RG.EdgesMember(g.relations, e.1.source, e.1.target);
    var a, b := e.1.source, e.1.target;
    var i :| 0 <= i < |g.order| && g.order[i] == a;
    var j :| 0 <= j < |g.order| && g.order[j] == b;
    if i < j {
      assert IsCorrelation(e.1, a, b);
      CorrelationsOnlyCorrelate(g.order, g.relations, a, b);
    } else {
      assert IsCorrelation(e.1, b, a);
      CorrelationsOnlyCorrelate(g.order, g.relations, b, a);
    }
  }

  lemma VisitedStart(ids: seq<string>)
    ensures Visited(ids, 0, 1) == {}
  {
  }

  lemma VisitedNext(ids: seq<string>, i: int, j: int)
    requires 0 <= i < j < |ids|
    ensures Visited(ids, i, j + 1) == Visited(ids, i, j) + {(ids[i], ids[j])}
  {
  }

  lemma VisitedRow(ids: seq<string>, i: int)
    requires 0 <= i
    ensures Visited(ids, i, |ids|) == Visited(ids, i + 1, i + 2)
  {
  }

  lemma VisitedAll(ids: seq<string>)
    ensures Visited(ids, |ids|, |ids| + 1) == Pairs(ids)
  {
  }

  lemma StrengthsAdd(es: RG.Entries, ps: set<(string, string)>, p: (string, string), v: Option<Value>)
    requires v == FirstCorrelation(es, p.0, p.1)
    ensures StrengthsOf(es, ps + {p}) == if v.Some? then StrengthsOf(es, ps)[p := v.value] else StrengthsOf(es, ps)
  {
  }

  // ---------------------------------------------------------------------
  // The class

  /** The innermost loop of `analyze_feature_correlations`: the first
   *  correlation between the two features, stopping at it. */
  method FindCorrelation(es: RG.Entries, a: string, b: string) returns (r: Option<Value>)
    ensures r == FirstCorrelation(es, a, b)
  {
    var k := 0;
    while k < |es|
      invariant k <= |es|
      invariant FirstCorrelation(es, a, b) == FirstCorrelation(es[k..], a, b)
    {
      var rel := es[k].1;
      FirstCorrelationStep(es, k, a, b);
      if (rel.source == a && rel.target == b) || (rel.source == b && rel.target == a) {
        if rel.relType == "correlation" {
          return Some(Strength(rel));
        }
      }
      k := k + 1;
    }
    return None;
  }

  class FeatureGraph {
    var features: map<string, Feature>
    var order: seq<string>
    var relations: RG.Entries

    constructor ()
      ensures features == map[] && order == [] && relations == []
    {
      features := map[];
      order := [];
      relations := [];
    }

    function State(): Graph
      reads this
    {
      Graph(features, order, relations)
    }

    /** `add_feature`; `freshId` is the generated UUID. The name check walks
     *  the stored features. */
    method AddFeature(name: string, props: Props, freshId: string) returns (r: Result<string>)
      modifies this
      ensures (r, State()) == AddFeatureStep(old(State()), name, props, freshId)
    {
      if "type" !in props {
        return Err(ValueError);
      }
      if !Hashable(props["type"]) {
        return Err(TypeError);
      }
      if props["type"] !in FeatureTypes {
        return Err(ValueError);
      }
      var pending := features.Keys;
      while pending != {}
        invariant pending <= features.Keys
        invariant forall k :: k in features && k !in pending ==> features[k].name != name
        decreases pending
      {
        var k :| k in pending;
        if features[k].name == name {
          return Err(ValueError);
        }
        pending := pending - {k};
      }
      order := Inserted(order, freshId);
      features := features[freshId := Feature(name, props)];
      return Ok(freshId);
    }

    /** `add_feature_relation`; `freshId` is the generated UUID. */
    method AddFeatureRelation(source: string, target: string, relType: string, props: Props, freshId: string)
      returns (r: Result<string>)
      modifies this
      ensures (r, State()) == AddRelationStep(old(State()), source, target, relType, props, freshId)
    {
      if relType !in RelationTypes {
        return Err(ValueError);
      }
      if source !in features {
        return Err(ValueError);
      }
      if target !in features {
        return Err(ValueError);
      }
      relations := RG.Put(relations, freshId, RG.Relation(source, target, relType, props));
      return Ok(freshId);
    }

    function GetFeature(id: string): (r: Result<Feature>)
      reads this
      ensures r.Ok? <==> id in features
      ensures r.Ok? ==> r.value == features[id]
      ensures r.Err? ==> r.error == ValueError
    {
      if id !in features then Err(ValueError) else Ok(features[id])
    }

    function GetFeatureRelation(id: string): (r: Result<RG.Relation>)
      reads this
      ensures r.Ok? <==> id in RG.Ids(relations)
      ensures r.Ok? ==> (id, r.value) in relations
      ensures r.Err? ==> r.error == ValueError
    {
      match RG.Lookup(relations, id)
      case None => Err(ValueError)
      case Some(rel) => Ok(rel)
    }

    /** `get_related_features`: ValueError for an unknown feature; otherwise,
     *  relation by relation, the target of a relation from the feature or
     *  the source of one into it. */
    method GetRelatedFeatures(id: string) returns (r: Result<seq<string>>)
      ensures r.Err? <==> id !in features
      ensures r.Ok? ==> r.value == GraphSearch.Neighbours(RG.Edges(relations), id)
      ensures r.Ok? ==> forall y :: y in r.value <==> exists e :: e in relations && Joins(e.1, id, y)
    {
      if id !in features {
        return Err(ValueError);
      }
      var edges := RG.Edges(relations);
      var related := [];
      for i := 0 to |relations|
        invariant related == GraphSearch.Neighbours(edges[..i], id)
      {
        assert edges[..i + 1][..i] == edges[..i];
        var rel := relations[i].1;
        if rel.source == id {
          related := related + [rel.target];
        } else if rel.target == id {
          related := related + [rel.source];
        }
      }
      assert edges[..|relations|] == edges;
      forall y
        ensures y in related <==> exists e :: e in relations && Joins(e.1, id, y)
      {
        RG.EdgesMember(relations, id, y);
        RG.EdgesMember(relations, y, id);
      }
      return Ok(related);
    }

    method UpdateFeature(id: string, props: Props) returns (o: Outcome)
      modifies this
      ensures (o, State()) == UpdateFeatureStep(old(State()), id, props)
    {
      if id !in features {
        return Fail(ValueError);
      }
      var f := features[id];
      features := features[id := f.(properties := f.properties + props)];
      return Pass;
    }

    /** `remove_feature`: collects the IDs of the relations touching the
     *  feature, deletes them one by one, then deletes the feature. */
    method RemoveFeature(id: string) returns (o: Outcome)
      requires RG.DistinctIds(relations)
      modifies this
      ensures (o, State()) == RemoveFeatureStep(old(State()), id)
    {
      if id !in features {
        return Fail(ValueError);
      }
      var doomed := RG.CollectTouching(relations, id);
      relations := RG.DeleteAll(relations, doomed);
      RG.FilterTouching(old(relations), id, ToSet(doomed));
      features := features - {id};
      order := Deleted(order, id);
      return Pass;
    }

    /** `get_feature_statistics`: the number of features, the count of each
     *  type, then the value range of each type. */
    method GetFeatureStatistics() returns (r: Result<Statistics>)
      requires Listed(features, order)
      ensures r == StatisticsOf(State())
    {
      var counts := CountTypes(features, order);
      if counts.Err? {
        return Err(counts.error);
      }
      TypeCountsAddUp(features, order);
      var ranges := CollectRanges(features, order);
      if ranges.Err? {
        return Err(ranges.error);
      }
      return Ok(Statistics(|features|, counts.value, ranges.value));
    }

    /** `analyze_feature_correlations`: every pair of features in key order,
     *  with the strength of the first correlation between them. */
    method AnalyzeFeatureCorrelations() returns (r: map<(string, string), Value>)
      ensures r == Correlations(order, relations)
    {
      var ids := order;
      r := map[];
      VisitedStart(ids);
      for i := 0 to |ids|
        invariant r == StrengthsOf(relations, Visited(ids, i, i + 1))
      {
        for j := i + 1 to |ids|
          invariant r == StrengthsOf(relations, Visited(ids, i, j))
        {
          var strength := FindCorrelation(relations, ids[i], ids[j]);
          StrengthsAdd(relations, Visited(ids, i, j), (ids[i], ids[j]), strength);
          VisitedNext(ids, i, j);
          if strength.Some? {
            r := r[(ids[i], ids[j]) := strength.value];
          }
        }
        VisitedRow(ids, i);
      }
      VisitedAll(ids);
    }
  }

  /** The type-distribution loop of `get_feature_statistics`. */
  method CountTypes(features: map<string, Feature>, ids: seq<string>) returns (r: Result<Tally.Counter<Value>>)
    requires forall id :: id in ids ==> id in features
    ensures r == TypeCounts(features, ids)
  {
    var counts: Tally.Counter<Value> := [];
    for i := 0 to |ids|
      invariant TypeCounts(features, ids[..i]) == Ok(counts)
    {
      assert ids[..i + 1][..i] == ids[..i];
      var props := features[ids[i]].properties;
      if "type" !in props {
        TypeCountsFail(features, ids, i + 1);
        return Err(KeyError);
      }
      var t := props["type"];
      if !Hashable(t) {
        TypeCountsFail(features, ids, i + 1);
        return Err(TypeError);
      }
      counts := Tally.Bump(counts, t);
    }
    assert ids[..|ids|] == ids;
    return Ok(counts);
  }

  /** The value-range loop of `get_feature_statistics`, run once every
   *  feature has a hashable type. */
  method CollectRanges(features: map<string, Feature>, ids: seq<string>) returns (r: Result<Ranges>)
    requires forall id :: id in ids ==> id in features && TypeOf(features[id]).Ok?
    ensures r == ValueRanges(features, ids)
  {
    var ranges: Ranges := map[];
    for i := 0 to |ids|
      invariant ValueRanges(features, ids[..i]) == Ok(ranges)
    {
      assert ids[..i + 1][..i] == ids[..i];
      var props := features[ids[i]].properties;
      if "value" in props {
        var t := props["type"];
        var v := props["value"];
        if t !in ranges {
          ranges := ranges[t := (v, v)];
        } else {
          var lo := Min(ranges[t].0, v);
          if lo.Err? {
            RangesFail(features, ids, i + 1);
            return Err(lo.error);
          }
          var hi := Max(ranges[t].1, v);
          if hi.Err? {
            RangesFail(features, ids, i + 1);
            return Err(hi.error);
          }
          ranges := ranges[t := (lo.value, hi.value)];
        }
      }
    }
    assert ids[..|ids|] == ids;
    return Ok(ranges);
  }

  /** Once a feature's type fails, the whole count fails the same way. */
  lemma {:induction false} TypeCountsFail(features: map<string, Feature>, ids: seq<string>, i: nat)
    requires forall id :: id in ids ==> id in features
    requires 0 < i <= |ids| && TypeOf(features[ids[i - 1]]).Err?
    ensures forall id :: id in ids[..i - 1] ==> id in features
    ensures TypeCounts(features, ids[..i - 1]).Ok? ==> TypeCounts(features, ids) == Err(TypeOf(features[ids[i - 1]]).error)
  {
    assert forall id :: id in ids[..i - 1] ==> id in ids;
    if i < |ids| {
      var init := ids[..|ids| - 1];
      assert init[..i - 1] == ids[..i - 1] && init[i - 1] == ids[i - 1];
      TypeCountsFail(features, init, i);
    } else {
      assert ids[..i - 1] == ids[..|ids| - 1];
    }
  }

  /** Once a comparison fails, the whole range computation fails the same way. */
  lemma {:induction false} RangesFail(features: map<string, Feature>, ids: seq<string>, i: nat)
    requires forall id :: id in ids ==> id in features
    requires 0 < i <= |ids| && ValueRanges(features, ids[..i]).Err?
    ensures ValueRanges(features, ids) == ValueRanges(features, ids[..i])
  {
    if i < |ids| {
      var init := ids[..|ids| - 1];
      assert init[..i] == ids[..i];
      RangesFail(features, init, i);
    } else {
      assert ids[..i] == ids;
    }
  }
}
