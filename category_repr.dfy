/** The feature and relation registries of
 *  `ResearchCategoryAdvancedRepresentation`. A feature argument is `None`
 *  when the caller passes something that is not a numpy array. */
module CategoryRepresentation {
  import opened Wrappers
  import opened RelationMaps
  import opened NdArrays

  type Features = map<string, Array>

  /** `add_feature`: a non-array, or an array whose shape is not the
   *  matrix's, raises ValueError; otherwise the feature is stored under any
   *  ID, the empty one included, replacing an earlier one. */
  function AddFeatureStep(f: Features, shape: seq<nat>, id: string, data: Option<Array>): (Outcome, Features) {
    if data.None? then (Fail(ValueError), f)
    else if data.value.shape != shape then (Fail(ValueError), f)
    else (Pass, f[id := data.value])
  }

  /** `remove_feature`: ValueError for an unknown feature. */
  function RemoveFeatureStep(f: Features, id: string): (Outcome, Features) {
    if id !in f then (Fail(ValueError), f) else (Pass, f - {id})
  }

  /** `update_feature`: the feature must exist, and then the argument must be
   *  an array of the matrix's shape. */
  function UpdateFeatureStep(f: Features, shape: seq<nat>, id: string, data: Option<Array>): (Outcome, Features) {
    if id !in f then (Fail(ValueError), f)
    else AddFeatureStep(f, shape, id, data)
  }

  /** `get_feature`: `dict.get`, None for an unknown feature. */
  function FeatureOf(f: Features, id: string): (r: Option<Array>)
    ensures r.None? <==> id !in f
    ensures r.Some? ==> r.value == f[id]
  {
    if id in f then Some(f[id]) else None
  }

  /** A stored feature is what `get_feature` returns afterwards; only an
   *  array of the matrix's shape is stored, and a failed call changes
   *  nothing. */
  lemma AddThenGetFeature(f: Features, shape: seq<nat>, id: string, data: Option<Array>, other: string)
    ensures AddFeatureStep(f, shape, id, data).0.Pass? <==> data.Some? && data.value.shape == shape
    ensures AddFeatureStep(f, shape, id, data).0.Pass? ==> FeatureOf(AddFeatureStep(f, shape, id, data).1, id) == data
    ensures AddFeatureStep(f, shape, id, data).0.Fail? ==> AddFeatureStep(f, shape, id, data).1 == f
    ensures other != id ==> FeatureOf(AddFeatureStep(f, shape, id, data).1, other) == FeatureOf(f, other)
  {
  }

  /** `update_feature` succeeds exactly on an existing feature with an array
   *  of the matrix's shape, and never adds a feature. */
  lemma UpdateFeatureChecks(f: Features, shape: seq<nat>, id: string, data: Option<Array>)
    ensures UpdateFeatureStep(f, shape, id, data).0.Pass? <==> id in f && data.Some? && data.value.shape == shape
    ensures UpdateFeatureStep(f, shape, id, data).1.Keys == f.Keys
  {
  }

  /** After `remove_feature`, `get_feature` gives None for that ID; the
   *  others are untouched. */
  lemma RemoveThenGetFeature(f: Features, id: string, other: string)
    ensures RemoveFeatureStep(f, id).0.Pass? <==> id in f
    ensures FeatureOf(RemoveFeatureStep(f, id).1, id) == None
    ensures other != id ==> FeatureOf(RemoveFeatureStep(f, id).1, other) == FeatureOf(f, other)
  {
  }

  /** Every stored feature has the matrix's shape, and each operation keeps
   *  it so. */
  lemma FeatureStepsKeepShape(f: Features, shape: seq<nat>, id: string, data: Option<Array>)
    requires forall k :: k in f ==> f[k].shape == shape
    ensures var f' := AddFeatureStep(f, shape, id, data).1; forall k :: k in f' ==> f'[k].shape == shape
    ensures var f' := UpdateFeatureStep(f, shape, id, data).1; forall k :: k in f' ==> f'[k].shape == shape
    ensures var f' := RemoveFeatureStep(f, id).1; forall k :: k in f' ==> f'[k].shape == shape
  {
  }

  class CategoryRepresentation {
    const data: Array
    const shape: seq<nat>
    var features: Features
    var relations: Relations

    /** The representation around data the base class has checked: its
     *  shape is the matrix's shape, with no features and no relations. */
    constructor (initial: Array)
      ensures data == initial && shape == initial.shape
      ensures features == map[] && relations == map[]
    {
      data := initial;
      shape := initial.shape;
      features := map[];
      relations := map[];
    }

    /** `ResearchCategoryAdvancedRepresentation(dimensions, data)`: the base
     *  class's checks raise ValueError; otherwise a new representation
     *  holds the checked data. */
    static method Create(dimensions: seq<int>, data: DataArg) returns (r: Result<CategoryRepresentation>)
      ensures BaseData(dimensions, data).Err? ==> r == Err(ValueError)
      ensures BaseData(dimensions, data).Ok? ==>
                r.Ok? && fresh(r.value) && r.value.data == BaseData(dimensions, data).value &&
                r.value.shape == dimensions && r.value.features == map[] && r.value.relations == map[]
    {
      var initial :- BaseData(dimensions, data);
      var c := new CategoryRepresentation(initial);
      return Ok(c);
    }

    method AddFeature(id: string, data: Option<Array>) returns (o: Outcome)
      modifies this
      ensures (o, features) == AddFeatureStep(old(features), shape, id, data)
      ensures relations == old(relations)
    {
      if data.None? {
        return Fail(ValueError);
      }
      if data.value.shape != shape {
        return Fail(ValueError);
      }
      features := features[id := data.value];
      return Pass;
    }

    method RemoveFeature(id: string) returns (o: Outcome)
      modifies this
      ensures (o, features) == RemoveFeatureStep(old(features), id)
      ensures relations == old(relations)
    {
      if id !in features {
        return Fail(ValueError);
      }
      features := features - {id};
      return Pass;
    }

    method UpdateFeature(id: string, data: Option<Array>) returns (o: Outcome)
      modifies this
      ensures (o, features) == UpdateFeatureStep(old(features), shape, id, data)
      ensures relations == old(relations)
    {
      if id !in features {
        return Fail(ValueError);
      }
      if data.None? {
        return Fail(ValueError);
      }
      if data.value.shape != shape {
        return Fail(ValueError);
      }
      features := features[id := data.value];
      return Pass;
    }

    function GetFeature(id: string): (r: Option<Array>)
      reads this
      ensures r.None? <==> id !in features
      ensures r.Some? ==> r.value == features[id]
    {
      FeatureOf(features, id)
    }

    method AddRelation(source: string, target: string, relType: string) returns (o: Outcome)
      modifies this
      ensures (o, relations) == Apply(old(relations), Add(old(relations), source, target, relType))
      ensures features == old(features)
    {
      if source == "" || target == "" || relType == "" {
        return Fail(ValueError);
      }
      var row := if source in relations then relations[source] else map[];
      relations := relations[source := row[target := relType]];
      return Pass;
    }

    method RemoveRelation(source: string, target: string) returns (o: Outcome)
      modifies this
      ensures (o, relations) == Apply(old(relations), Remove(old(relations), source, target))
      ensures features == old(features)
    {
      if source !in relations {
        return Fail(ValueError);
      }
      if target !in relations[source] {
        return Fail(ValueError);
      }
      var row := relations[source] - {target};
      if row == map[] {
        relations := relations - {source};
      } else {
        relations := relations[source := row];
      }
      return Pass;
    }

    method UpdateRelation(source: string, target: string, relType: string) returns (o: Outcome)
      modifies this
      ensures (o, relations) == Apply(old(relations), Update(old(relations), source, target, relType))
      ensures features == old(features)
    {
      if source !in relations || target !in relations[source] {
        return Fail(ValueError);
      }
      if relType == "" {
        return Fail(ValueError);
      }
      relations := relations[source := relations[source][target := relType]];
      return Pass;
    }

    /** `get_relations`: the source's targets, or none for an unknown source. */
    function GetRelations(source: string): (rels: map<string, string>)
      reads this
      ensures source in relations ==> rels == relations[source]
      ensures source !in relations ==> rels == map[]
    {
      Row(relations, source)
    }
  }
}
