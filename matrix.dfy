/** The feature and relation registries of
 *  `KnowledgeMatrixAdvancedRepresentation`, over a matrix of the shape its
 *  dimension list gives. */
module KnowledgeMatrix {
  import opened Wrappers
  import opened RelationMaps
  import opened NdArrays

  type Features = map<string, Array>

  /** `add_feature`: an empty ID raises ValueError. A vector must have one
   *  entry per row (`self.shape[0]`, an IndexError on a shape without
   *  dimensions) and is stored as the zero matrix with the vector on its
   *  diagonal, which `np.fill_diagonal` refuses (ValueError) on fewer than
   *  two dimensions; any other array must have the matrix's shape and is
   *  stored as given. An existing feature is replaced. */
  function AddFeatureStep(f: Features, shape: seq<nat>, id: string, data: Array): (Outcome, Features) {
    if id == "" then (Fail(ValueError), f)
    else if |data.shape| == 1 then
      if shape == [] then (Fail(IndexError), f)
      else if data.shape[0] != shape[0] then (Fail(ValueError), f)
      else if |shape| != 2 then (Fail(ValueError), f)
      else (Pass, f[id := Diagonal(data.cells, shape[1])])
    else if data.shape != shape then (Fail(ValueError), f)
    else (Pass, f[id := data])
  }

  /** `remove_feature`: ValueError for an unknown feature. */
  function RemoveFeatureStep(f: Features, id: string): (Outcome, Features) {
    if id !in f then (Fail(ValueError), f) else (Pass, f - {id})
  }

  /** `update_feature`: the feature must exist and the new array must have
   *  the matrix's shape; a vector is not spread onto a diagonal here. */
  function UpdateFeatureStep(f: Features, shape: seq<nat>, id: string, data: Array): (Outcome, Features) {
    if id !in f then (Fail(ValueError), f)
    else if data.shape != shape then (Fail(ValueError), f)
    else (Pass, f[id := data])
  }

  /** Every stored feature has the matrix's shape. */
  predicate Shaped(f: Features, shape: seq<nat>) {
    forall id :: id in f ==> f[id].shape == shape
  }

  /** A vector has as many entries as its one dimension. */
  lemma VectorSize(data: Array)
    requires |data.shape| == 1
    ensures |data.cells| == data.shape[0]
  {
    assert data.shape[1..] == [];
    assert Size(data.shape) == data.shape[0] * Size([]);
  }

  /** `add_feature` accepts a non-empty ID with a vector of one entry per row
   *  of a two-dimensional matrix, or an array of the matrix's shape, and
   *  nothing else. */
  lemma AddFeatureChecks(f: Features, shape: seq<nat>, id: string, data: Array)
    ensures AddFeatureStep(f, shape, id, data).0.Pass? <==>
              id != "" && (if |data.shape| == 1 then |shape| == 2 && data.shape[0] == shape[0] else data.shape == shape)
    ensures AddFeatureStep(f, shape, id, data).0.Pass? ==>
              var f' := AddFeatureStep(f, shape, id, data).1;
              id in f' && f'.Keys == f.Keys + {id} && (forall k :: k in f && k != id ==> f'[k] == f[k])
  {
  }

  /** A vector of one entry per row is stored as a `rows` x `cols` matrix
   *  whose entry (i, j) is the vector's i-th entry when i == j and zero
   *  otherwise. */
  lemma VectorOnDiagonal(f: Features, rows: nat, cols: nat, id: string, data: Array, i: nat, j: nat)
    requires id != "" && data.shape == [rows]
    requires i < rows && j < cols
    ensures var (o, f') := AddFeatureStep(f, [rows, cols], id, data);
            o.Pass? && f'[id].shape == [rows, cols] &&
            i * cols + j < |f'[id].cells| &&
            f'[id].cells[i * cols + j] == if i == j then data.cells[i] else 0.0
  {
    VectorSize(data);
    DiagonalEntries(data.cells, cols, i, j);
  }

  /** Each feature operation keeps every stored feature at the matrix's
   *  shape, and a failed one changes nothing. */
  lemma FeatureStepsKeepShape(f: Features, shape: seq<nat>, id: string, data: Array)
    requires Shaped(f, shape)
    ensures Shaped(AddFeatureStep(f, shape, id, data).1, shape)
    ensures Shaped(RemoveFeatureStep(f, id).1, shape)
    ensures Shaped(UpdateFeatureStep(f, shape, id, data).1, shape)
    ensures AddFeatureStep(f, shape, id, data).0.Fail? ==> AddFeatureStep(f, shape, id, data).1 == f
    ensures UpdateFeatureStep(f, shape, id, data).0.Fail? ==> UpdateFeatureStep(f, shape, id, data).1 == f
  {
    if id != "" && |data.shape| == 1 && |shape| == 2 && data.shape[0] == shape[0] {
      VectorSize(data);
      assert Diagonal(data.cells, shape[1]).shape == [shape[0], shape[1]] == shape;
    }
  }

  /** Removing a feature that was just added leaves the other features as
   *  they were. */
  lemma AddThenRemoveFeature(f: Features, shape: seq<nat>, id: string, data: Array)
    requires id !in f && AddFeatureStep(f, shape, id, data).0.Pass?
    ensures RemoveFeatureStep(AddFeatureStep(f, shape, id, data).1, id) == (Pass, f)
  {
    assert AddFeatureStep(f, shape, id, data).1 - {id} == f;
  }

  class MatrixRepresentation {
    const data: Array
    const shape: seq<nat>
    var features: Features
    var relations: Relations

    /** The representation around data the base class has checked: its
     *  shape is the matrix's shape, with no features and no relations. */
    constructor (initial: Array)
      ensures data == initial && shape == initial.shape
      ensures features == map[] && relations == map[]
    {
      data := initial;
      shape := initial.shape;
      features := map[];
      relations := map[];
    }

    /** `KnowledgeMatrixAdvancedRepresentation(dimensions, data)`: the base
     *  class's checks raise ValueError; otherwise a new representation
     *  holds the checked data. */
    static method Create(dimensions: seq<int>, data: DataArg) returns (r: Result<MatrixRepresentation>)
      ensures BaseData(dimensions, data).Err? ==> r == Err(ValueError)
      ensures BaseData(dimensions, data).Ok? ==>
                r.Ok? && fresh(r.value) && r.value.data == BaseData(dimensions, data).value &&
                r.value.shape == dimensions && r.value.features == map[] && r.value.relations == map[]
    {
      var initial :- BaseData(dimensions, data);
      var m := new MatrixRepresentation(initial);
      return Ok(m);
    }

    method AddFeature(id: string, data: Array) returns (o: Outcome)
      modifies this
      ensures (o, features) == AddFeatureStep(old(features), shape, id, data)
      ensures relations == old(relations)
    {
      if id == "" {
        return Fail(ValueError);
      }
      if |data.shape| == 1 {
        if shape == [] {
          return Fail(IndexError);
        }
        if data.shape[0] != shape[0] {
          return Fail(ValueError);
        }
        if |shape| != 2 {
          return Fail(ValueError);
        }
        VectorSize(data);
        features := features[id := Diagonal(data.cells, shape[1])];
      } else {
        if data.shape != shape {
          return Fail(ValueError);
        }
        features := features[id := data];
      }
      return Pass;
    }

    method RemoveFeature(id: string) returns (o: Outcome)
      modifies this
      ensures (o, features) == RemoveFeatureStep(old(features), id)
      ensures relations == old(relations)
    {
      if id !in features {
        return Fail(ValueError);
      }
      features := features - {id};
      return Pass;
    }

    method UpdateFeature(id: string, data: Array) returns (o: Outcome)
      modifies this
      ensures (o, features) == UpdateFeatureStep(old(features), shape, id, data)
      ensures relations == old(relations)
    {
      if id !in features {
        return Fail(ValueError);
      }
      if data.shape != shape {
        return Fail(ValueError);
      }
      features := features[id := data];
      return Pass;
    }

    /** `get_feature`: ValueError for an unknown feature. */
    function GetFeature(id: string): (r: Result<Array>)
      reads this
      ensures r.Ok? <==> id in features
      ensures r.Ok? ==> r.value == features[id]
    {
      if id !in features then Err(ValueError) else Ok(features[id])
    }

    method AddRelation(source: string, target: string, relType: string) returns (o: Outcome)
      modifies this
      ensures (o, relations) == Apply(old(relations), Add(old(relations), source, target, relType))
      ensures features == old(features)
    {
      if source == "" || target == "" || relType == "" {
        return Fail(ValueError);
      }
      var row := if source in relations then relations[source] else map[];
      relations := relations[source := row[target := relType]];
      return Pass;
    }

    method RemoveRelation(source: string, target: string) returns (o: Outcome)
      modifies this
      ensures (o, relations) == Apply(old(relations), Remove(old(relations), source, target))
      ensures features == old(features)
    {
      if source !in relations {
        return Fail(ValueError);
      }
      if target !in relations[source] {
        return Fail(ValueError);
      }
      var row := relations[source] - {target};
      if row == map[] {
        relations := relations - {source};
      } else {
        relations := relations[source := row];
      }
      return Pass;
    }

    method UpdateRelation(source: string, target: string, relType: string) returns (o: Outcome)
      modifies this
      ensures (o, relations) == Apply(old(relations), Update(old(relations), source, target, relType))
      ensures features == old(features)
    {
      if source !in relations || target !in relations[source] {
        return Fail(ValueError);
      }
      if relType == "" {
        return Fail(ValueError);
      }
      relations := relations[source := relations[source][target := relType]];
      return Pass;
    }

    /** `get_relations`: the source's targets, or none for an unknown source. */
    function GetRelations(source: string): (rels: map<string, string>)
      reads this
      ensures source in relations ==> rels == relations[source]
      ensures source !in relations ==> rels == map[]
    {
      Row(relations, source)
    }
  }
}
