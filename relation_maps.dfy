/** The nested relation dictionaries `relations[source][target] = type` kept
 *  by the knowledge-spectrum, knowledge-matrix and research-category
 *  representations, and by `Taxonomy` for its edges. The three classes
 *  share the insertion rule and differ in how removal and update treat a
 *  missing relation; each variant is written out here once. */
module RelationMaps {
  import opened Wrappers

  type Relations = map<string, map<string, string>>

  /** The targets of `source` with their types: `relations.get(source, {})`. */
  function Row(r: Relations, source: string): map<string, string> {
    if source in r then r[source] else map[]
  }

  /** The relations of `source` whose type is `relType`. */
  function OfType(row: map<string, string>, relType: string): (f: map<string, string>)
    ensures forall t :: t in f <==> t in row && row[t] == relType
    ensures forall t :: t in f ==> f[t] == relType
  {
    map t | t in row && row[t] == relType :: row[t]
  }

  /** Whether `target` is related to `source`. */
  predicate Related(r: Relations, source: string, target: string) {
    source in r && target in r[source]
  }

  /** `add_relation`: an empty source, target or type raises ValueError;
   *  otherwise the source's row is created if needed and the type set,
   *  replacing an earlier one. */
  function Add(r: Relations, source: string, target: string, relType: string): Result<Relations> {
    if source == "" || target == "" || relType == "" then Err(ValueError)
    else Ok(r[source := Row(r, source)[target := relType]])
  }

  /** Deletes one relation and, when that empties its source's row, the row. */
  function Drop(r: Relations, source: string, target: string): Relations
    requires Related(r, source, target)
  {
    var row := r[source] - {target};
    if row == map[] then r - {source} else r[source := row]
  }

  /** `remove_relation` of the knowledge spectrum: a missing relation is
   *  silently ignored. */
  function RemoveIfPresent(r: Relations, source: string, target: string): Relations {
    if Related(r, source, target) then Drop(r, source, target) else r
  }

  /** `remove_relation` of the knowledge matrix and the research category: a
   *  missing source, then a missing target, raises ValueError. */
  function Remove(r: Relations, source: string, target: string): Result<Relations> {
    if source !in r then Err(ValueError)
    else if target !in r[source] then Err(ValueError)
    else Ok(Drop(r, source, target))
  }

  /** `update_relation` of the knowledge spectrum: the relation must exist;
   *  the new type is not checked. */
  function UpdateUnchecked(r: Relations, source: string, target: string, relType: string): Result<Relations> {
    if !Related(r, source, target) then Err(ValueError)
    else Ok(r[source := r[source][target := relType]])
  }

  /** `update_relation` of the knowledge matrix and the research category:
   *  the relation must exist, and then the new type must be non-empty. */
  function Update(r: Relations, source: string, target: string, relType: string): Result<Relations> {
    if !Related(r, source, target) then Err(ValueError)
    else if relType == "" then Err(ValueError)
    else Ok(r[source := r[source][target := relType]])
  }

  /** Every row with `id` taken out of its targets: the cascade that removes
   *  the relations into a deleted node. */
  function Detach(r: Relations, id: string): (d: Relations)
    ensures d.Keys == r.Keys
    ensures forall s :: s in d ==> d[s] == r[s] - {id}
  {
    map s | s in r :: r[s] - {id}
  }

  /** The outcome and the new map of a call whose effect is `res`: a failed
   *  call leaves the map as it was. */
  function Apply(r: Relations, res: Result<Relations>): (Outcome, Relations) {
    if res.Ok? then (Pass, res.value) else (Fail(res.error), r)
  }

  /** No source is kept with an empty row. */
  predicate NoEmptyRows(r: Relations) {
    forall s :: s in r ==> r[s] != map[]
  }

  /** Every source, target and type is a non-empty string. */
  predicate NonEmptyNames(r: Relations) {
    forall s :: s in r ==> s != "" && forall t :: t in r[s] ==> t != "" && r[s][t] != ""
  }

  /** Every relation other than `source -> target` is the same in both maps. */
  ghost predicate SameElsewhere(r: Relations, r': Relations, source: string, target: string) {
    forall s, t :: (s, t) != (source, target) ==>
      (Related(r, s, t) <==> Related(r', s, t)) &&
      (Related(r, s, t) ==> r[s][t] == r'[s][t])
  }

  /** `add_relation` succeeds exactly for non-empty arguments, records the
   *  type and touches no other relation. */
  lemma AddSetsOne(r: Relations, source: string, target: string, relType: string)
    ensures Add(r, source, target, relType).Ok? <==> source != "" && target != "" && relType != ""
    ensures Add(r, source, target, relType).Ok? ==>
              var r' := Add(r, source, target, relType).value;
              Related(r', source, target) && r'[source][target] == relType && SameElsewhere(r, r', source, target)
  {
  }

  /** Removing a relation deletes exactly it, and keeps its source's row only
   *  while the row still holds other targets. */
  lemma DropRemovesOne(r: Relations, source: string, target: string)
    requires Related(r, source, target)
    ensures !Related(Drop(r, source, target), source, target)
    ensures SameElsewhere(r, Drop(r, source, target), source, target)
    ensures source in Drop(r, source, target) <==> r[source].Keys != {target}
  {
    var row := r[source] - {target};
    if row != map[] {
      assert exists t :: t in row;
      var t :| t in row;
      assert t in r[source] && t != target;
    } else {
      assert r[source].Keys - {target} == row.Keys == {};
    }
  }

  /** The strict removal fails exactly for a missing relation, and the
   *  lenient one is then a no-op; otherwise both drop it. */
  lemma RemoveVariants(r: Relations, source: string, target: string)
    ensures Remove(r, source, target).Ok? <==> Related(r, source, target)
    ensures !Related(r, source, target) ==> RemoveIfPresent(r, source, target) == r
    ensures Related(r, source, target) ==>
              Remove(r, source, target).value == RemoveIfPresent(r, source, target) &&
              !Related(RemoveIfPresent(r, source, target), source, target)
  {
    if Related(r, source, target) {
      DropRemovesOne(r, source, target);
    }
  }

  /** Both updates succeed only on an existing relation, set its type and
   *  keep the sources and targets; only the checked one refuses an empty
   *  type. */
  lemma UpdateSetsOne(r: Relations, source: string, target: string, relType: string)
    ensures UpdateUnchecked(r, source, target, relType).Ok? <==> Related(r, source, target)
    ensures Update(r, source, target, relType).Ok? <==> Related(r, source, target) && relType != ""
    ensures UpdateUnchecked(r, source, target, relType).Ok? ==>
              var r' := UpdateUnchecked(r, source, target, relType).value;
              r'[source][target] == relType && SameElsewhere(r, r', source, target) &&
              r'.Keys == r.Keys && (forall s :: s in r ==> r'[s].Keys == r[s].Keys)
    ensures Update(r, source, target, relType).Ok? ==>
              Update(r, source, target, relType) == UpdateUnchecked(r, source, target, relType)
  {
  }

  /** Adding a relation that was not there and then removing it restores the
   *  map, provided no empty row was kept. */
  lemma AddThenRemove(r: Relations, source: string, target: string, relType: string)
    requires NoEmptyRows(r) && !Related(r, source, target)
    requires source != "" && target != "" && relType != ""
    ensures Remove(Add(r, source, target, relType).value, source, target) == Ok(r)
    ensures RemoveIfPresent(Add(r, source, target, relType).value, source, target) == r
  {
    var r' := Add(r, source, target, relType).value;
    if source in r {
      assert r'[source] - {target} == r[source];
      assert r'[source := r[source]] == r;
    } else {
      assert r'[source] - {target} == map[];
      assert r' - {source} == r;
    }
  }

  /** Every operation keeps both invariants, except that the unchecked
   *  update can store an empty type. */
  lemma StepsKeepInvariants(r: Relations, source: string, target: string, relType: string)
    requires NoEmptyRows(r) && NonEmptyNames(r)
    ensures Add(r, source, target, relType).Ok? ==>
              NoEmptyRows(Add(r, source, target, relType).value) && NonEmptyNames(Add(r, source, target, relType).value)
    ensures Remove(r, source, target).Ok? ==>
              NoEmptyRows(Remove(r, source, target).value) && NonEmptyNames(Remove(r, source, target).value)
    ensures NoEmptyRows(RemoveIfPresent(r, source, target)) && NonEmptyNames(RemoveIfPresent(r, source, target))
    ensures Update(r, source, target, relType).Ok? ==>
              NoEmptyRows(Update(r, source, target, relType).value) && NonEmptyNames(Update(r, source, target, relType).value)
    ensures UpdateUnchecked(r, source, target, relType).Ok? ==>
              NoEmptyRows(UpdateUnchecked(r, source, target, relType).value)
  {
    if Related(r, source, target) {
      var d := Drop(r, source, target);
      forall s | s in d ensures d[s] != map[] && s != "" && forall t :: t in d[s] ==> t != "" && d[s][t] != "" {
        assert s in r;
        if s == source {
          assert d[s] == r[s] - {target};
        }
      }
      assert target in r[source][target := relType];
    }
    if source != "" && target != "" && relType != "" {
      assert target in Add(r, source, target, relType).value[source];
    }
  }

  /** The related (source, target) pairs. */
  ghost function Pairs(r: Relations): set<(string, string)> {
    set s, t | s in r && t in r[s] :: (s, t)
  }

  ghost function RowPairs(s: string, row: map<string, string>): set<(string, string)> {
    set t | t in row :: (s, t)
  }

  /** The rows of the sources in `done`. */
  function Restrict(r: Relations, done: set<string>): Relations {
    map s | s in r && s in done :: r[s]
  }

  lemma {:induction false} RowPairsCount(s: string, row: map<string, string>)
    ensures |RowPairs(s, row)| == |row|
    decreases |row|
  {
    if row != map[] {
      var t :| t in row;
      var rest := row - {t};
      assert row.Keys == rest.Keys + {t};
      RowPairsCount(s, rest);
      assert RowPairs(s, row) == RowPairs(s, rest) + {(s, t)};
    }
  }

  lemma PairsMember(r: Relations, p: (string, string))
    ensures p in Pairs(r) <==> Related(r, p.0, p.1)
  {
    if Related(r, p.0, p.1) {
      assert (p.0, p.1) in Pairs(r);
    }
  }

  lemma RowPairsMember(s: string, row: map<string, string>, p: (string, string))
    ensures p in RowPairs(s, row) <==> p.0 == s && p.1 in row
  {
    if p.0 == s && p.1 in row {
      assert (s, p.1) in RowPairs(s, row);
    }
  }

  lemma PairsSplit(r: Relations, done: set<string>, s: string, p: (string, string))
    requires s in r && s !in done
    ensures p in Pairs(Restrict(r, done + {s})) <==> p in Pairs(Restrict(r, done)) || p in RowPairs(s, r[s])
    ensures p in Pairs(Restrict(r, done)) ==> p !in RowPairs(s, r[s])
  {
    PairsMember(Restrict(r, done + {s}), p);
    PairsMember(Restrict(r, done), p);
    RowPairsMember(s, r[s], p);
  }

  /** Adding one more source's row adds its targets to the pair count. */
  lemma PairsGrow(r: Relations, done: set<string>, s: string)
    requires s in r && s !in done
    ensures |Pairs(Restrict(r, done + {s}))| == |Pairs(Restrict(r, done))| + |r[s]|
  {
    var bigger, smaller, row := Pairs(Restrict(r, done + {s})), Pairs(Restrict(r, done)), RowPairs(s, r[s]);
    forall p ensures p in bigger <==> p in smaller + row {
      PairsSplit(r, done, s, p);
    }
    assert bigger == smaller + row;
    forall p | p in smaller ensures p !in row {
      PairsSplit(r, done, s, p);
    }
    RowPairsCount(s, r[s]);
  }

  lemma AddPairs(r: Relations, source: string, target: string, relType: string)
    requires Add(r, source, target, relType).Ok?
    ensures Pairs(Add(r, source, target, relType).value) == Pairs(r) + {(source, target)}
  {
    var r' := Add(r, source, target, relType).value;
    forall p ensures p in Pairs(r') <==> p in Pairs(r) + {(source, target)} {
      PairsMember(r', p);
      PairsMember(r, p);
    }
  }

  lemma DropPairs(r: Relations, source: string, target: string)
    requires Related(r, source, target)
    ensures Pairs(r) == Pairs(Drop(r, source, target)) + {(source, target)}
    ensures (source, target) !in Pairs(Drop(r, source, target))
  {
    var r' := Drop(r, source, target);
    DropRemovesOne(r, source, target);
    forall p ensures p in Pairs(r) <==> p in Pairs(r') + {(source, target)} {
      PairsMember(r', p);
      PairsMember(r, p);
    }
    PairsMember(r', (source, target));
  }

  lemma UpdatePairs(r: Relations, source: string, target: string, relType: string)
    requires Update(r, source, target, relType).Ok?
    ensures Pairs(Update(r, source, target, relType).value) == Pairs(r)
  {
    var r' := Update(r, source, target, relType).value;
    forall p ensures p in Pairs(r') <==> p in Pairs(r) {
      PairsMember(r', p);
      PairsMember(r, p);
    }
  }

  /** A new relation adds one pair and removing a relation takes one away;
   *  the strict update changes no pair. */
  lemma PairCountChanges(r: Relations, source: string, target: string, relType: string)
    ensures Add(r, source, target, relType).Ok? && !Related(r, source, target) ==>
              |Pairs(Add(r, source, target, relType).value)| == |Pairs(r)| + 1
    ensures Remove(r, source, target).Ok? ==> |Pairs(Remove(r, source, target).value)| == |Pairs(r)| - 1
    ensures Update(r, source, target, relType).Ok? ==> Pairs(Update(r, source, target, relType).value) == Pairs(r)
  {
    if Add(r, source, target, relType).Ok? && !Related(r, source, target) {
      AddPairs(r, source, target, relType);
      PairsMember(r, (source, target));
    }
    if Remove(r, source, target).Ok? {
      DropPairs(r, source, target);
    }
    if Update(r, source, target, relType).Ok? {
      UpdatePairs(r, source, target, relType);
    }
  }

  /** The unchecked update stores an empty type that `add_relation` would
   *  have refused. */
  lemma UncheckedUpdateAdmitsEmptyType()
    ensures var r: Relations := map["a" := map["b" := "cites"]];
            Add(r, "a", "b", "").Err? &&
            UpdateUnchecked(r, "a", "b", "") == Ok(map["a" := map["b" := ""]]) &&
            !NonEmptyNames(UpdateUnchecked(r, "a", "b", "").value)
  {
    var r: Relations := map["a" := map["b" := "cites"]];
    assert r["a"]["b" := ""] == map["b" := ""];
    assert r["a" := map["b" := ""]] == map["a" := map["b" := ""]];
    var r' := UpdateUnchecked(r, "a", "b", "").value;
    assert "a" in r' && "b" in r'["a"] && r'["a"]["b"] == "";
  }
}

/** numpy arrays as far as the representations use them: a shape, and the
 *  entries in row-major order. */
module NdArrays {
  import opened Wrappers

  datatype NdArray = NdArray(shape: seq<nat>, cells: seq<real>)

  /** The number of entries of an array of this shape. */
  function Size(shape: seq<nat>): nat {
    if shape == [] then 1 else shape[0] * Size(shape[1..])
  }

  /** An array holds exactly as many entries as its shape says. */
  type Array = a: NdArray | |a.cells| == Size(a.shape) witness NdArray([], [0.0])

  lemma MulMono(a: int, b: int, c: nat)
    requires a >= b
    ensures a * c >= b * c
  {
    assert a * c - b * c == (a - b) * c;
  }

  lemma RowBound(i: nat, j: nat, rows: nat, cols: nat)
    requires i < rows && j < cols
    ensures i * cols + j < rows * cols
  {
    MulMono(rows - 1, i, cols);
    assert (rows - 1) * cols + cols == rows * cols;
  }

  lemma SplitIndex(k: nat, rows: nat, cols: nat)
    requires k < rows * cols
    ensures cols > 0 && k / cols < rows && k % cols < cols
  {
    if cols == 0 {
      assert false;
    } else if k / cols >= rows {
      MulMono(k / cols, rows, cols);
      assert false;
    }
  }

  /** Euclidean division is unique. */
  lemma DivUnique(k: int, c: int, q: int, m: int)
    requires c > 0 && 0 <= m < c && k == q * c + m
    ensures k / c == q && k % c == m
  {
    var d := q - k / c;
    assert d * c == k % c - m;
    if d >= 1 {
      MulMono(d, 1, c);
      assert false;
    } else if d <= -1 {
      MulMono(-1, d, c);
      assert false;
    }
  }

  /** The optional `data` argument of the representations' constructors:
   *  left out (None), given but not a numpy array, or an array. */
  datatype DataArg = Omitted | NotArray | Given(arr: Array)

  /** `np.zeros(shape)`. */
  function Zeros(shape: seq<nat>): (z: Array)
    ensures z.shape == shape && forall k :: 0 <= k < |z.cells| ==> z.cells[k] == 0.0
  {
    NdArray(shape, seq(Size(shape), _ => 0.0))
  }

  /** `__init__` of both base representations: an empty dimension list or
   *  a dimension that is not positive raises ValueError; then the data is
   *  zeros of that shape when left out, and must otherwise be a numpy array
   *  of exactly that shape (ValueError), which is copied. */
  function BaseData(dimensions: seq<int>, data: DataArg): (r: Result<Array>)
    ensures r.Ok? <==> dimensions != [] && (forall i :: 0 <= i < |dimensions| ==> dimensions[i] > 0) &&
                       !data.NotArray? && (data.Given? ==> data.arr.shape == dimensions)
    ensures r.Err? ==> r.error == ValueError
    ensures r.Ok? ==> r.value.shape == dimensions
    ensures r.Ok? && data.Omitted? ==> forall k :: 0 <= k < |r.value.cells| ==> r.value.cells[k] == 0.0
    ensures r.Ok? && data.Given? ==> r.value == data.arr
  {
    if dimensions == [] then Err(ValueError)
    else if exists i :: 0 <= i < |dimensions| && dimensions[i] <= 0 then Err(ValueError)
    else
      var shape := seq(|dimensions|, i requires 0 <= i < |dimensions| => dimensions[i] as nat);
      assert shape == dimensions;
      match data
      case Omitted => Ok(Zeros(shape))
      case NotArray => Err(ValueError)
      case Given(a) => if a.shape != shape then Err(ValueError) else Ok(a)
  }

  /** The `rows` x `cols` zero matrix with `v` on its diagonal
   *  (`np.zeros` then `np.fill_diagonal`), for a vector of length `rows`. */
  function Diagonal(v: seq<real>, cols: nat): (d: Array)
    ensures d.shape == [|v|, cols] && |d.cells| == |v| * cols
  {
    assert Size([|v|, cols]) == |v| * cols by {
      assert [|v|, cols][1..] == [cols];
      assert Size([cols]) == cols * Size([]);
    }
    NdArray([|v|, cols], seq(|v| * cols, k requires 0 <= k < |v| * cols =>
      SplitIndex(k, |v|, cols);
      if k / cols == k % cols then v[k / cols] else 0.0))
  }

  /** Entry (i, j) of the diagonal matrix is `v[i]` on the diagonal and zero
   *  elsewhere. */
  lemma DiagonalEntries(v: seq<real>, cols: nat, i: nat, j: nat)
    requires i < |v| && j < cols
    ensures i * cols + j < |Diagonal(v, cols).cells|
    ensures Diagonal(v, cols).cells[i * cols + j] == if i == j then v[i] else 0.0
  {
    RowBound(i, j, |v|, cols);
    DivUnique(i * cols + j, cols, i, j);
  }
}
