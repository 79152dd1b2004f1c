/** `MappingInterface`: a registry of named knowledge mappings, each from a
 *  source object to a target object that both carry a truthy "id" and
 *  "type", with a classification of a mapping as direct or transforming. */
module MappingInterfaces {
  import opened Wrappers
  import opened PyValue

  type Props = map<string, Value>

  /** A stored mapping: the dict {"name", "source", "target"}. */
  datatype Mapping = Mapping(name: string, source: Props, target: Props)

  type Registry = map<string, Mapping>

  /** What `analyze_mapping` returns: "direct" or "transform", the two
   *  types, and `bidirectional`, always False. */
  datatype Analysis = Analysis(kind: string, sourceType: Value, targetType: Value, bidirectional: bool)

  const RequiredFields: seq<string> := ["id", "type"]

  /** The object has every required field, each truthy. */
  predicate Complete(obj: Props) {
    forall f :: f in RequiredFields ==> f in obj && Truthy(obj[f])
  }

  /** Every stored mapping sits under its own name and joins two complete
   *  objects. */
  predicate Valid(m: Registry) {
    forall k :: k in m ==> m[k].name == k && Complete(m[k].source) && Complete(m[k].target)
  }

  /** `create_mapping`: an empty or taken name, or a source or target
   *  lacking a required field, raises ValueError. */
  function CreateStep(m: Registry, name: string, source: Props, target: Props): (Result<Mapping>, Registry) {
    if name == "" || name in m || !Complete(source) || !Complete(target) then (Err(ValueError), m)
    else
      var mapping := Mapping(name, source, target);
      (Ok(mapping), m[name := mapping])
  }

  /** `get_mapping` */
  function GetStep(m: Registry, name: string): Result<Mapping> {
    if name !in m then Err(ValueError) else Ok(m[name])
  }

  /** `update_mapping`: an unknown name, then a source or target lacking a
   *  required field, raises ValueError; otherwise the stored mapping's
   *  source and target are replaced. */
  function UpdateStep(m: Registry, name: string, source: Props, target: Props): (Result<Mapping>, Registry) {
    if name !in m || !Complete(source) || !Complete(target) then (Err(ValueError), m)
    else
      var mapping := m[name].(source := source, target := target);
      (Ok(mapping), m[name := mapping])
  }

  /** `delete_mapping` */
  function DeleteStep(m: Registry, name: string): (Outcome, Registry) {
    if name !in m then (Fail(ValueError), m) else (Pass, m - {name})
  }

  /** `mapping["source"]["type"]`, which raises KeyError when missing. */
  function TypeOf(obj: Props): Result<Value> {
    if "type" !in obj then Err(KeyError) else Ok(obj["type"])
  }

  /** `analyze_mapping` */
  function AnalyzeStep(m: Registry, name: string): Result<Analysis> {
    if name !in m then Err(ValueError)
    else
      var s :- TypeOf(m[name].source);
      var t :- TypeOf(m[name].target);
      Ok(Analysis(if s == t then "direct" else "transform", s, t, false))
  }

  /** `create_mapping` succeeds exactly for a fresh non-empty name and two
   *  complete objects; it then stores the mapping under that name and
   *  changes nothing else. */
  lemma CreateChecks(m: Registry, name: string, source: Props, target: Props)
    ensures var (r, m') := CreateStep(m, name, source, target);
            (r.Ok? <==> name != "" && name !in m && Complete(source) && Complete(target)) &&
            (r.Err? ==> r.error == ValueError && m' == m) &&
            (r.Ok? ==> r.value == Mapping(name, source, target) && m'.Keys == m.Keys + {name} &&
                       GetStep(m', name) == Ok(r.value) &&
                       forall k :: k in m ==> m'[k] == m[k])
  {
  }

  /** `update_mapping` requires an existing mapping and complete objects,
   *  and replaces only that mapping's source and target. */
  lemma UpdateReplacesEndpoints(m: Registry, name: string, source: Props, target: Props)
    ensures var (r, m') := UpdateStep(m, name, source, target);
            (r.Ok? <==> name in m && Complete(source) && Complete(target)) &&
            (r.Err? ==> r.error == ValueError && m' == m) &&
            (r.Ok? ==> m'.Keys == m.Keys && m'[name] == r.value &&
                       r.value.name == m[name].name && r.value.source == source && r.value.target == target &&
                       forall k :: k in m && k != name ==> m'[k] == m[k])
  {
  }

  /** `delete_mapping` requires the mapping to exist and removes exactly it. */
  lemma DeleteRemoves(m: Registry, name: string)
    ensures var (o, m') := DeleteStep(m, name);
            (o.Pass? <==> name in m) && (o.Fail? ==> m' == m) &&
            (o.Pass? ==> m'.Keys == m.Keys - {name} && GetStep(m', name) == Err(ValueError) &&
                         forall k :: k in m' ==> m'[k] == m[k])
  {
  }

  /** In a valid registry `analyze_mapping` fails only for an unknown name,
   *  and reports "direct" exactly when the two types are equal. */
  lemma AnalyzeDirectIffSameType(m: Registry, name: string)
    requires Valid(m)
    ensures AnalyzeStep(m, name).Ok? <==> name in m
    ensures AnalyzeStep(m, name).Err? ==> AnalyzeStep(m, name).error == ValueError
    ensures var r := AnalyzeStep(m, name);
            r.Ok? ==> r.value.sourceType == m[name].source["type"] && r.value.targetType == m[name].target["type"] &&
                      (r.value.kind == "direct" <==> r.value.sourceType == r.value.targetType) &&
                      (r.value.kind != "direct" ==> r.value.kind == "transform") && !r.value.bidirectional
  {
    if name in m {
      assert "type" in RequiredFields;
    }
  }

  /** Every operation keeps the registry valid. */
  lemma StepsKeepValid(m: Registry, name: string, source: Props, target: Props)
    requires Valid(m)
    ensures Valid(CreateStep(m, name, source, target).1)
    ensures Valid(UpdateStep(m, name, source, target).1)
    ensures Valid(DeleteStep(m, name).1)
  {
  }

  /** The required-field loop of `create_mapping` and `update_mapping`:
   *  each field is checked on the source, then on the target. */
  method CheckRequired(source: Props, target: Props) returns (ok: bool)
    ensures ok <==> Complete(source) && Complete(target)
  {
    for i := 0 to |RequiredFields|
      invariant forall f :: f in RequiredFields[..i] ==> f in source && Truthy(source[f]) && f in target && Truthy(target[f])
    {
      var field := RequiredFields[i];
      if field !in source || !Truthy(source[field]) {
        return false;
      }
      if field !in target || !Truthy(target[field]) {
        return false;
      }
    }
    assert RequiredFields[..|RequiredFields|] == RequiredFields;
    return true;
  }

  class MappingInterface {
    var mappings: Registry

    constructor ()
      ensures mappings == map[]
    {
      mappings := map[];
    }

    method CreateMapping(name: string, source: Props, target: Props) returns (r: Result<Mapping>)
      modifies this
      ensures (r, mappings) == CreateStep(old(mappings), name, source, target)
    {
      if name == "" {
        return Err(ValueError);
      }
      if name in mappings {
        return Err(ValueError);
      }
      var ok := CheckRequired(source, target);
      if !ok {
        return Err(ValueError);
      }
      var mapping := Mapping(name, source, target);
      mappings := mappings[name := mapping];
      return Ok(mapping);
    }

    function GetMapping(name: string): (r: Result<Mapping>)
      reads this
      ensures r.Ok? <==> name in mappings
      ensures r.Ok? ==> r.value == mappings[name]
    {
      GetStep(mappings, name)
    }

    method UpdateMapping(name: string, source: Props, target: Props) returns (r: Result<Mapping>)
      modifies this
      ensures (r, mappings) == UpdateStep(old(mappings), name, source, target)
    {
      if name !in mappings {
        return Err(ValueError);
      }
      var ok := CheckRequired(source, target);
      if !ok {
        return Err(ValueError);
      }
      var mapping := mappings[name];
      mapping := mapping.(source := source);
      mapping := mapping.(target := target);
      mappings := mappings[name := mapping];
      return Ok(mapping);
    }

    method DeleteMapping(name: string) returns (o: Outcome)
      modifies this
      ensures (o, mappings) == DeleteStep(old(mappings), name)
    {
      if name !in mappings {
        return Fail(ValueError);
      }
      mappings := mappings - {name};
      return Pass;
    }

    function AnalyzeMapping(name: string): (r: Result<Analysis>)
      reads this
      ensures name !in mappings ==> r == Err(ValueError)
      ensures r.Ok? ==> name in mappings && TypeOf(mappings[name].source) == Ok(r.value.sourceType) &&
                        TypeOf(mappings[name].target) == Ok(r.value.targetType) &&
                        (r.value.kind == "direct" <==> r.value.sourceType == r.value.targetType)
    {
      AnalyzeStep(mappings, name)
    }
  }
}
