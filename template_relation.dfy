/** `TemplateRelation`: a typed link between two template elements with an
 *  attribute dict, its construction checks and its dict form. */
module TemplateRelations {
  import opened Wrappers
  import opened PyValue
  import opened Attributes

  datatype RelationFields = RelationFields(
    relationId: Value, sourceId: Value, targetId: Value, relationType: Value,
    relationData: Value, attributes: Value, metadata: Value)

  /** The checks `__post_init__` and `validate` share, in their order. */
  function Check(f: RelationFields): (r: Result<bool>)
    ensures r.Ok? <==> Truthy(f.relationId) && Truthy(f.sourceId) && Truthy(f.targetId) &&
                       Truthy(f.relationType) && f.relationData.VDict?
    ensures r.Ok? ==> r.value
    ensures r.Err? ==> r.error == ValueError
  {
    if !Truthy(f.relationId) || !Truthy(f.sourceId) || !Truthy(f.targetId) ||
       !Truthy(f.relationType) || !f.relationData.VDict?
    then Err(ValueError)
    else Ok(true)
  }

  /** `__post_init__`: the checks, then fresh metadata when none was given. */
  function PostInit(f: RelationFields, now: Value): (r: Result<RelationFields>)
    ensures r.Ok? <==> Check(f).Ok?
    ensures r.Err? ==> r.error == ValueError
    ensures r.Ok? ==> r.value == f.(metadata := r.value.metadata) && Truthy(r.value.metadata) &&
                      (Truthy(f.metadata) ==> r.value.metadata == f.metadata)
  {
    var _ :- Check(f);
    if Truthy(f.metadata) then Ok(f)
    else
      var m := map[VStr("created_at") := now, VStr("updated_at") := now];
      assert VStr("created_at") in m;
      Ok(f.(metadata := VDict(m)))
  }

  function ToDict(f: RelationFields): Value {
    VDict(map[VStr("relation_id") := f.relationId, VStr("source_id") := f.sourceId,
              VStr("target_id") := f.targetId, VStr("relation_type") := f.relationType,
              VStr("relation_data") := f.relationData, VStr("attributes") := f.attributes,
              VStr("metadata") := f.metadata])
  }

  /** `from_dict`: non-empty data (a truthy non-dict has no `get`) with a
   *  truthy `relation_id`; the other fields default to "" or `{}` and are then
   *  checked by construction. */
  function FromDict(data: Value, now: Value): (r: Result<RelationFields>)
    ensures !data.VDict? || VStr("relation_id") !in data.entries ==> r.Err?
    ensures r.Ok? ==> data.VDict? && r.value.relationId == data.entries[VStr("relation_id")] &&
                      r.value.sourceId == Get(data.entries, "source_id", VStr("")) &&
                      r.value.targetId == Get(data.entries, "target_id", VStr("")) &&
                      r.value.relationType == Get(data.entries, "relation_type", VStr(""))
  {
    if !Truthy(data) then Err(ValueError)
    else if !data.VDict? then Err(AttributeError)
    else
      var d := data.entries;
      var id := Get(d, "relation_id", VNone);
      if !Truthy(id) then Err(ValueError)
      else PostInit(RelationFields(id, Get(d, "source_id", VStr("")), Get(d, "target_id", VStr("")),
                                   Get(d, "relation_type", VStr("")), Get(d, "relation_data", VDict(map[])),
                                   Get(d, "attributes", VDict(map[])), Get(d, "metadata", VDict(map[]))), now)
  }

  /** `from_dict(to_dict(r))` rebuilds `r` exactly. */
  lemma DictRoundTrip(given: RelationFields, now: Value, later: Value)
    requires PostInit(given, now).Ok?
    ensures FromDict(ToDict(PostInit(given, now).value), later) == PostInit(given, now)
  {
    var f := PostInit(given, now).value;
    var d := ToDict(f).entries;
    var rebuilt := RelationFields(Get(d, "relation_id", VNone), Get(d, "source_id", VStr("")),
                                  Get(d, "target_id", VStr("")), Get(d, "relation_type", VStr("")),
                                  Get(d, "relation_data", VDict(map[])), Get(d, "attributes", VDict(map[])),
                                  Get(d, "metadata", VDict(map[])));
    assert rebuilt == f;
    assert Check(f).Ok? && Truthy(f.metadata);
  }

  /** The attribute dict and metadata after a change to the attributes. */
  function ChangeStep(f: RelationFields, change: Result<Value>, now: Value): (Result<bool>, RelationFields) {
    match change
    case Err(e) => (Err(e), f)
    case Ok(a) =>
      match Stamp(f.metadata, now)
      case Ok(m) => (Ok(true), f.(attributes := a, metadata := m))
      case Err(e) => (Err(e), f.(attributes := a))
  }

  class TemplateRelation {
    var relationId: Value
    var sourceId: Value
    var targetId: Value
    var relationType: Value
    var relationData: Value
    var attributes: Value
    var metadata: Value

    function Snapshot(): RelationFields
      reads this
    {
      RelationFields(relationId, sourceId, targetId, relationType, relationData, attributes, metadata)
    }

    constructor Of(f: RelationFields)
      ensures Snapshot() == f
    {
      relationId, sourceId, targetId, relationType := f.relationId, f.sourceId, f.targetId, f.relationType;
      relationData, attributes, metadata := f.relationData, f.attributes, f.metadata;
    }

    /** `TemplateRelation(...)` with `__post_init__` */
    static method Create(f: RelationFields, now: Value) returns (r: Result<TemplateRelation>)
      ensures PostInit(f, now).Err? ==> r == Err(ValueError)
      ensures PostInit(f, now).Ok? ==> r.Ok? && fresh(r.value) && r.value.Snapshot() == PostInit(f, now).value
    {
      var g :- PostInit(f, now);
      var e := new TemplateRelation.Of(g);
      return Ok(e);
    }

    method Change(change: Result<Value>, now: Value) returns (r: Result<bool>)
      modifies this
      ensures (r, Snapshot()) == ChangeStep(old(Snapshot()), change, now)
    {
      if change.Err? {
        return Err(change.error);
      }
      attributes := change.value;
      var m := Stamp(metadata, now);
      if m.Err? {
        return Err(m.error);
      }
      metadata := m.value;
      return Ok(true);
    }

    method AddAttribute(key: Value, value: Value, now: Value) returns (r: Result<bool>)
      modifies this
      ensures (r, Snapshot()) == ChangeStep(old(Snapshot()), Attributes.AddAttribute(old(attributes), key, value, false), now)
    {
      r := Change(Attributes.AddAttribute(attributes, key, value, false), now);
    }

    method UpdateAttribute(key: Value, value: Value, now: Value) returns (r: Result<bool>)
      modifies this
      ensures (r, Snapshot()) == ChangeStep(old(Snapshot()), Attributes.UpdateAttribute(old(attributes), key, value), now)
    {
      r := Change(Attributes.UpdateAttribute(attributes, key, value), now);
    }

    method RemoveAttribute(key: Value, now: Value) returns (r: Result<bool>)
      modifies this
      ensures (r, Snapshot()) == ChangeStep(old(Snapshot()), Attributes.RemoveAttribute(old(attributes), key), now)
    {
      r := Change(Attributes.RemoveAttribute(attributes, key), now);
    }

    function GetAttribute(key: Value): (r: Result<Value>)
      reads this
      ensures attributes.VDict? && Hashable(key) ==>
                r == Ok(if key in attributes.entries then attributes.entries[key] else VNone)
    {
      Attributes.GetAttribute(attributes, key)
    }

    /** `validate`: raises ValueError where `__post_init__` would. */
    function Validate(): (r: Result<bool>)
      reads this
      ensures r == Check(Snapshot())
    {
      Check(Snapshot())
    }
  }
}
