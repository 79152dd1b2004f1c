/** `TemplateElement`: an element of a template with an attribute dict, its
 *  construction checks and its dict form. */
module TemplateElements {
  import opened Wrappers
  import opened PyValue
  import opened Attributes

  datatype ElementFields = ElementFields(
    elementId: Value, elementType: Value, content: Value, attributes: Value, metadata: Value)

  /** `__post_init__`: a truthy ID, a truthy type and dict content; empty
   *  metadata becomes fresh `created_at`/`updated_at` stamps. */
  function PostInit(f: ElementFields, now: Value): (r: Result<ElementFields>)
    ensures r.Ok? <==> Truthy(f.elementId) && Truthy(f.elementType) && f.content.VDict?
    ensures r.Err? ==> r.error == ValueError
    ensures r.Ok? ==> r.value == f.(metadata := r.value.metadata) && Truthy(r.value.metadata) &&
                      (Truthy(f.metadata) ==> r.value.metadata == f.metadata)
  {
    if !Truthy(f.elementId) || !Truthy(f.elementType) || !f.content.VDict? then Err(ValueError)
    else if Truthy(f.metadata) then Ok(f)
    else
      var m := map[VStr("created_at") := now, VStr("updated_at") := now];
      assert VStr("created_at") in m;
      Ok(f.(metadata := VDict(m)))
  }

  /** `validate`: the checks of `__post_init__`, answered as a bool. */
  predicate Valid(f: ElementFields) {
    Truthy(f.elementId) && Truthy(f.elementType) && f.content.VDict?
  }

  function ToDict(f: ElementFields): Value {
    VDict(map[VStr("element_id") := f.elementId, VStr("element_type") := f.elementType,
              VStr("content") := f.content, VStr("attributes") := f.attributes,
              VStr("metadata") := f.metadata])
  }

  /** `from_dict`: a dict with a truthy `element_id`, a truthy `element_type`
   *  and dict `content` (default `{}`), then construction. */
  function FromDict(data: Value, now: Value): (r: Result<ElementFields>)
    ensures r.Ok? ==> data.VDict? && r.value.elementId == Get(data.entries, "element_id", VNone) &&
                      r.value.elementType == Get(data.entries, "element_type", VNone) &&
                      r.value.content == Get(data.entries, "content", VDict(map[])) &&
                      r.value.attributes == Get(data.entries, "attributes", VDict(map[]))
    ensures r.Err? ==> r.error == ValueError
  {
    if !data.VDict? then Err(ValueError)
    else
      var d := data.entries;
      var id := Get(d, "element_id", VNone);
      if !Truthy(id) then Err(ValueError)
      else
        var ty := Get(d, "element_type", VNone);
        if !Truthy(ty) then Err(ValueError)
        else
          var content := Get(d, "content", VDict(map[]));
          if !content.VDict? then Err(ValueError)
          else PostInit(ElementFields(id, ty, content, Get(d, "attributes", VDict(map[])),
                                      Get(d, "metadata", VDict(map[]))), now)
  }

  /** `from_dict(to_dict(e))` rebuilds `e` exactly: ID, type, content,
   *  attributes and metadata. */
  lemma DictRoundTrip(given: ElementFields, now: Value, later: Value)
    requires PostInit(given, now).Ok?
    ensures FromDict(ToDict(PostInit(given, now).value), later) == PostInit(given, now)
  {
  }

  /** The new attribute dict and metadata after a change to the attributes:
   *  a failed change leaves both alone; a successful one is stored and then
   *  stamped. */
  function ChangeStep(f: ElementFields, change: Result<Value>, now: Value): (Result<bool>, ElementFields) {
    match change
    case Err(e) => (Err(e), f)
    case Ok(a) =>
      match Stamp(f.metadata, now)
      case Ok(m) => (Ok(true), f.(attributes := a, metadata := m))
      case Err(e) => (Err(e), f.(attributes := a))
  }

  class TemplateElement {
    var elementId: Value
    var elementType: Value
    var content: Value
    var attributes: Value
    var metadata: Value

    function Snapshot(): ElementFields
      reads this
    {
      ElementFields(elementId, elementType, content, attributes, metadata)
    }

    constructor Of(f: ElementFields)
      ensures Snapshot() == f
    {
      elementId, elementType, content, attributes, metadata :=
        f.elementId, f.elementType, f.content, f.attributes, f.metadata;
    }

    /** `TemplateElement(...)` with `__post_init__` */
    static method Create(f: ElementFields, now: Value) returns (r: Result<TemplateElement>)
      ensures PostInit(f, now).Err? ==> r == Err(ValueError)
      ensures PostInit(f, now).Ok? ==> r.Ok? && fresh(r.value) && r.value.Snapshot() == PostInit(f, now).value
    {
      var g :- PostInit(f, now);
      var e := new TemplateElement.Of(g);
      return Ok(e);
    }

    method Change(change: Result<Value>, now: Value) returns (r: Result<bool>)
      modifies this
      ensures (r, Snapshot()) == ChangeStep(old(Snapshot()), change, now)
    {
      if change.Err? {
        return Err(change.error);
      }
      attributes := change.value;
      var m := Stamp(metadata, now);
      if m.Err? {
        return Err(m.error);
      }
      metadata := m.value;
      return Ok(true);
    }

    method AddAttribute(key: Value, value: Value, now: Value) returns (r: Result<bool>)
      modifies this
      ensures (r, Snapshot()) == ChangeStep(old(Snapshot()), Attributes.AddAttribute(old(attributes), key, value, true), now)
    {
      r := Change(Attributes.AddAttribute(attributes, key, value, true), now);
    }

    method UpdateAttribute(key: Value, value: Value, now: Value) returns (r: Result<bool>)
      modifies this
      ensures (r, Snapshot()) == ChangeStep(old(Snapshot()), Attributes.UpdateAttribute(old(attributes), key, value), now)
    {
      r := Change(Attributes.UpdateAttribute(attributes, key, value), now);
    }

    method RemoveAttribute(key: Value, now: Value) returns (r: Result<bool>)
      modifies this
      ensures (r, Snapshot()) == ChangeStep(old(Snapshot()), Attributes.RemoveAttribute(old(attributes), key), now)
    {
      r := Change(Attributes.RemoveAttribute(attributes, key), now);
    }

    function GetAttribute(key: Value): (r: Result<Value>)
      reads this
      ensures attributes.VDict? && Hashable(key) ==>
                r == Ok(if key in attributes.entries then attributes.entries[key] else VNone)
    {
      Attributes.GetAttribute(attributes, key)
    }

    function Validate(): (ok: bool)
      reads this
      ensures ok <==> Valid(Snapshot())
    {
      Truthy(elementId) && Truthy(elementType) && content.VDict?
    }
  }
}
