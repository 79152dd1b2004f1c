/** The `Template` dataclass: identity fields, the `elements` and `relations`
 *  dicts with their reference checks, validation and conversion from a dict.
 *  Every field holds a Python value, since `from_dict` stores whatever the
 *  input dict carries; timestamps are passed in as `now`. */
module Templates {
  import opened Wrappers
  import opened PyValue
  import opened Attributes

  /** The dataclass fields, in declaration order. */
  datatype Fields = Fields(
    templateId: Value, name: Value, description: Value, structure: Value,
    elements: Value, relations: Value, content: Value, metadata: Value,
    templateData: Value, style: Value, version: Value, discipline: Value)

  /** The field defaults of the dataclass. */
  function Defaults(templateId: Value): Fields {
    Fields(templateId, VNone, VStr(""), VDict(map[]), VDict(map[]), VDict(map[]), VDict(map[]),
           VDict(map[]), VDict(map[]), VDict(map[]), VStr("1.0.0"), VStr(""))
  }

  /** The metadata `__post_init__` installs when none was given. */
  function FreshMetadata(now: Value, version: Value): (r: Value)
    ensures Truthy(r)
  {
    var m := map[VStr("created_at") := now, VStr("updated_at") := now, VStr("version") := version];
    assert VStr("version") in m;
    VDict(m)
  }

  /** `__post_init__`: the ID and the name must be truthy; empty metadata is
   *  replaced by fresh metadata; a non-empty `template_data` dict then
   *  overrides name, description, structure, elements, relations, content,
   *  style and version (a non-dict one has no `get`). */
  function PostInit(f: Fields, now: Value): (r: Result<Fields>)
    ensures r.Ok? <==> Truthy(f.templateId) && Truthy(f.name) &&
                       (Truthy(f.templateData) ==> f.templateData.VDict?)
    ensures r.Err? ==> r.error == (if Truthy(f.templateId) && Truthy(f.name) then AttributeError else ValueError)
    ensures r.Ok? ==> r.value.templateId == f.templateId && r.value.templateData == f.templateData &&
                      r.value.discipline == f.discipline && Truthy(r.value.metadata) &&
                      (Truthy(f.metadata) ==> r.value.metadata == f.metadata)
    ensures r.Ok? && !Truthy(f.templateData) ==> r.value == f.(metadata := r.value.metadata)
  {
    if !Truthy(f.templateId) || !Truthy(f.name) then Err(ValueError)
    else
      var meta := if Truthy(f.metadata) then f.metadata else FreshMetadata(now, f.version);
      if !Truthy(f.templateData) then Ok(f.(metadata := meta))
      else if !f.templateData.VDict? then Err(AttributeError)
      else
        var d := f.templateData.entries;
        Ok(f.(metadata := meta,
              name := Get(d, "name", f.name),
              description := Get(d, "description", f.description),
              structure := Get(d, "structure", f.structure),
              elements := Get(d, "elements", f.elements),
              relations := Get(d, "relations", f.relations),
              content := Get(d, "content", f.content),
              style := Get(d, "style", f.style),
              version := Get(d, "version", f.version)))
  }

  /** `validate`: the ID and name are truthy and structure, elements,
   *  relations and content are dicts. It answers False instead of raising. */
  predicate Valid(f: Fields) {
    Truthy(f.templateId) && Truthy(f.name) &&
    f.structure.VDict? && f.elements.VDict? && f.relations.VDict? && f.content.VDict?
  }

  /** `to_dict`: every field except `discipline`. */
  function ToDict(f: Fields): (r: Value)
    ensures r.VDict? && VStr("discipline") !in r.entries
    ensures VStr("template_id") in r.entries && r.entries[VStr("template_id")] == f.templateId
  {
    var m := map[VStr("template_id") := f.templateId, VStr("name") := f.name,
                 VStr("description") := f.description, VStr("structure") := f.structure,
                 VStr("elements") := f.elements, VStr("relations") := f.relations,
                 VStr("content") := f.content, VStr("metadata") := f.metadata,
                 VStr("template_data") := f.templateData, VStr("style") := f.style,
                 VStr("version") := f.version];
    VDict(m)
  }

  /** The constructor arguments `from_dict` reads out of `data`. */
  function FromDictArgs(data: Value): (r: Result<Fields>)
    ensures r.Ok? <==> data.VDict? && VStr("template_id") in data.entries
    ensures r.Err? ==> r.error == ValueError
    ensures r.Ok? ==> r.value.templateId == data.entries[VStr("template_id")] && r.value.discipline == VStr("")
  {
    if !data.VDict? then Err(ValueError)
    else if VStr("template_id") !in data.entries then Err(ValueError)
    else
      var d := data.entries;
      Ok(Fields(d[VStr("template_id")], Get(d, "name", VStr("未命名模板")),
                Get(d, "description", VStr("")), Get(d, "structure", VDict(map[])),
                Get(d, "elements", VDict(map[])), Get(d, "relations", VDict(map[])),
                Get(d, "content", VDict(map[])), Get(d, "metadata", VDict(map[])),
                Get(d, "template_data", VDict(map[])), Get(d, "style", VDict(map[])),
                Get(d, "version", VStr("1.0.0")), VStr("")))
  }

  /** `from_dict`: read the arguments, then construct. */
  function FromDict(data: Value, now: Value): Result<Fields> {
    var args :- FromDictArgs(data);
    PostInit(args, now)
  }

  /** `from_dict` fails with ValueError on a non-dict or on a dict without
   *  `template_id`; with a truthy `template_id` and nothing else it builds a
   *  template called "未命名模板" with the default fields. */
  lemma FromDictNeedsTemplateId(data: Value, now: Value)
    ensures !data.VDict? || VStr("template_id") !in data.entries ==> FromDict(data, now) == Err(ValueError)
    ensures data.VDict? && data.entries.Keys == {VStr("template_id")} && Truthy(data.entries[VStr("template_id")]) ==>
              FromDict(data, now).Ok? &&
              FromDict(data, now).value.name == VStr("未命名模板") &&
              Valid(FromDict(data, now).value)
  {
  }

  /** Converting a constructed template to a dict and back gives the same
   *  template, with `discipline` reset (it is not part of the dict), as long as
   *  the name it ended up with is still truthy. */
  lemma {:induction false} DictRoundTrip(given: Fields, now: Value, later: Value)
    requires PostInit(given, now).Ok?
    requires Truthy(PostInit(given, now).value.name)
    ensures FromDict(ToDict(PostInit(given, now).value), later) ==
            Ok(PostInit(given, now).value.(discipline := VStr("")))
  {
    var f := PostInit(given, now).value;
    var d := ToDict(f).entries;
    var args := FromDictArgs(ToDict(f)).value;
    assert args == f.(discipline := VStr(""));
    if Truthy(f.templateData) {
      var td := f.templateData.entries;
      assert f.name == Get(td, "name", given.name);
      assert Get(td, "name", f.name) == f.name;
    }
  }

  /** A template whose `template_data` renamed it to "" is built, but cannot
   *  be rebuilt from its own dict. */
  lemma RoundTripNeedsTruthyName(now: Value)
    ensures var given := Defaults(VStr("t")).(name := VStr("x"),
                                             templateData := VDict(map[VStr("name") := VStr("")]));
            PostInit(given, now).Ok? &&
            FromDict(ToDict(PostInit(given, now).value), now) == Err(ValueError)
  {
    var given := Defaults(VStr("t")).(name := VStr("x"), templateData := VDict(map[VStr("name") := VStr("")]));
    var built := PostInit(given, now);
    assert Get(given.templateData.entries, "name", given.name) == VStr("");
    assert built.Ok? && built.value.name == VStr("");
    var d := ToDict(built.value);
    assert d.entries[VStr("name")] == VStr("");
    var args := FromDictArgs(d);
    assert args.Ok? && args.value.name == VStr("");
  }

  /** Store a changed container, then stamp the metadata; if stamping raises,
   *  the container change has already happened. */
  function Commit(f: Fields, g: Fields, now: Value): (Result<bool>, Fields) {
    match Stamp(f.metadata, now)
    case Ok(m) => (Ok(true), g.(metadata := m))
    case Err(e) => (Err(e), g)
  }

  // ---------------------------------------------------------------- elements

  /** The dict `add_element` produces: the element data must be a non-empty
   *  dict with a truthy `element_id` not yet in `elements`. */
  function AddElementTo(elements: Value, element: Value): (r: Result<Value>)
    ensures elements.VDict? && element.VDict? ==>
              (r.Ok? <==> element.entries != map[] &&
                          Truthy(Get(element.entries, "element_id", VNone)) &&
                          Hashable(Get(element.entries, "element_id", VNone)) &&
                          Get(element.entries, "element_id", VNone) !in elements.entries)
    ensures r.Ok? ==> Truthy(element) && element.VDict?
  {
    if !Truthy(element) then Err(ValueError)
    else if !element.VDict? then Err(AttributeError)
    else
      var id := Get(element.entries, "element_id", VNone);
      if !Truthy(id) then Err(ValueError)
      else
        match Contains(elements, id)
        case Err(e) => Err(e)
        case Ok(present) => if present then Err(ValueError) else SetItem(elements, id, element)
  }

  function AddElementStep(f: Fields, element: Value, now: Value): (Result<bool>, Fields) {
    match AddElementTo(f.elements, element)
    case Err(e) => (Err(e), f)
    case Ok(es) => Commit(f, f.(elements := es), now)
  }

  /** `get_element`: the stored element, or `{}` for an unknown ID. */
  function LookupElement(elements: Value, id: Value): Result<Value> {
    if !Truthy(id) then Err(ValueError) else DictGet(elements, id, VDict(map[]))
  }

  /** What `remove_element` leaves: the ID removed when present, nothing
   *  changed when absent. The flag says whether anything was removed. */
  function RemoveFrom(container: Value, id: Value): Result<(Value, bool)> {
    if !Truthy(id) then Err(ValueError)
    else
      match Contains(container, id)
      case Err(e) => Err(e)
      case Ok(present) =>
        if !present then Ok((container, false))
        else match DelItem(container, id)
             case Err(e) => Err(e)
             case Ok(c) => Ok((c, true))
  }

  function RemoveElementStep(f: Fields, id: Value, now: Value): (Result<bool>, Fields) {
    match RemoveFrom(f.elements, id)
    case Err(e) => (Err(e), f)
    case Ok((es, removed)) => if removed then Commit(f, f.(elements := es), now) else (Ok(true), f)
  }

  /** After a successful `add_element`, `get_element` returns the element under
   *  its ID and every other ID still gives what it gave before. */
  lemma AddThenGetElement(elements: map<Value, Value>, element: Value, other: Value)
    requires AddElementTo(VDict(elements), element).Ok?
    ensures var id := Get(element.entries, "element_id", VNone);
            var es := AddElementTo(VDict(elements), element).value;
            LookupElement(es, id) == Ok(element) &&
            (other != id ==> LookupElement(es, other) == LookupElement(VDict(elements), other))
  {
  }

  /** Removing an element: afterwards its ID gives `{}`; other IDs are
   *  untouched; removing an absent ID succeeds and changes nothing. */
  lemma RemoveThenGetElement(elements: map<Value, Value>, id: Value, other: Value)
    requires Truthy(id) && Hashable(id)
    ensures RemoveFrom(VDict(elements), id).Ok?
    ensures var es := RemoveFrom(VDict(elements), id).value.0;
            LookupElement(es, id) == Ok(VDict(map[])) &&
            (other != id ==> LookupElement(es, other) == LookupElement(VDict(elements), other))
    ensures id !in elements ==> RemoveFrom(VDict(elements), id) == Ok((VDict(elements), false))
  {
  }

  // --------------------------------------------------------------- relations

  /** The dict `add_relation` produces: a truthy `relation_id`, truthy source
   *  and target IDs that both name elements, and a relation ID not yet used. */
  function AddRelationTo(elements: Value, relations: Value, relation: Value): (r: Result<Value>)
    ensures elements.VDict? && relations.VDict? && relation.VDict? ==>
              (r.Ok? <==> relation.entries != map[] &&
                          Truthy(Get(relation.entries, "relation_id", VNone)) &&
                          Hashable(Get(relation.entries, "relation_id", VNone)) &&
                          Get(relation.entries, "source_id", VNone) in elements.entries &&
                          Truthy(Get(relation.entries, "source_id", VNone)) &&
                          Hashable(Get(relation.entries, "source_id", VNone)) &&
                          Get(relation.entries, "target_id", VNone) in elements.entries &&
                          Truthy(Get(relation.entries, "target_id", VNone)) &&
                          Hashable(Get(relation.entries, "target_id", VNone)) &&
                          Get(relation.entries, "relation_id", VNone) !in relations.entries)
    ensures r.Ok? ==> relation.VDict? && relations.VDict? ==>
              r.value == VDict(relations.entries[Get(relation.entries, "relation_id", VNone) := relation])
  {
    if !Truthy(relation) then Err(ValueError)
    else if !relation.VDict? then Err(AttributeError)
    else
      var d := relation.entries;
      var id := Get(d, "relation_id", VNone);
      if !Truthy(id) then Err(ValueError)
      else
        var source := Get(d, "source_id", VNone);
        var target := Get(d, "target_id", VNone);
        if !Truthy(source) || !Truthy(target) then Err(KeyError)
        else
          match Contains(elements, source)
          case Err(e) => Err(e)
          case Ok(hasSource) =>
            if !hasSource then Err(KeyError)
            else
              match Contains(elements, target)
              case Err(e) => Err(e)
              case Ok(hasTarget) =>
                if !hasTarget then Err(KeyError)
                else
                  match Contains(relations, id)
                  case Err(e) => Err(e)
                  case Ok(taken) => if taken then Err(ValueError) else SetItem(relations, id, relation)
  }

  function AddRelationStep(f: Fields, relation: Value, now: Value): (Result<bool>, Fields) {
    match AddRelationTo(f.elements, f.relations, relation)
    case Err(e) => (Err(e), f)
    case Ok(rs) => Commit(f, f.(relations := rs), now)
  }

  function RemoveRelationStep(f: Fields, id: Value, now: Value): (Result<bool>, Fields) {
    match RemoveFrom(f.relations, id)
    case Err(e) => (Err(e), f)
    case Ok((rs, removed)) => if removed then Commit(f, f.(relations := rs), now) else (Ok(true), f)
  }

  /** Every relation in `relations` names two elements. */
  ghost predicate RelationsResolve(elements: map<Value, Value>, relations: map<Value, Value>) {
    forall id :: id in relations && relations[id].VDict? ==>
      Get(relations[id].entries, "source_id", VNone) in elements &&
      Get(relations[id].entries, "target_id", VNone) in elements
  }

  /** `add_relation` and `add_element` keep every relation's endpoints
   *  resolvable; `remove_element` does not cascade, so it can leave a
   *  relation pointing at a removed element. */
  lemma ReferencesKeptByAdds(elements: map<Value, Value>, relations: map<Value, Value>, relation: Value, element: Value)
    requires RelationsResolve(elements, relations)
    ensures AddRelationTo(VDict(elements), VDict(relations), relation).Ok? ==>
              RelationsResolve(elements, AddRelationTo(VDict(elements), VDict(relations), relation).value.entries)
    ensures AddElementTo(VDict(elements), element).Ok? ==>
              RelationsResolve(AddElementTo(VDict(elements), element).value.entries, relations)
  {
  }

  lemma RemoveElementLeavesDangling()
    ensures var e := VDict(map[VStr("element_id") := VStr("a")]);
            var rel := VDict(map[VStr("relation_id") := VStr("r"), VStr("source_id") := VStr("a"),
                                 VStr("target_id") := VStr("a")]);
            var elements := map[VStr("a") := e];
            var relations := map[VStr("r") := rel];
            RelationsResolve(elements, relations) &&
            RemoveFrom(VDict(elements), VStr("a")).Ok? &&
            !RelationsResolve(RemoveFrom(VDict(elements), VStr("a")).value.0.entries, relations)
  {
    var e := VDict(map[VStr("element_id") := VStr("a")]);
    var rel := VDict(map[VStr("relation_id") := VStr("r"), VStr("source_id") := VStr("a"),
                         VStr("target_id") := VStr("a")]);
    var elements := map[VStr("a") := e];
    var relations := map[VStr("r") := rel];
    assert Get(rel.entries, "source_id", VNone) == VStr("a");
    assert Get(rel.entries, "target_id", VNone) == VStr("a");
    assert RelationsResolve(elements, relations);
    var after := RemoveFrom(VDict(elements), VStr("a")).value.0;
    assert after == VDict(map[]);
    assert VStr("r") in relations;
  }

  /** The template object. */
  class Template {
    var templateId: Value
    var name: Value
    var description: Value
    var structure: Value
    var elements: Value
    var relations: Value
    var content: Value
    var metadata: Value
    var templateData: Value
    var style: Value
    var version: Value
    var discipline: Value

    function Snapshot(): Fields
      reads this
    {
      Fields(templateId, name, description, structure, elements, relations, content,
             metadata, templateData, style, version, discipline)
    }

    constructor Of(f: Fields)
      ensures Snapshot() == f
    {
      templateId, name, description, structure := f.templateId, f.name, f.description, f.structure;
      elements, relations, content, metadata := f.elements, f.relations, f.content, f.metadata;
      templateData, style, version, discipline := f.templateData, f.style, f.version, f.discipline;
    }

    method Restore(f: Fields)
      modifies this
      ensures Snapshot() == f
    {
      templateId, name, description, structure := f.templateId, f.name, f.description, f.structure;
      elements, relations, content, metadata := f.elements, f.relations, f.content, f.metadata;
      templateData, style, version, discipline := f.templateData, f.style, f.version, f.discipline;
    }

    /** `Template(...)` with `__post_init__` */
    static method Create(f: Fields, now: Value) returns (r: Result<Template>)
      ensures PostInit(f, now).Err? ==> r == Err(PostInit(f, now).error)
      ensures PostInit(f, now).Ok? ==> r.Ok? && fresh(r.value) && r.value.Snapshot() == PostInit(f, now).value
    {
      var g :- PostInit(f, now);
      var t := new Template.Of(g);
      return Ok(t);
    }

    /** `Template.from_dict(data)` */
    static method FromDictMethod(data: Value, now: Value) returns (r: Result<Template>)
      ensures FromDict(data, now).Err? ==> r == Err(FromDict(data, now).error)
      ensures FromDict(data, now).Ok? ==> r.Ok? && fresh(r.value) && r.value.Snapshot() == FromDict(data, now).value
    {
      var args :- FromDictArgs(data);
      r := Create(args, now);
    }

    function GetElement(id: Value): (r: Result<Value>)
      reads this
      ensures elements.VDict? && Truthy(id) && Hashable(id) ==>
                r == Ok(if id in elements.entries then elements.entries[id] else VDict(map[]))
      ensures !Truthy(id) ==> r == Err(ValueError)
    {
      LookupElement(elements, id)
    }

    function GetRelation(id: Value): (r: Result<Value>)
      reads this
      ensures relations.VDict? && Truthy(id) && Hashable(id) ==>
                r == Ok(if id in relations.entries then relations.entries[id] else VDict(map[]))
      ensures !Truthy(id) ==> r == Err(ValueError)
    {
      LookupElement(relations, id)
    }

    function Validate(): (ok: bool)
      reads this
      ensures ok <==> Valid(Snapshot())
    {
      Truthy(templateId) && Truthy(name) &&
      structure.VDict? && elements.VDict? && relations.VDict? && content.VDict?
    }

    method Touch(now: Value) returns (r: Result<bool>)
      modifies this`metadata
      ensures Stamp(old(metadata), now).Ok? ==> r == Ok(true) && metadata == Stamp(old(metadata), now).value
      ensures Stamp(old(metadata), now).Err? ==> r == Err(Stamp(old(metadata), now).error) && metadata == old(metadata)
    {
      var m := Stamp(metadata, now);
      if m.Err? {
        return Err(m.error);
      }
      metadata := m.value;
      return Ok(true);
    }

    method AddElement(element: Value, now: Value) returns (r: Result<bool>)
      modifies this
      ensures (r, Snapshot()) == AddElementStep(old(Snapshot()), element, now)
      ensures old(Validate()) ==> Validate()
    {
      var es := AddElementTo(elements, element);
      if es.Err? {
        return Err(es.error);
      }
      elements := es.value;
      r := Touch(now);
    }

    method RemoveElement(id: Value, now: Value) returns (r: Result<bool>)
      modifies this
      ensures (r, Snapshot()) == RemoveElementStep(old(Snapshot()), id, now)
      ensures old(Validate()) ==> Validate()
    {
      var res := RemoveFrom(elements, id);
      if res.Err? {
        return Err(res.error);
      }
      if res.value.1 {
        elements := res.value.0;
        r := Touch(now);
      } else {
        r := Ok(true);
      }
    }

    method AddRelation(relation: Value, now: Value) returns (r: Result<bool>)
      modifies this
      ensures (r, Snapshot()) == AddRelationStep(old(Snapshot()), relation, now)
      ensures old(Validate()) ==> Validate()
    {
      var rs := AddRelationTo(elements, relations, relation);
      if rs.Err? {
        return Err(rs.error);
      }
      relations := rs.value;
      r := Touch(now);
    }

    method RemoveRelation(id: Value, now: Value) returns (r: Result<bool>)
      modifies this
      ensures (r, Snapshot()) == RemoveRelationStep(old(Snapshot()), id, now)
      ensures old(Validate()) ==> Validate()
    {
      var res := RemoveFrom(relations, id);
      if res.Err? {
        return Err(res.error);
      }
      if res.value.1 {
        relations := res.value.0;
        r := Touch(now);
      } else {
        r := Ok(true);
      }
    }
  }
}
