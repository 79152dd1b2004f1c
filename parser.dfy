/** `TemplateParser`: the shape check on decoded template data, and the dict
 *  a template is serialised from. Decoding and encoding JSON text are not
 *  part of this model; the parser works here on decoded values. */
module Parser {
  import opened Wrappers
  import opened PyValue
  import Templates

  const RequiredFields: seq<string> := ["template_id", "name", "structure", "elements", "relations"]

  /** The `for field in required_fields` loop: the first missing field stops
   *  the validation. `in` on a value that is not a dict may raise, which the
   *  surrounding `try` turns into False. */
  function AllPresent(data: Value, fields: seq<string>): Result<bool> {
    if |fields| == 0 then Ok(true)
    else
      var present :- Contains(data, VStr(fields[0]));
      if !present then Ok(false) else AllPresent(data, fields[1..])
  }

  /** `isinstance(template_data[key], dict)`, raising when the lookup fails. */
  function IsDictAt(data: Value, key: string): Result<bool> {
    var v :- GetItem(data, VStr(key));
    Ok(v.VDict?)
  }

  /** `key not in template_data or isinstance(template_data[key], dict)` */
  function OptionalDictAt(data: Value, key: string): Result<bool> {
    var present :- Contains(data, VStr(key));
    if !present then Ok(true) else IsDictAt(data, key)
  }

  /** The body of `validate_template_structure` inside its `try`. */
  function CheckStructure(data: Value): Result<bool> {
    var present :- AllPresent(data, RequiredFields);
    if !present then Ok(false)
    else
      var structureOk :- IsDictAt(data, "structure");
      if !structureOk then Ok(false)
      else
        var elementsOk :- IsDictAt(data, "elements");
        if !elementsOk then Ok(false)
        else
          var relationsOk :- IsDictAt(data, "relations");
          if !relationsOk then Ok(false)
          else
            var contentOk :- OptionalDictAt(data, "content");
            if !contentOk then Ok(false)
            else
              var metadataOk :- OptionalDictAt(data, "metadata");
              if !metadataOk then Ok(false)
              else OptionalDictAt(data, "style")
  }

  /** `validate_template_structure`: any exception gives False. */
  function ValidateTemplateStructure(data: Value): bool {
    var r := CheckStructure(data);
    r.Ok? && r.value
  }

  /** The shape the check stands for: a dict with the five required keys, the
   *  three collections dicts, and content, metadata and style dicts when
   *  present. */
  predicate WellShaped(data: Value) {
    data.VDict? &&
    VStr("template_id") in data.entries && VStr("name") in data.entries &&
    VStr("structure") in data.entries && VStr("elements") in data.entries &&
    VStr("relations") in data.entries &&
    data.entries[VStr("structure")].VDict? &&
    data.entries[VStr("elements")].VDict? &&
    data.entries[VStr("relations")].VDict? &&
    (VStr("content") in data.entries ==> data.entries[VStr("content")].VDict?) &&
    (VStr("metadata") in data.entries ==> data.entries[VStr("metadata")].VDict?) &&
    (VStr("style") in data.entries ==> data.entries[VStr("style")].VDict?)
  }

  lemma {:induction false} AllPresentOnDict(data: Value, fields: seq<string>)
    requires data.VDict?
    ensures AllPresent(data, fields) == Ok(forall i :: 0 <= i < |fields| ==> VStr(fields[i]) in data.entries)
    decreases |fields|
  {
    if |fields| > 0 {
      AllPresentOnDict(data, fields[1..]);
      assert forall i :: 1 <= i < |fields| ==> fields[i] == fields[1..][i - 1];
    }
  }

  /** Only a dict gets past the indexing of "structure": lists and strings
   *  that contain the field names still raise there. */
  lemma NonDictRejected(data: Value)
    requires !data.VDict?
    ensures !ValidateTemplateStructure(data)
  {
    var present := AllPresent(data, RequiredFields);
    if present.Ok? && present.value {
      assert GetItem(data, VStr("structure")).Err?;
    }
  }

  /** `validate_template_structure` accepts exactly the well-shaped data. */
  lemma StructureCheckIsShape(data: Value)
    ensures ValidateTemplateStructure(data) <==> WellShaped(data)
  {
    if data.VDict? {
      AllPresentOnDict(data, RequiredFields);
      assert (forall i :: 0 <= i < |RequiredFields| ==> VStr(RequiredFields[i]) in data.entries) <==>
        VStr(RequiredFields[0]) in data.entries && VStr(RequiredFields[1]) in data.entries &&
        VStr(RequiredFields[2]) in data.entries && VStr(RequiredFields[3]) in data.entries &&
        VStr(RequiredFields[4]) in data.entries;
    } else {
      NonDictRejected(data);
    }
  }

  /** `parse_template` on already decoded data: with schema validation on,
   *  data of the wrong shape raises ValueError. */
  function ParseTemplate(data: Value, validateSchema: bool): (r: Result<Value>)
    ensures r.Ok? ==> r.value == data
    ensures r.Err? <==> validateSchema && !WellShaped(data)
  {
    StructureCheckIsShape(data);
    if validateSchema && !ValidateTemplateStructure(data) then Err(ValueError) else Ok(data)
  }

  const SerializedKeys: set<Value> :=
    {VStr("template_id"), VStr("name"), VStr("description"), VStr("version"),
     VStr("structure"), VStr("elements"), VStr("relations"), VStr("content"),
     VStr("metadata"), VStr("style")}

  /** The dict `serialize_template` dumps: ten of the template's fields. A
   *  missing template raises ValueError. */
  function SerializeTemplate(template: Option<Templates.Fields>): (r: Result<Value>)
    ensures template.None? <==> r == Err(ValueError)
    ensures r.Ok? ==> r.value.VDict? && r.value.entries.Keys == SerializedKeys &&
                      r.value.entries[VStr("template_id")] == template.value.templateId &&
                      r.value.entries[VStr("elements")] == template.value.elements &&
                      r.value.entries[VStr("relations")] == template.value.relations &&
                      VStr("template_data") !in r.value.entries && VStr("discipline") !in r.value.entries
  {
    if template.None? then Err(ValueError)
    else
      var t := template.value;
      var m := map[VStr("template_id") := t.templateId, VStr("name") := t.name,
                   VStr("description") := t.description, VStr("version") := t.version,
                   VStr("structure") := t.structure, VStr("elements") := t.elements,
                   VStr("relations") := t.relations, VStr("content") := t.content,
                   VStr("metadata") := t.metadata, VStr("style") := t.style];
      Ok(VDict(m))
  }

  /** A serialised template passes the structure check when its collections
   *  are dicts and its optional parts are dicts. */
  lemma SerializedTemplateIsWellShaped(t: Templates.Fields)
    requires t.structure.VDict? && t.elements.VDict? && t.relations.VDict?
    requires t.content.VDict? && t.metadata.VDict? && t.style.VDict?
    ensures ValidateTemplateStructure(SerializeTemplate(Some(t)).value)
  {
    var d := SerializeTemplate(Some(t)).value;
    StructureCheckIsShape(d);
    assert VStr(RequiredFields[0]) in d.entries && VStr(RequiredFields[1]) in d.entries;
  }
}
