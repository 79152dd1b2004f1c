/** `TemplateOptimizer`: in-place repairs of a template's elements and
 *  relations. The evaluator scores, the performance monitor's timings and
 *  logging are not part of this model. */
module Optimizer {
  import opened Wrappers
  import opened PyValue

  /** The attributes of a `TemplateElement` object that the optimizer reads
   *  and writes. */
  datatype Element = Element(elementId: string, elementType: string, content: Value)

  /** The attributes of a `TemplateRelation` object that the optimizer reads
   *  and writes. */
  datatype Relation = Relation(sourceId: string, targetId: string, relationType: string)

  /** What a template's dicts hold: the optimizer expects element and
   *  relation objects, but a template filled through `add_element` and
   *  `add_relation` holds plain dicts, on which attribute access raises
   *  AttributeError. */
  datatype Item<T> = Object(obj: T) | Plain(data: Value)

  const RequiredSections: set<string> := {"abstract", "introduction", "methods", "results", "discussion"}

  const ValidRelationTypes: set<string> := {"sequence", "reference", "dependency"}

  /** The template object the optimizer works on: its element and relation
   *  dicts, which the optimizer filters, extends and rewrites. */
  class TemplateParts {
    var elements: map<string, Item<Element>>
    var relations: map<string, Item<Relation>>

    constructor (elements: map<string, Item<Element>>, relations: map<string, Item<Relation>>)
      ensures this.elements == elements && this.relations == relations
    {
      this.elements := elements;
      this.relations := relations;
    }
  }

  // ------------------------------------------------------------------
  // Relations

  /** `_validate_relation_type`: a type outside the three valid ones becomes
   *  "sequence"; nothing else about the relation changes. */
  function FixRelationType(r: Relation): (fixed: Relation)
    ensures fixed.relationType in ValidRelationTypes
    ensures fixed.sourceId == r.sourceId && fixed.targetId == r.targetId
    ensures r.relationType in ValidRelationTypes ==> fixed == r
    ensures r.relationType !in ValidRelationTypes ==> fixed.relationType == "sequence"
  {
    if r.relationType in ValidRelationTypes then r else r.(relationType := "sequence")
  }

  /** The relation dict after `optimize_relations`: an empty dict is left
   *  alone; a plain-dict relation makes the filter raise, which the method
   *  catches, leaving the dict as it was; otherwise the relations whose two
   *  endpoints are elements, with their types repaired. */
  function OptimizedRelations(elements: map<string, Item<Element>>, relations: map<string, Item<Relation>>)
    : map<string, Item<Relation>>
  {
    if relations == map[] || exists id :: id in relations && relations[id].Plain? then relations
    else
      map id | id in relations && relations[id].obj.sourceId in elements && relations[id].obj.targetId in elements ::
        Object(FixRelationType(relations[id].obj))
  }

  /** `optimize_relations`: the filter loop builds the valid relations, the
   *  second loop repairs their types in place. */
  method OptimizeRelations(template: TemplateParts)
    modifies template
    ensures template.relations == OptimizedRelations(old(template.elements), old(template.relations))
    ensures template.elements == old(template.elements)
  {
    if template.relations == map[] {
      return;
    }
    var valid: map<string, Item<Relation>> := map[];
    var remaining := template.relations.Keys;
    while remaining != {}
      invariant remaining <= template.relations.Keys
      invariant forall id :: id in valid <==>
                  (id in template.relations && id !in remaining && template.relations[id].Object? &&
                   template.relations[id].obj.sourceId in template.elements &&
                   template.relations[id].obj.targetId in template.elements)
      invariant forall id :: id in valid ==> valid[id] == template.relations[id]
      invariant forall id :: id in template.relations && id !in remaining ==> template.relations[id].Object?
      decreases remaining
    {
      var id :| id in remaining;
      var relation := template.relations[id];
      if relation.Plain? {
        // `relation.source_id` raises AttributeError; the handler returns
        // the template with its relations untouched.
        return;
      }
      if relation.obj.sourceId in template.elements && relation.obj.targetId in template.elements {
        valid := valid[id := relation];
      }
      remaining := remaining - {id};
    }
    template.relations := valid;
    remaining := valid.Keys;
    while remaining != {}
      invariant remaining <= valid.Keys && template.relations.Keys == valid.Keys
      invariant forall id :: id in valid && id in remaining ==> template.relations[id] == valid[id]
      invariant forall id :: id in valid && id !in remaining ==>
                  template.relations[id] == Object(FixRelationType(valid[id].obj))
      invariant template.elements == old(template.elements)
      decreases remaining
    {
      var id :| id in remaining;
      template.relations := template.relations[id := Object(FixRelationType(template.relations[id].obj))];
      remaining := remaining - {id};
    }
  }

  /** After optimisation every relation of a template whose relations are
   *  all objects resolves to two elements and has a valid type, and a
   *  relation is dropped exactly when one of its endpoints is missing. */
  lemma OptimizedRelationsResolve(elements: map<string, Item<Element>>, relations: map<string, Item<Relation>>)
    requires relations != map[] && forall id :: id in relations ==> relations[id].Object?
    ensures var kept := OptimizedRelations(elements, relations);
            (forall id :: id in kept ==>
               kept[id].Object? && kept[id].obj.sourceId in elements && kept[id].obj.targetId in elements &&
               kept[id].obj.relationType in ValidRelationTypes) &&
            (forall id :: id in relations ==>
               (id in kept <==> relations[id].obj.sourceId in elements && relations[id].obj.targetId in elements))
  {
  }

  /** Optimising relations twice changes nothing more. */
  lemma OptimizeRelationsIdempotent(elements: map<string, Item<Element>>, relations: map<string, Item<Relation>>)
    ensures OptimizedRelations(elements, OptimizedRelations(elements, relations)) == OptimizedRelations(elements, relations)
  {
    var once := OptimizedRelations(elements, relations);
    if once != relations && once != map[] {
      assert forall id :: id in once ==> once[id].Object?;
      var twice := OptimizedRelations(elements, once);
      assert forall id :: id in once ==> id in twice && twice[id] == once[id];
      assert twice == once;
    }
  }

  // ------------------------------------------------------------------
  // Element content

  /** `_optimize_element_content`: non-dict content becomes `{}`; a section
   *  gets `content = ""` and `level = 1` where those keys are missing. */
  function OptimizeElementContent(e: Element): (r: Element)
    ensures r.elementId == e.elementId && r.elementType == e.elementType && r.content.VDict?
    ensures e.content.VDict? ==> forall k :: k in e.content.entries ==> k in r.content.entries && r.content.entries[k] == e.content.entries[k]
    ensures e.elementType == "section" ==> VStr("content") in r.content.entries && VStr("level") in r.content.entries
    ensures e.elementType == "section" && !(e.content.VDict? && VStr("content") in e.content.entries) ==>
              r.content.entries[VStr("content")] == VStr("")
    ensures e.elementType == "section" && !(e.content.VDict? && VStr("level") in e.content.entries) ==>
              r.content.entries[VStr("level")] == VInt(1)
    ensures e.elementType != "section" && e.content.VDict? ==> r == e
    ensures r.content.entries.Keys <= (if e.content.VDict? then e.content.entries.Keys else {}) + {VStr("content"), VStr("level")}
  {
    var m := if e.content.VDict? then e.content.entries else map[];
    if e.elementType == "section" then
      var withContent := if VStr("content") in m then m else m[VStr("content") := VStr("")];
      var withLevel := if VStr("level") in withContent then withContent else withContent[VStr("level") := VInt(1)];
      e.(content := VDict(withLevel))
    else e.(content := VDict(m))
  }

  lemma OptimizeElementContentIdempotent(e: Element)
    ensures OptimizeElementContent(OptimizeElementContent(e)) == OptimizeElementContent(e)
  {
  }

  /** The element dict after `optimize_content`: an empty dict is left
   *  alone; each element object's content is repaired, and plain-dict
   *  elements, on which the repair raises and is caught, stay as they are. */
  function OptimizedContent(elements: map<string, Item<Element>>): map<string, Item<Element>> {
    map id | id in elements :: if elements[id].Object? then Object(OptimizeElementContent(elements[id].obj)) else elements[id]
  }

  /** `optimize_content` */
  method OptimizeContent(template: TemplateParts)
    modifies template
    ensures template.elements == OptimizedContent(old(template.elements))
    ensures template.relations == old(template.relations)
  {
    if template.elements == map[] {
      assert OptimizedContent(template.elements) == map[];
      return;
    }
    ghost var before := template.elements;
    var remaining := template.elements.Keys;
    while remaining != {}
      invariant remaining <= before.Keys && template.elements.Keys == before.Keys
      invariant forall id :: id in remaining ==> template.elements[id] == before[id]
      invariant forall id :: id in before && id !in remaining ==> template.elements[id] == OptimizedContent(before)[id]
      invariant template.relations == old(template.relations)
      decreases remaining
    {
      var id :| id in remaining;
      var item := template.elements[id];
      if item.Object? {
        template.elements := template.elements[id := Object(OptimizeElementContent(item.obj))];
      }
      remaining := remaining - {id};
    }
  }

  // ------------------------------------------------------------------
  // Structure

  /** `_remove_invalid_elements`: keeps only element objects. */
  function ElementObjects(elements: map<string, Item<Element>>): (r: map<string, Item<Element>>)
    ensures forall id :: id in r <==> id in elements && elements[id].Object?
    ensures forall id :: id in r ==> r[id] == elements[id]
  {
    map id | id in elements && elements[id].Object? :: elements[id]
  }

  /** `_optimize_section_structure`: a section's content becomes a dict with
   *  `level = 1` and `content = ""` where those keys are missing. */
  function StructureSection(e: Element): (r: Element)
    requires e.elementType == "section"
    ensures r == OptimizeElementContent(e)
  {
    var m := if e.content.VDict? then e.content.entries else map[];
    var withLevel := if VStr("level") in m then m else m[VStr("level") := VInt(1)];
    var withContent := if VStr("content") in withLevel then withLevel else withLevel[VStr("content") := VStr("")];
    e.(content := VDict(withContent))
  }

  /** The element dict after the section-structure loop. */
  function StructuredSections(elements: map<string, Item<Element>>): map<string, Item<Element>> {
    map id | id in elements ::
      if elements[id].Object? && elements[id].obj.elementType == "section"
      then Object(StructureSection(elements[id].obj)) else elements[id]
  }

  /** A section element whose content text can be read: `elem.content.get`
   *  needs a dict and `.lower()` a string. */
  predicate Readable(item: Item<Element>) {
    item.Object? &&
    (item.obj.elementType == "section" ==>
       item.obj.content.VDict? && Get(item.obj.content.entries, "content", VStr("")).VStr?)
  }

  /** The section names a present section stands for. */
  function SectionName(e: Element): string
    requires e.content.VDict? && Get(e.content.entries, "content", VStr("")).VStr?
  {
    Lower(Get(e.content.entries, "content", VStr("")).s)
  }

  /** `present_sections`: the lower-cased content text of every section
   *  element; any element whose text cannot be read raises. */
  function Present(elements: map<string, Item<Element>>): Result<set<string>> {
    if forall id :: id in elements ==> Readable(elements[id]) then
      Ok(set id | id in elements && elements[id].obj.elementType == "section" :: SectionName(elements[id].obj))
    else Err(AttributeError)
  }

  /** The element `_ensure_required_sections` creates for a missing section. */
  function NewSection(id: string, name: string): Element {
    Element(id, "section", VDict(map[VStr("content") := VStr(Capitalize(name)), VStr("level") := VInt(1)]))
  }

  predicate AllRequiredPresent(elements: map<string, Item<Element>>) {
    Present(elements).Ok? && RequiredSections <= Present(elements).value
  }

  /** The ID `_ensure_required_sections` gives the section for `name`. */
  function SectionId(name: string): (id: string)
    ensures |id| == |name| + 8 && id[8..] == name
  {
    "section_" + name
  }

  /** The new sections for `names`, each under its `section_<name>` ID. */
  function Added(names: set<string>): map<string, Item<Element>> {
    map id | id in (set name | name in names :: SectionId(name)) :: Object(NewSection(id, id[8..]))
  }

  /** `_ensure_required_sections` as written: each missing section is stored
   *  under `section_<name>`, replacing whatever element had that ID. */
  function EnsureRequiredSectionsAsWritten(elements: map<string, Item<Element>>): (r: map<string, Item<Element>>)
    ensures forall id :: id in elements ==> id in r
    ensures forall id :: id in r && id !in elements ==> r[id].Object? && r[id].obj.elementType == "section"
  {
    var present := Present(elements);
    if present.Err? then elements
    else elements + Added(RequiredSections - present.value)
  }

  /** One more name adds its section under its own ID. */
  lemma AddedStep(names: set<string>, name: string)
    ensures Added(names + {name}) == Added(names)[SectionId(name) := Object(NewSection(SectionId(name), name))]
  {
    var A, B := Added(names + {name}), Added(names)[SectionId(name) := Object(NewSection(SectionId(name), name))];
    assert SectionId(name) in (set n | n in names + {name} :: SectionId(n));
    forall id | id in A ensures id in B && A[id] == B[id] {
      var n :| n in names + {name} && id == SectionId(n);
      if n != name {
        assert id in (set m | m in names :: SectionId(m));
      }
    }
    forall id | id in B ensures id in A {
      if id != SectionId(name) {
        var n :| n in names && id == SectionId(n);
        assert id in (set m | m in names + {name} :: SectionId(m));
      }
    }
  }

  /** Storing one more entry into a merged dict. */
  lemma MergeThenStore(a: map<string, Item<Element>>, b: map<string, Item<Element>>, k: string, v: Item<Element>)
    ensures a + b[k := v] == (a + b)[k := v]
  {
  }

  /** One turn of the section loop: storing the section for `name` over the
   *  elements with the sections of `done` gives those of `done + {name}`. */
  lemma StoreSection(start: map<string, Item<Element>>, done: set<string>, name: string)
    ensures (start + Added(done))[SectionId(name) := Object(NewSection(SectionId(name), name))] == start + Added(done + {name})
  {
    AddedStep(done, name);
    MergeThenStore(start, Added(done), SectionId(name), Object(NewSection(SectionId(name), name)));
  }

  /** The section for each name is in `Added`, under its own ID. */
  lemma AddedAt(names: set<string>, name: string)
    requires name in names
    ensures SectionId(name) in Added(names) && Added(names)[SectionId(name)] == Object(NewSection(SectionId(name), name))
  {
    assert SectionId(name) in (set n | n in names :: SectionId(n));
  }

  /** Every ID in `Added` is the ID of one of the names. */
  lemma AddedFrom(names: set<string>, id: string)
    requires id in Added(names)
    ensures |id| >= 8 && id[8..] in names && id == SectionId(id[8..])
    ensures Added(names)[id] == Object(NewSection(id, id[8..]))
  {
    var n :| n in names && id == SectionId(n);
  }

  /** A new section for a required name is readable and reads as that name. */
  lemma NewSectionReads(id: string, name: string)
    requires name in RequiredSections
    ensures Readable(Object(NewSection(id, name)))
    ensures NewSection(id, name).elementType == "section" && SectionName(NewSection(id, name)) == name
  {
    RequiredNamesLowerCase(name);
    LowerCapitalized(name);
  }

  /** What the as-written repair does: an unreadable section leaves the
   *  elements alone; otherwise the section of each missing name is stored
   *  under `section_<name>`, and every other element is kept. */
  lemma AsWrittenRepair(elements: map<string, Item<Element>>)
    ensures Present(elements).Err? ==> EnsureRequiredSectionsAsWritten(elements) == elements
    ensures Present(elements).Ok? ==>
              var after := EnsureRequiredSectionsAsWritten(elements);
              (forall name :: name in RequiredSections - Present(elements).value ==>
                 SectionId(name) in after && after[SectionId(name)] == Object(NewSection(SectionId(name), name))) &&
              (forall id :: id in after <==> id in elements || id in Added(RequiredSections - Present(elements).value)) &&
              (forall id :: id in elements && id !in Added(RequiredSections - Present(elements).value) ==>
                 after[id] == elements[id])
  {
    if present :| Present(elements) == Ok(present) {
      var missing := RequiredSections - present;
      forall name | name in missing
        ensures SectionId(name) in Added(missing) && Added(missing)[SectionId(name)] == Object(NewSection(SectionId(name), name))
      {
        AddedAt(missing, name);
      }
    }
  }

  /** When no element already uses a `section_<name>` ID, the as-written
   *  repair leaves every required section present. */
  lemma AsWrittenRepairComplete(elements: map<string, Item<Element>>)
    requires Present(elements).Ok?
    requires forall name :: name in RequiredSections ==> SectionId(name) !in elements
    ensures AllRequiredPresent(EnsureRequiredSectionsAsWritten(elements))
  {
    var present := Present(elements).value;
    var missing := RequiredSections - present;
    var after := EnsureRequiredSectionsAsWritten(elements);
    assert after == elements + Added(missing);
    forall id | id in after ensures Readable(after[id]) {
      if id in Added(missing) {
        AddedFrom(missing, id);
        NewSectionReads(id, id[8..]);
      }
    }
    assert Present(after).Ok?;
    forall name | name in RequiredSections ensures name in Present(after).value {
      if name in present {
        var k :| k in elements && elements[k].obj.elementType == "section" && SectionName(elements[k].obj) == name;
        if k in Added(missing) {
          AddedFrom(missing, k);
          assert false;
        }
        assert after[k] == elements[k];
      } else {
        AddedAt(missing, name);
        NewSectionReads(SectionId(name), name);
        assert after[SectionId(name)].obj.elementType == "section";
      }
    }
  }

  /** An element with ID `section_abstract` whose text is "Introduction"
   *  makes the as-written repair replace the introduction with an abstract,
   *  so the introduction is missing afterwards. */
  lemma ClobberedSectionGoesMissing()
    ensures var e := Element("section_abstract", "section", VDict(map[VStr("content") := VStr("Introduction")]));
            var elements := map["section_abstract" := Object(e)];
            Present(elements) == Ok({"introduction"}) &&
            Present(EnsureRequiredSectionsAsWritten(elements)).Ok? &&
            "introduction" !in Present(EnsureRequiredSectionsAsWritten(elements)).value
  {
    var e := Element("section_abstract", "section", VDict(map[VStr("content") := VStr("Introduction")]));
    var elements := map["section_abstract" := Object(e)];
    IntroductionIsPresent(e, elements);
    var after := EnsureRequiredSectionsAsWritten(elements);
    NoIntroductionAfter(elements, after);
  }

  /** In the example, every element after the repair is a new section for
   *  one of the four other names. */
  lemma NoIntroductionAfter(elements: map<string, Item<Element>>, after: map<string, Item<Element>>)
    requires elements.Keys == {"section_abstract"} && Present(elements) == Ok({"introduction"})
    requires after == EnsureRequiredSectionsAsWritten(elements)
    ensures forall id :: id in after ==> Readable(after[id]) && SectionName(after[id].obj) != "introduction"
  {
    var missing := RequiredSections - {"introduction"};
    assert "section_abstract" == SectionId("abstract");
    AddedAt(missing, "abstract");
    forall id | id in after ensures Readable(after[id]) && SectionName(after[id].obj) != "introduction" {
      assert id in Added(missing);
      AddedFrom(missing, id);
      NewSectionReads(id, id[8..]);
    }
  }

  lemma IntroductionIsPresent(e: Element, elements: map<string, Item<Element>>)
    requires e == Element("section_abstract", "section", VDict(map[VStr("content") := VStr("Introduction")]))
    requires elements == map["section_abstract" := Object(e)]
    ensures Present(elements) == Ok({"introduction"})
  {
    assert Lower("Introduction") == "introduction";
    assert Get(e.content.entries, "content", VStr("")) == VStr("Introduction");
    assert Readable(elements["section_abstract"]);
    assert forall id :: id in elements ==> id == "section_abstract";
    assert Present(elements).Ok?;
    assert SectionName(e) == "introduction";
    assert elements.Keys == {"section_abstract"};
    assert "introduction" in Present(elements).value by {
      assert "section_abstract" in elements && elements["section_abstract"].obj.elementType == "section";
    }
    assert forall x :: x in Present(elements).value ==> x == "introduction";
    assert Present(elements).value == {"introduction"};
  }

  lemma LongerKeysShrink(keys: set<string>, id: string)
    requires id in keys
    ensures (set k | k in keys && |k| >= |id| + 1) < (set k | k in keys && |k| >= |id|)
  {
    var small := set k | k in keys && |k| >= |id| + 1;
    var big := set k | k in keys && |k| >= |id|;
    assert small <= big;
    assert id in big && id !in small;
  }

  /** An ID not used by `keys`, found by extending `id` with underscores. */
  function FreshId(id: string, keys: set<string>): (r: string)
    ensures r !in keys && id <= r
    decreases set k | k in keys && |k| >= |id|
  {
    if id !in keys then id
    else
      LongerKeysShrink(keys, id);
      var r := FreshId(id + "_", keys);
      assert id <= id + "_";
      r
  }

  /** Capitalising a lower-case name and lower-casing it again gives it back. */
  lemma LowerCapitalized(name: string)
    requires forall i :: 0 <= i < |name| ==> 'a' <= name[i] <= 'z'
    ensures Lower(Capitalize(name)) == name
  {
    if name != [] {
      assert Lower(Capitalize(name))[0] == LowerChar(UpperChar(name[0]));
    }
  }

  lemma RequiredNamesLowerCase(name: string)
    requires name in RequiredSections
    ensures forall i :: 0 <= i < |name| ==> 'a' <= name[i] <= 'z'
  {
  }

  /** Adding the section for a required name under an unused ID adds that
   *  name to the present sections. */
  lemma AddingSectionMakesItPresent(elements: map<string, Item<Element>>, id: string, name: string)
    requires Present(elements).Ok? && id !in elements && name in RequiredSections
    ensures Present(elements[id := Object(NewSection(id, name))]) == Ok(Present(elements).value + {name})
  {
    var after := elements[id := Object(NewSection(id, name))];
    RequiredNamesLowerCase(name);
    LowerCapitalized(name);
    assert SectionName(NewSection(id, name)) == name;
    assert forall k :: k in after ==> Readable(after[k]);
    var p := set k | k in after && after[k].obj.elementType == "section" :: SectionName(after[k].obj);
    assert p == Present(elements).value + {name} by {
      forall x | x in p ensures x in Present(elements).value + {name} {
        var k :| k in after && after[k].obj.elementType == "section" && SectionName(after[k].obj) == x;
        if k != id {
          assert k in elements && elements[k] == after[k];
        }
      }
      forall x | x in Present(elements).value ensures x in p {
        var k :| k in elements && elements[k].obj.elementType == "section" && SectionName(elements[k].obj) == x;
        assert after[k] == elements[k];
      }
      assert after[id].obj.elementType == "section";
    }
  }

  /** `_ensure_required_sections` as evidently intended: each missing
   *  section is stored under `section_<name>` unless that ID is taken, in
   *  which case under the first free ID that extends it with underscores,
   *  so no element is lost. The loop takes the missing names in any order. */
  method EnsureRequiredSections(template: TemplateParts)
    modifies template
    ensures Present(old(template.elements)).Ok? ==> AllRequiredPresent(template.elements)
    ensures Present(old(template.elements)).Err? ==> template.elements == old(template.elements)
    ensures forall id :: id in old(template.elements) ==> id in template.elements && template.elements[id] == old(template.elements)[id]
    ensures forall id :: id in template.elements && id !in old(template.elements) ==>
              template.elements[id].Object? && template.elements[id].obj.elementType == "section"
    ensures template.relations == old(template.relations)
  {
    var present := Present(template.elements);
    if present.Err? {
      return;
    }
    var missing := RequiredSections - present.value;
    var remaining := missing;
    assert present.value + (missing - remaining) == present.value;
    while remaining != {}
      invariant remaining <= missing
      invariant forall id :: id in old(template.elements) ==> id in template.elements && template.elements[id] == old(template.elements)[id]
      invariant forall id :: id in template.elements && id !in old(template.elements) ==>
                  template.elements[id].Object? && template.elements[id].obj.elementType == "section"
      invariant Present(template.elements) == Ok(present.value + (missing - remaining))
      invariant template.relations == old(template.relations)
      decreases remaining
    {
      var name :| name in remaining;
      var id := FreshId("section_" + name, template.elements.Keys);
      AddingSectionMakesItPresent(template.elements, id, name);
      template.elements := template.elements[id := Object(NewSection(id, name))];
      assert present.value + (missing - remaining) + {name} == present.value + (missing - (remaining - {name}));
      remaining := remaining - {name};
    }
  }

  /** `_ensure_required_sections` as the source runs it: the present
   *  sections are read once, then each missing one is stored. */
  method AddMissingSections(template: TemplateParts)
    modifies template
    ensures template.elements == EnsureRequiredSectionsAsWritten(old(template.elements))
    ensures template.relations == old(template.relations)
  {
    var present := Present(template.elements);
    if present.Err? {
      return;
    }
    StoreSections(template, RequiredSections - present.value);
  }

  /** The `for section in missing_sections` loop: a new section stored under
   *  `section_<name>` for each name, in any order. */
  method StoreSections(template: TemplateParts, missing: set<string>)
    modifies template
    ensures template.elements == old(template.elements) + Added(missing)
    ensures template.relations == old(template.relations)
  {
    ghost var start := template.elements;
    ghost var done: set<string> := {};
    var remaining := missing;
    while remaining != {}
      invariant done + remaining == missing
      invariant template.elements == start + Added(done)
      invariant template.relations == old(template.relations)
      decreases remaining
    {
      var name :| name in remaining;
      var id := SectionId(name);
      StoreSection(start, done, name);
      template.elements := template.elements[id := Object(NewSection(id, name))];
      done, remaining := done + {name}, remaining - {name};
    }
  }

  /** The elements after `_remove_invalid_elements` and the section loop. */
  function Structured(elements: map<string, Item<Element>>): map<string, Item<Element>> {
    StructuredSections(ElementObjects(elements))
  }

  /** `optimize_structure`: an empty element dict is left alone; otherwise
   *  non-objects are dropped, sections get their `level` and `content`
   *  keys, and the required sections are added where missing. */
  method OptimizeStructure(template: TemplateParts)
    modifies template
    ensures old(template.elements) == map[] ==> template.elements == map[]
    ensures old(template.elements) != map[] ==>
              template.elements == EnsureRequiredSectionsAsWritten(Structured(old(template.elements)))
    ensures forall id :: id in template.elements ==> template.elements[id].Object? || old(template.elements) == map[]
    ensures template.relations == old(template.relations)
  {
    if template.elements == map[] {
      return;
    }
    template.elements := ElementObjects(template.elements);
    ghost var objects := template.elements;
    var remaining := template.elements.Keys;
    while remaining != {}
      invariant remaining <= objects.Keys && template.elements.Keys == objects.Keys
      invariant forall id :: id in remaining ==> template.elements[id] == objects[id]
      invariant forall id :: id in objects && id !in remaining ==> template.elements[id] == StructuredSections(objects)[id]
      invariant template.relations == old(template.relations)
      decreases remaining
    {
      var id :| id in remaining;
      var item := template.elements[id];
      if item.Object? && item.obj.elementType == "section" {
        template.elements := template.elements[id := Object(StructureSection(item.obj))];
      }
      remaining := remaining - {id};
    }
    assert template.elements == Structured(old(template.elements));
    AddMissingSections(template);
  }
}
