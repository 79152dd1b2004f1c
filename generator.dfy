/** `TemplateGenerator`: `generate_template`, which builds a template from
 *  lists of elements and relations, and the progress tracker (`steps`,
 *  `current_step`, the overall status) with its step operations. Clock
 *  readings are passed in as `now`. */
module Generator {
  import opened Wrappers
  import opened PyValue
  import Templates
  import opened Digraph

  // ------------------------------------------------------------------
  // generate_template

  /** The `for element in elements` loop, from the `i`-th element on. */
  function AddElements(f: Templates.Fields, elements: seq<Value>, i: nat, now: Value): (r: Result<Templates.Fields>)
    requires i <= |elements|
    ensures r.Ok? ==> r.value.relations == f.relations && r.value.templateId == f.templateId &&
                      r.value.name == f.name
    decreases |elements| - i
  {
    if i == |elements| then Ok(f)
    else
      var step := Templates.AddElementStep(f, elements[i], now);
      if step.0.Err? then Err(step.0.error) else AddElements(step.1, elements, i + 1, now)
  }

  /** The `for relation in relations` loop, from the `i`-th relation on. */
  function AddRelations(f: Templates.Fields, relations: seq<Value>, i: nat, now: Value): (r: Result<Templates.Fields>)
    requires i <= |relations|
    ensures r.Ok? ==> r.value.elements == f.elements && r.value.templateId == f.templateId &&
                      r.value.name == f.name
    decreases |relations| - i
  {
    if i == |relations| then Ok(f)
    else
      var step := Templates.AddRelationStep(f, relations[i], now);
      if step.0.Err? then Err(step.0.error) else AddRelations(step.1, relations, i + 1, now)
  }

  /** `if elements:` — a missing or empty list adds nothing. */
  function Listed(items: Option<seq<Value>>): seq<Value> {
    if items.Some? then items.value else []
  }

  /** The fresh template: the four given fields over the defaults. */
  function Fresh(templateId: Value, name: Value, description: Value, version: Value): Templates.Fields {
    Templates.Defaults(templateId).(name := name, description := description, version := version)
  }

  /** `generate_template`: an empty ID or name raises ValueError; otherwise a
   *  template with the given fields receives the elements, then the
   *  relations, through `add_element` and `add_relation`. */
  function Generate(templateId: Value, name: Value, description: Value, version: Value,
                    elements: Option<seq<Value>>, relations: Option<seq<Value>>, now: Value)
    : (r: Result<Templates.Fields>)
    ensures !Truthy(templateId) || !Truthy(name) ==> r == Err(ValueError)
    ensures r.Ok? ==> r.value.templateId == templateId && r.value.name == name
  {
    if !Truthy(templateId) || !Truthy(name) then Err(ValueError)
    else
      assert !Truthy(Fresh(templateId, name, description, version).templateData);
      var blank := Templates.PostInit(Fresh(templateId, name, description, version), now).value;
      var withElements :- AddElements(blank, Listed(elements), 0, now);
      AddRelations(withElements, Listed(relations), 0, now)
  }

  /** The ID under which `add_element` stores an element. */
  function ElementKey(element: Value): Value {
    if element.VDict? then Get(element.entries, "element_id", VNone) else VNone
  }

  /** A successful run of the element loop keeps what was there and stores
   *  every listed element under its own ID. */
  lemma {:induction false} AddElementsStores(f: Templates.Fields, elements: seq<Value>, i: nat, now: Value)
    requires i <= |elements| && f.elements.VDict? && AddElements(f, elements, i, now).Ok?
    ensures var g := AddElements(f, elements, i, now).value;
            g.elements.VDict? && f.elements.entries.Keys <= g.elements.entries.Keys &&
            (forall k :: k in f.elements.entries ==> g.elements.entries[k] == f.elements.entries[k]) &&
            (forall j :: i <= j < |elements| ==>
               ElementKey(elements[j]) in g.elements.entries && g.elements.entries[ElementKey(elements[j])] == elements[j])
    decreases |elements| - i
  {
    if i < |elements| {
      var step := Templates.AddElementStep(f, elements[i], now);
      assert Templates.AddElementTo(f.elements, elements[i]).Ok?;
      assert step.1.elements == VDict(f.elements.entries[ElementKey(elements[i]) := elements[i]]);
      AddElementsStores(step.1, elements, i + 1, now);
    }
  }

  /** Every element of a successfully generated template's list is stored
   *  under its `element_id`. */
  lemma GenerateStoresElements(templateId: Value, name: Value, description: Value, version: Value,
                               elements: seq<Value>, relations: Option<seq<Value>>, now: Value)
    requires Generate(templateId, name, description, version, Some(elements), relations, now).Ok?
    ensures var t := Generate(templateId, name, description, version, Some(elements), relations, now).value;
            t.elements.VDict? &&
            forall j :: 0 <= j < |elements| ==>
              ElementKey(elements[j]) in t.elements.entries && t.elements.entries[ElementKey(elements[j])] == elements[j]
  {
    assert !Truthy(Fresh(templateId, name, description, version).templateData);
    var blank := Templates.PostInit(Fresh(templateId, name, description, version), now).value;
    AddElementsStores(blank, elements, 0, now);
  }

  /** `generate_template` on template objects. */
  method GenerateTemplate(templateId: Value, name: Value, description: Value, version: Value,
                          elements: Option<seq<Value>>, relations: Option<seq<Value>>, now: Value)
    returns (r: Result<Templates.Template>)
    ensures var g := Generate(templateId, name, description, version, elements, relations, now);
            (g.Err? ==> r == Err(g.error)) && (g.Ok? ==> r.Ok? && fresh(r.value) && r.value.Snapshot() == g.value)
  {
    if !Truthy(templateId) || !Truthy(name) {
      return Err(ValueError);
    }
    assert !Truthy(Fresh(templateId, name, description, version).templateData);
    var created := Templates.Template.Create(Fresh(templateId, name, description, version), now);
    var template := created.value;
    var added := AddEachElement(template, Listed(elements), now);
    if added.Err? {
      return Err(added.error);
    }
    added := AddEachRelation(template, Listed(relations), now);
    if added.Err? {
      return Err(added.error);
    }
    return Ok(template);
  }

  /** The element loop of `generate_template`, on the template object. */
  method AddEachElement(template: Templates.Template, es: seq<Value>, now: Value) returns (r: Result<()>)
    modifies template
    ensures var goal := AddElements(old(template.Snapshot()), es, 0, now);
            (goal.Ok? ==> r.Ok? && template.Snapshot() == goal.value) && (goal.Err? ==> r == Err(goal.error))
  {
    ghost var goal := AddElements(template.Snapshot(), es, 0, now);
    var i := 0;
    while i < |es|
      invariant i <= |es|
      invariant goal == AddElements(template.Snapshot(), es, i, now)
    {
      ghost var before := template.Snapshot();
      var added := template.AddElement(es[i], now);
      if added.Err? {
        return Err(added.error);
      }
      assert AddElements(before, es, i, now) == AddElements(template.Snapshot(), es, i + 1, now);
      i := i + 1;
    }
    return Ok(());
  }

  /** The relation loop of `generate_template`, on the template object. */
  method AddEachRelation(template: Templates.Template, rs: seq<Value>, now: Value) returns (r: Result<()>)
    modifies template
    ensures var goal := AddRelations(old(template.Snapshot()), rs, 0, now);
            (goal.Ok? ==> r.Ok? && template.Snapshot() == goal.value) && (goal.Err? ==> r == Err(goal.error))
  {
    ghost var goal := AddRelations(template.Snapshot(), rs, 0, now);
    var i := 0;
    while i < |rs|
      invariant i <= |rs|
      invariant goal == AddRelations(template.Snapshot(), rs, i, now)
    {
      ghost var before := template.Snapshot();
      var added := template.AddRelation(rs[i], now);
      if added.Err? {
        return Err(added.error);
      }
      assert AddRelations(before, rs, i, now) == AddRelations(template.Snapshot(), rs, i + 1, now);
      i := i + 1;
    }
    return Ok(());
  }

  // ------------------------------------------------------------------
  // Progress tracking

  datatype Status = Pending | InProgress | Paused | Completed | Failed

  /** `GenerationStep`; the clock readings are opaque values. */
  datatype Step = Step(name: string, status: Status, startTime: Option<Value>, endTime: Option<Value>,
                       progress: real, error: Option<string>, details: Option<Value>)

  /** The tracker fields of `TemplateGenerator`. */
  datatype Tracker = Tracker(steps: map<string, Step>, currentStep: Option<string>, startTime: Option<Value>,
                             endTime: Option<Value>, status: Status, error: Option<string>)

  /** What every tracker operation keeps: each step is stored under its own
   *  name and its progress lies in [0, 1]. */
  predicate Sound(t: Tracker) {
    forall n :: n in t.steps ==> t.steps[n].name == n && 0.0 <= t.steps[n].progress <= 1.0
  }

  const Initial := Tracker(map[], None, None, None, Pending, None)

  function StartGenerationStep(t: Tracker, now: Value): (r: Tracker)
    ensures r.status == InProgress && r.startTime == Some(now) && r.error == None
    ensures r.steps == t.steps && (Sound(t) ==> Sound(r))
  {
    t.(startTime := Some(now), status := InProgress, error := None)
  }

  function EndGenerationStep(t: Tracker, success: bool, error: Option<string>, now: Value): (r: Tracker)
    ensures r.status == (if success then Completed else Failed) && r.endTime == Some(now) && r.error == error
    ensures r.steps == t.steps && (Sound(t) ==> Sound(r))
  {
    t.(endTime := Some(now), status := if success then Completed else Failed, error := error)
  }

  /** `add_step`: a fresh PENDING step, replacing any step of that name. */
  function AddStepStep(t: Tracker, name: string, details: Option<Value>): (r: Tracker)
    ensures name in r.steps && r.steps[name].status == Pending && r.steps[name].progress == 0.0
    ensures forall n :: n != name ==> (n in r.steps <==> n in t.steps) && (n in t.steps ==> r.steps[n] == t.steps[n])
    ensures Sound(t) ==> Sound(r)
  {
    t.(steps := t.steps[name := Step(name, Pending, None, None, 0.0, None, details)])
  }

  /** `start_step`: an unknown step raises ValueError; otherwise the step is
   *  IN_PROGRESS and current. */
  function StartStepStep(t: Tracker, name: string, now: Value): (r: (Result<()>, Tracker))
    ensures name !in t.steps <==> r.0 == Err(ValueError)
    ensures name !in t.steps ==> r.1 == t
    ensures name in t.steps ==> r.1.steps.Keys == t.steps.Keys && r.1.currentStep == Some(name) &&
                                r.1.steps[name].status == InProgress
    ensures Sound(t) ==> Sound(r.1)
  {
    if name !in t.steps then (Err(ValueError), t)
    else
      var s := t.steps[name];
      (Ok(()), t.(currentStep := Some(name), steps := t.steps[name := s.(status := InProgress, startTime := Some(now))]))
  }

  /** `end_step`: an unknown step raises ValueError; otherwise COMPLETED on
   *  success and FAILED otherwise. */
  function EndStepStep(t: Tracker, name: string, success: bool, error: Option<string>, now: Value)
    : (r: (Result<()>, Tracker))
    ensures name !in t.steps <==> r.0 == Err(ValueError)
    ensures name !in t.steps ==> r.1 == t
    ensures name in t.steps ==> r.1.steps.Keys == t.steps.Keys &&
                                r.1.steps[name].status == (if success then Completed else Failed) &&
                                r.1.steps[name].error == error
    ensures Sound(t) ==> Sound(r.1)
  {
    if name !in t.steps then (Err(ValueError), t)
    else
      var s := t.steps[name];
      (Ok(()), t.(steps := t.steps[name := s.(status := if success then Completed else Failed,
                                               endTime := Some(now), error := error)]))
  }

  /** `max(0.0, min(1.0, progress))` */
  function Clamp(progress: real): (r: real)
    ensures 0.0 <= r <= 1.0
    ensures 0.0 <= progress <= 1.0 ==> r == progress
    ensures progress < 0.0 ==> r == 0.0
    ensures progress > 1.0 ==> r == 1.0
  {
    var low := if progress < 1.0 then progress else 1.0;
    if 0.0 > low then 0.0 else low
  }

  /** `update_step_progress`: an unknown step raises ValueError; otherwise the
   *  clamped progress is stored. */
  function UpdateProgressStep(t: Tracker, name: string, progress: real): (r: (Result<()>, Tracker))
    ensures name !in t.steps <==> r.0 == Err(ValueError)
    ensures name !in t.steps ==> r.1 == t
    ensures name in t.steps ==> r.1.steps.Keys == t.steps.Keys && r.1.steps[name].progress == Clamp(progress)
    ensures Sound(t) ==> Sound(r.1)
  {
    if name !in t.steps then (Err(ValueError), t)
    else (Ok(()), t.(steps := t.steps[name := t.steps[name].(progress := Clamp(progress))]))
  }

  /** The names of the steps in a given status. */
  function InStatus(steps: map<string, Step>, s: Status): set<string> {
    set n | n in steps && steps[n].status == s
  }

  /** The counts `get_progress` reports. */
  datatype Progress = Progress(status: Status, startTime: Option<Value>, endTime: Option<Value>,
                               error: Option<string>, totalSteps: nat, completedSteps: nat,
                               failedSteps: nat, inProgressSteps: nat, steps: map<string, Step>)

  function GetProgressOf(t: Tracker): (r: Progress)
    ensures r.totalSteps == |t.steps| && r.completedSteps == |InStatus(t.steps, Completed)|
    ensures r.failedSteps == |InStatus(t.steps, Failed)| && r.inProgressSteps == |InStatus(t.steps, InProgress)|
  {
    Progress(t.status, t.startTime, t.endTime, t.error, |t.steps|, |InStatus(t.steps, Completed)|,
             |InStatus(t.steps, Failed)|, |InStatus(t.steps, InProgress)|, t.steps)
  }

  /** Completed, failed and in-progress steps together never outnumber the
   *  steps. */
  lemma CountsWithinTotal(t: Tracker)
    ensures var p := GetProgressOf(t);
            p.completedSteps + p.failedSteps + p.inProgressSteps <= p.totalSteps
  {
    var C, F, I := InStatus(t.steps, Completed), InStatus(t.steps, Failed), InStatus(t.steps, InProgress);
    assert C * F == {} && (C + F) * I == {};
    assert |C + F| == |C| + |F|;
    assert |C + F + I| == |C + F| + |I|;
    var U := C + F + I;
    assert U <= t.steps.Keys;
    assert |t.steps.Keys| == |t.steps|;
    if U < t.steps.Keys {
      StrictSubsetCard(U, t.steps.Keys);
    } else {
      assert U == t.steps.Keys;
    }
  }

  /** A step that was started and then ended successfully counts as
   *  completed, and no longer as in progress. */
  lemma StartThenEndCompletes(t: Tracker, name: string, now: Value, later: Value)
    requires name in t.steps
    ensures var t1 := StartStepStep(t, name, now).1;
            var t2 := EndStepStep(t1, name, true, None, later).1;
            name in InStatus(t2.steps, Completed) && name !in InStatus(t2.steps, InProgress) &&
            t2.currentStep == Some(name)
  {
  }

  /** The progress-tracking part of `TemplateGenerator`. */
  class TemplateGenerator {
    var steps: map<string, Step>
    var currentStep: Option<string>
    var startTime: Option<Value>
    var endTime: Option<Value>
    var status: Status
    var error: Option<string>

    function Snapshot(): Tracker
      reads this
    {
      Tracker(steps, currentStep, startTime, endTime, status, error)
    }

    constructor ()
      ensures Snapshot() == Initial
    {
      steps, currentStep, startTime, endTime, status, error := map[], None, None, None, Pending, None;
    }

    method StartGeneration(now: Value)
      modifies this
      ensures Snapshot() == StartGenerationStep(old(Snapshot()), now)
    {
      startTime, status, error := Some(now), InProgress, None;
    }

    method EndGeneration(success: bool, err: Option<string>, now: Value)
      modifies this
      ensures Snapshot() == EndGenerationStep(old(Snapshot()), success, err, now)
    {
      endTime := Some(now);
      status := if success then Completed else Failed;
      error := err;
    }

    method AddStep(name: string, details: Option<Value>)
      modifies this
      ensures Snapshot() == AddStepStep(old(Snapshot()), name, details)
    {
      steps := steps[name := Step(name, Pending, None, None, 0.0, None, details)];
    }

    method StartStep(name: string, now: Value) returns (r: Result<()>)
      modifies this
      ensures (r, Snapshot()) == StartStepStep(old(Snapshot()), name, now)
    {
      if name !in steps {
        return Err(ValueError);
      }
      currentStep := Some(name);
      steps := steps[name := steps[name].(status := InProgress, startTime := Some(now))];
      return Ok(());
    }

    method EndStep(name: string, success: bool, err: Option<string>, now: Value) returns (r: Result<()>)
      modifies this
      ensures (r, Snapshot()) == EndStepStep(old(Snapshot()), name, success, err, now)
    {
      if name !in steps {
        return Err(ValueError);
      }
      steps := steps[name := steps[name].(status := if success then Completed else Failed,
                                          endTime := Some(now), error := err)];
      return Ok(());
    }

    method UpdateStepProgress(name: string, progress: real) returns (r: Result<()>)
      modifies this
      ensures (r, Snapshot()) == UpdateProgressStep(old(Snapshot()), name, progress)
    {
      if name !in steps {
        return Err(ValueError);
      }
      steps := steps[name := steps[name].(progress := Clamp(progress))];
      return Ok(());
    }

    function GetProgress(): (r: Progress)
      reads this
      ensures r == GetProgressOf(Snapshot())
      ensures r.completedSteps + r.failedSteps + r.inProgressSteps <= r.totalSteps
    {
      CountsWithinTotal(Snapshot());
      GetProgressOf(Snapshot())
    }
  }
}
