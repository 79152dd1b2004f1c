/** `TemplateLibrary`: discipline templates registered by discipline name.
 *  Saving the library to a file and loading it back are not part of this
 *  model. */
module TemplateLib {
  import opened Wrappers
  import Templates

  /** `add_template` on the library's dict: an empty discipline or a missing
   *  template is refused; otherwise the template is stored, replacing any
   *  earlier one for that discipline. */
  function AddStep(templates: map<string, Templates.Template>, discipline: string, template: Templates.Template?)
    : (bool, map<string, Templates.Template>)
  {
    if discipline == "" || template == null then (false, templates)
    else (true, templates[discipline := template])
  }

  /** `remove_template`: an empty or unknown ID raises ValueError. */
  function RemoveStep(templates: map<string, Templates.Template>, templateId: string)
    : (Result<bool>, map<string, Templates.Template>)
  {
    if templateId == "" || templateId !in templates then (Err(ValueError), templates)
    else (Ok(true), templates - {templateId})
  }

  /** `get_template`: None for an unknown discipline. */
  function GetStep(templates: map<string, Templates.Template>, discipline: string): Templates.Template? {
    if discipline in templates then templates[discipline] else null
  }

  /** A stored template is what a later lookup of its discipline returns;
   *  other disciplines keep their templates. */
  lemma AddThenGet(templates: map<string, Templates.Template>, discipline: string, template: Templates.Template, other: string)
    requires discipline != ""
    ensures AddStep(templates, discipline, template).0
    ensures GetStep(AddStep(templates, discipline, template).1, discipline) == template
    ensures other != discipline ==> GetStep(AddStep(templates, discipline, template).1, other) == GetStep(templates, other)
  {
  }

  /** After a successful removal the discipline has no template, and the
   *  others are untouched; a failed removal changes nothing. */
  lemma RemoveThenGet(templates: map<string, Templates.Template>, templateId: string, other: string)
    ensures var (r, after) := RemoveStep(templates, templateId);
            (r.Ok? <==> templateId != "" && templateId in templates) &&
            (r.Ok? ==> GetStep(after, templateId) == null) &&
            (other != templateId ==> GetStep(after, other) == GetStep(templates, other)) &&
            (r.Err? ==> after == templates)
  {
  }

  /** Adding and then removing a discipline that was not registered leaves
   *  the library as it was. */
  lemma AddThenRemoveRestores(templates: map<string, Templates.Template>, discipline: string, template: Templates.Template)
    requires discipline != "" && discipline !in templates
    ensures RemoveStep(AddStep(templates, discipline, template).1, discipline) == (Ok(true), templates)
  {
    assert AddStep(templates, discipline, template).1 - {discipline} == templates;
  }

  class TemplateLibrary {
    var templates: map<string, Templates.Template>

    constructor ()
      ensures templates == map[]
    {
      templates := map[];
    }

    method AddTemplate(discipline: string, template: Templates.Template?) returns (ok: bool)
      modifies this
      ensures (ok, templates) == AddStep(old(templates), discipline, template)
    {
      if discipline == "" || template == null {
        return false;
      }
      templates := templates[discipline := template];
      return true;
    }

    function GetTemplate(discipline: string): (t: Templates.Template?)
      reads this
      ensures t == null <==> discipline !in templates
      ensures t != null ==> t == templates[discipline]
    {
      GetStep(templates, discipline)
    }

    method RemoveTemplate(templateId: string) returns (r: Result<bool>)
      modifies this
      ensures (r, templates) == RemoveStep(old(templates), templateId)
    {
      if templateId == "" {
        return Err(ValueError);
      }
      if templateId !in templates {
        return Err(ValueError);
      }
      templates := templates - {templateId};
      return Ok(true);
    }
  }
}
