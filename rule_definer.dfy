/** `RuleDefiner`: a registry of named rule definitions, with a format check
 *  and compositions that may only reference rules already defined. */
module RuleDefiners {
  import opened Wrappers
  import opened PyValue

  /** A rule definition: a dict with string keys, stored as a shallow copy. */
  type Definition = map<string, Value>

  type Definitions = map<string, Definition>

  /** `define_rule`: a taken name raises ValueError. */
  function DefineStep(rules: Definitions, name: string, data: Definition): (Outcome, Definitions) {
    if name in rules then (Fail(ValueError), rules) else (Pass, rules[name := data])
  }

  /** `remove_rule` */
  function RemoveStep(rules: Definitions, name: string): (Outcome, Definitions) {
    if name !in rules then (Fail(ValueError), rules) else (Pass, rules - {name})
  }

  /** `get_rule` */
  function GetStep(rules: Definitions, name: string): Result<Definition> {
    if name !in rules then Err(ValueError) else Ok(rules[name])
  }

  /** `update_rule`: the rule must exist, and is replaced as a whole. */
  function UpdateStep(rules: Definitions, name: string, data: Definition): (Outcome, Definitions) {
    if name !in rules then (Fail(ValueError), rules) else (Pass, rules[name := data])
  }

  /** `validate_rule`. `compiles(p)` says whether `re.compile` accepts the
   *  pattern string `p`; a pattern that is not a string makes `re.compile`
   *  raise TypeError, which is not caught. */
  function ValidateStep(rules: Definitions, name: string, compiles: string -> bool): Result<bool> {
    if name !in rules then Err(ValueError)
    else
      var rule := rules[name];
      if "type" !in rule then Ok(false)
      else if rule["type"] != VStr("format") then Ok(true)
      else if "pattern" !in rule then Ok(false)
      else if !rule["pattern"].VStr? then Err(TypeError)
      else Ok(compiles(rule["pattern"].s))
  }

  /** `for rule_name in composition_data["rules"]`: the items a value yields
   *  when iterated, for the values whose iteration order is fixed. A dict is
   *  handled apart, and anything else is not iterable. */
  function Iterated(v: Value): Result<seq<Value>>
    requires !v.VDict?
  {
    match v
    case VStr(s) => Ok(seq(|s|, k requires 0 <= k < |s| => VStr([s[k]])))
    case VList(items) => Ok(items)
    case _ => Err(TypeError)
  }

  /** `rule_name not in self.rules` over `names` in order: an unhashable
   *  name raises TypeError, a name that is not defined ValueError. */
  function CheckNames(rules: Definitions, names: seq<Value>): Outcome {
    if names == [] then Pass
    else if !Hashable(names[0]) then Fail(TypeError)
    else if !(names[0].VStr? && names[0].s in rules) then Fail(ValueError)
    else CheckNames(rules, names[1..])
  }

  /** The references check of `compose_rules`. Iterating a dict yields its
   *  keys, which are all hashable, so its order does not matter. */
  function CheckReferences(rules: Definitions, refs: Value): Outcome {
    if refs.VDict? then
      if forall k :: k in refs.entries ==> k.VStr? && k.s in rules then Pass else Fail(ValueError)
    else
      match Iterated(refs)
      case Err(e) => Fail(e)
      case Ok(names) => CheckNames(rules, names)
  }

  /** `compose_rules`: a taken name, a missing "rules" field or a reference
   *  to an undefined rule raises ValueError; the composition is then stored
   *  as a rule. */
  function ComposeStep(rules: Definitions, name: string, data: Definition): (Outcome, Definitions) {
    if name in rules then (Fail(ValueError), rules)
    else if "rules" !in data then (Fail(ValueError), rules)
    else match CheckReferences(rules, data["rules"])
      case Fail(e) => (Fail(e), rules)
      case Pass => (Pass, rules[name := data])
  }

  /** Every name in `names` is a defined rule. */
  predicate AllDefined(rules: Definitions, names: seq<Value>) {
    forall k :: 0 <= k < |names| ==> names[k].VStr? && names[k].s in rules
  }

  /** The name check passes exactly when every name is defined, and fails
   *  with ValueError when the names are hashable but one is not defined. */
  lemma {:induction false} CheckNamesMeaning(rules: Definitions, names: seq<Value>)
    ensures CheckNames(rules, names).Pass? <==> AllDefined(rules, names)
    ensures (forall k :: 0 <= k < |names| ==> Hashable(names[k])) && !AllDefined(rules, names) ==>
              CheckNames(rules, names) == Fail(ValueError)
  {
    if names != [] {
      CheckNamesMeaning(rules, names[1..]);
      assert forall k :: 1 <= k < |names| ==> names[k] == names[1..][k - 1];
      if AllDefined(rules, names[1..]) && names[0].VStr? && names[0].s in rules {
        forall k | 0 <= k < |names|
          ensures names[k].VStr? && names[k].s in rules
        {
          if k > 0 {
            assert names[k] == names[1..][k - 1];
          }
        }
      }
    }
  }

  /** `define_rule` succeeds exactly for a fresh name, stores the data
   *  under it and changes nothing else; `get_rule` then returns it. */
  lemma DefineChecks(rules: Definitions, name: string, data: Definition)
    ensures var (o, rules') := DefineStep(rules, name, data);
            (o.Pass? <==> name !in rules) && (o.Fail? ==> o.error == ValueError && rules' == rules) &&
            (o.Pass? ==> GetStep(rules', name) == Ok(data) && rules'.Keys == rules.Keys + {name} &&
                         forall k :: k in rules ==> rules'[k] == rules[k])
  {
  }

  /** Removing, getting and updating require the rule to exist; removing
   *  drops only it, updating replaces only it. */
  lemma ExistingRuleRequired(rules: Definitions, name: string, data: Definition)
    ensures RemoveStep(rules, name).0.Pass? <==> name in rules
    ensures GetStep(rules, name).Ok? <==> name in rules
    ensures UpdateStep(rules, name, data).0.Pass? <==> name in rules
    ensures name !in rules ==> RemoveStep(rules, name) == (Fail(ValueError), rules) &&
                               UpdateStep(rules, name, data) == (Fail(ValueError), rules) &&
                               GetStep(rules, name) == Err(ValueError)
    ensures name in rules ==>
              var removed := RemoveStep(rules, name).1;
              var updated := UpdateStep(rules, name, data).1;
              GetStep(removed, name).Err? && removed.Keys == rules.Keys - {name} &&
              GetStep(updated, name) == Ok(data) && updated.Keys == rules.Keys &&
              forall k :: k in rules && k != name ==> removed[k] == rules[k] && updated[k] == rules[k]
  {
  }

  /** A rule without "type" is invalid, a format rule also needs a
   *  "pattern" that compiles, and any other typed rule is valid. */
  lemma ValidateMeaning(rules: Definitions, name: string, compiles: string -> bool)
    ensures ValidateStep(rules, name, compiles).Err? <==>
              name !in rules || ("type" in rules[name] && rules[name]["type"] == VStr("format") &&
                                 "pattern" in rules[name] && !rules[name]["pattern"].VStr?)
    ensures ValidateStep(rules, name, compiles) == Ok(true) <==>
              name in rules && "type" in rules[name] &&
              (rules[name]["type"] == VStr("format") ==>
                 "pattern" in rules[name] && rules[name]["pattern"].VStr? && compiles(rules[name]["pattern"].s))
  {
  }

  /** A stored composition whose "rules" field is a list references only
   *  rules defined when it was composed. */
  lemma ComposeReferencesDefined(rules: Definitions, name: string, data: Definition)
    requires "rules" in data && data["rules"].VList?
    ensures var (o, rules') := ComposeStep(rules, name, data);
            (o.Pass? <==> name !in rules && AllDefined(rules, data["rules"].items)) &&
            (o.Pass? ==> rules' == rules[name := data] && AllDefined(rules', data["rules"].items))
  {
    CheckNamesMeaning(rules, data["rules"].items);
  }

  /** `compose_rules` refuses a taken name and a missing "rules" field with
   *  ValueError, and changes nothing when it fails. */
  lemma ComposeRefuses(rules: Definitions, name: string, data: Definition)
    ensures name in rules ==> ComposeStep(rules, name, data) == (Fail(ValueError), rules)
    ensures "rules" !in data ==> ComposeStep(rules, name, data) == (Fail(ValueError), rules)
    ensures ComposeStep(rules, name, data).0.Fail? ==> ComposeStep(rules, name, data).1 == rules
  {
  }

  class RuleDefiner {
    var rules: Definitions

    constructor ()
      ensures rules == map[]
    {
      rules := map[];
    }

    method DefineRule(name: string, data: Definition) returns (o: Outcome)
      modifies this
      ensures (o, rules) == DefineStep(old(rules), name, data)
    {
      if name in rules {
        return Fail(ValueError);
      }
      rules := rules[name := data];
      return Pass;
    }

    method RemoveRule(name: string) returns (o: Outcome)
      modifies this
      ensures (o, rules) == RemoveStep(old(rules), name)
    {
      if name !in rules {
        return Fail(ValueError);
      }
      rules := rules - {name};
      return Pass;
    }

    function GetRule(name: string): (r: Result<Definition>)
      reads this
      ensures r.Ok? <==> name in rules
      ensures r.Ok? ==> r.value == rules[name]
    {
      GetStep(rules, name)
    }

    method UpdateRule(name: string, data: Definition) returns (o: Outcome)
      modifies this
      ensures (o, rules) == UpdateStep(old(rules), name, data)
    {
      if name !in rules {
        return Fail(ValueError);
      }
      rules := rules[name := data];
      return Pass;
    }

    function ValidateRule(name: string, compiles: string -> bool): (r: Result<bool>)
      reads this
      ensures r.Err? ==> name !in rules || r.error == TypeError
      ensures name in rules && "type" !in rules[name] ==> r == Ok(false)
    {
      ValidateStep(rules, name, compiles)
    }

    /** The reference loop of `compose_rules` over an ordered iterable. */
    method CheckNamesLoop(names: seq<Value>) returns (o: Outcome)
      ensures o == CheckNames(rules, names)
    {
      var i := 0;
      while i < |names|
        invariant 0 <= i <= |names|
        invariant CheckNames(rules, names) == CheckNames(rules, names[i..])
      {
        assert names[i..][1..] == names[i + 1..];
        if !Hashable(names[i]) {
          return Fail(TypeError);
        }
        if !(names[i].VStr? && names[i].s in rules) {
          return Fail(ValueError);
        }
        i := i + 1;
      }
      return Pass;
    }

    method ComposeRules(name: string, data: Definition) returns (o: Outcome)
      modifies this
      ensures (o, rules) == ComposeStep(old(rules), name, data)
    {
      if name in rules {
        return Fail(ValueError);
      }
      if "rules" !in data {
        return Fail(ValueError);
      }
      var refs := data["rules"];
      if refs.VDict? {
        if !(forall k :: k in refs.entries ==> k.VStr? && k.s in rules) {
          return Fail(ValueError);
        }
      } else {
        var names := Iterated(refs);
        if names.Err? {
          return Fail(names.error);
        }
        var checked := CheckNamesLoop(names.value);
        if checked.Fail? {
          return checked;
        }
      }
      rules := rules[name := data];
      return Pass;
    }
  }
}
