/** `RuleEngine`: a registry of rules keyed by their "id", each checked on
 *  insertion for its required fields, its type and the shape of its
 *  condition. */
module RuleEngines {
  import opened Wrappers
  import opened PyValue

  /** A rule: a dict with string keys. */
  type Rule = map<string, Value>

  type Rules = map<Value, Rule>

  const RequiredFields: seq<string> := ["id", "type", "condition", "action"]

  const RuleTypes: seq<Value> := [VStr("validation"), VStr("transformation"), VStr("generation")]

  const Operators: seq<string> := [">", "<", ">=", "<=", "==", "!="]

  predicate HasFields(rule: Rule) {
    forall f :: f in RequiredFields ==> f in rule
  }

  /** `any(op in condition for op in valid_operators)` over `ops`: the first
   *  `in` that raises ends the scan with its error. */
  function AnyOperator(condition: Value, ops: seq<string>): Result<bool> {
    if ops == [] then Ok(false)
    else
      var hit :- Contains(condition, VStr(ops[0]));
      if hit then Ok(true) else AnyOperator(condition, ops[1..])
  }

  /** `_is_valid_condition` */
  function IsValidCondition(condition: Value): Result<bool> {
    AnyOperator(condition, Operators)
  }

  /** `add_rule`: None, a missing field, an unknown type or an invalid
   *  condition raise ValueError; a condition that `in` cannot search, or an
   *  unhashable "id", raises TypeError. The rule is stored under its "id",
   *  replacing any rule there. */
  function AddStep(rules: Rules, rule: Option<Rule>): (Result<bool>, Rules) {
    if rule.None? || !HasFields(rule.value) then (Err(ValueError), rules)
    else if rule.value["type"] !in RuleTypes then (Err(ValueError), rules)
    else match IsValidCondition(rule.value["condition"])
      case Err(e) => (Err(e), rules)
      case Ok(valid) =>
        if !valid then (Err(ValueError), rules)
        else if !Hashable(rule.value["id"]) then (Err(TypeError), rules)
        else (Ok(true), rules[rule.value["id"] := rule.value])
  }

  /** `get_rule`: `rules.get(rule_id)`, whose TypeError for an unhashable ID
   *  is caught and turned into None. */
  function GetStep(rules: Rules, id: Value): Option<Rule> {
    if id in rules then Some(rules[id]) else None
  }

  /** `remove_rule`: an unknown ID raises ValueError, an unhashable one
   *  TypeError. */
  function RemoveStep(rules: Rules, id: Value): (Result<bool>, Rules) {
    if !Hashable(id) then (Err(TypeError), rules)
    else if id !in rules then (Err(ValueError), rules)
    else (Ok(true), rules - {id})
  }

  /** Every stored rule passed `add_rule`'s checks and sits under its ID. */
  predicate Valid(rules: Rules) {
    forall id :: id in rules ==>
      HasFields(rules[id]) && rules[id]["id"] == id && rules[id]["type"] in RuleTypes &&
      IsValidCondition(rules[id]["condition"]) == Ok(true)
  }

  /** `a + b in s` implies `a in s`. */
  lemma {:induction false} SubstringOfLonger(a: string, b: string, s: string)
    requires IsSubstring(a + b, s)
    ensures IsSubstring(a, s)
  {
    if a + b <= s {
      assert a <= s by {
        assert forall k :: 0 <= k < |a| ==> a[k] == (a + b)[k];
      }
    } else {
      SubstringOfLonger(a, b, s[1..]);
    }
  }

  /** `op in condition` holds without raising. */
  predicate Occurs(condition: Value, op: string) {
    Contains(condition, VStr(op)) == Ok(true)
  }

  /** On a string, a list or a dict the scan never raises and finds an
   *  operator exactly when one occurs in it; on anything else it raises
   *  TypeError. */
  lemma {:induction false} AnyOperatorMeaning(condition: Value, ops: seq<string>)
    ensures condition.VStr? || condition.VList? || condition.VDict? ==>
              AnyOperator(condition, ops) == Ok(exists op :: op in ops && Occurs(condition, op))
    ensures !condition.VStr? && !condition.VList? && !condition.VDict? && ops != [] ==>
              AnyOperator(condition, ops) == Err(TypeError)
  {
    if ops != [] && (condition.VStr? || condition.VList? || condition.VDict?) {
      AnyOperatorMeaning(condition, ops[1..]);
      if Occurs(condition, ops[0]) {
        assert ops[0] in ops;
      } else {
        assert Contains(condition, VStr(ops[0])) == Ok(false);
        assert forall op :: op in ops <==> op == ops[0] || op in ops[1..];
      }
    }
  }

  /** A string condition is valid exactly when it contains `>`, `<`, `==`
   *  or `!=`: the two-character `>=` and `<=` add nothing. */
  lemma ValidStringCondition(s: string)
    ensures IsValidCondition(VStr(s)) ==
            Ok(IsSubstring(">", s) || IsSubstring("<", s) || IsSubstring("==", s) || IsSubstring("!=", s))
  {
    AnyOperatorMeaning(VStr(s), Operators);
    var short := IsSubstring(">", s) || IsSubstring("<", s) || IsSubstring("==", s) || IsSubstring("!=", s);
    var found := exists op :: op in Operators && Occurs(VStr(s), op);
    assert Operators == [">", "<", ">=", "<=", "==", "!="];
    if found {
      var op :| op in Operators && Occurs(VStr(s), op);
      assert IsSubstring(op, s);
      if op == ">=" {
        assert ">" + "=" == op;
        SubstringOfLonger(">", "=", s);
      } else if op == "<=" {
        assert "<" + "=" == op;
        SubstringOfLonger("<", "=", s);
      }
      assert short;
    }
    if short {
      if IsSubstring(">", s) {
        assert Occurs(VStr(s), ">");
      } else if IsSubstring("<", s) {
        assert Occurs(VStr(s), "<");
      } else if IsSubstring("==", s) {
        assert Occurs(VStr(s), "==");
      } else {
        assert Occurs(VStr(s), "!=");
      }
      assert found;
    }
    assert IsValidCondition(VStr(s)) == Ok(found);
  }

  /** `add_rule` succeeds exactly for a rule with every required field, a
   *  known type, a valid condition and a hashable ID; it then stores the
   *  rule under its ID and changes no other entry. */
  lemma AddRuleChecks(rules: Rules, rule: Option<Rule>)
    ensures var (r, rules') := AddStep(rules, rule);
            (r.Ok? <==> rule.Some? && HasFields(rule.value) && rule.value["type"] in RuleTypes &&
                        IsValidCondition(rule.value["condition"]) == Ok(true) && Hashable(rule.value["id"])) &&
            (r.Err? ==> rules' == rules && (rule.None? ==> r.error == ValueError)) &&
            (r.Ok? ==> r.value && GetStep(rules', rule.value["id"]) == Some(rule.value) &&
                       rules'.Keys == rules.Keys + {rule.value["id"]} &&
                       forall id :: id in rules && id != rule.value["id"] ==> rules'[id] == rules[id])
  {
  }

  /** A string condition without a comparison operator is refused with
   *  ValueError, and so is a rule of any other type. */
  lemma AddRuleRefuses(rules: Rules, rule: Rule)
    requires HasFields(rule)
    ensures rule["type"] !in RuleTypes ==> AddStep(rules, Some(rule)).0 == Err(ValueError)
    ensures rule["type"] in RuleTypes && rule["condition"].VStr? &&
            !(IsSubstring(">", rule["condition"].s) || IsSubstring("<", rule["condition"].s) ||
              IsSubstring("==", rule["condition"].s) || IsSubstring("!=", rule["condition"].s)) ==>
            AddStep(rules, Some(rule)).0 == Err(ValueError)
  {
    if rule["condition"].VStr? {
      ValidStringCondition(rule["condition"].s);
    }
  }

  /** `remove_rule` succeeds exactly for a stored ID and removes only it;
   *  `get_rule` then returns None. */
  lemma RemoveRuleChecks(rules: Rules, id: Value)
    ensures var (r, rules') := RemoveStep(rules, id);
            (r.Ok? <==> id in rules && Hashable(id)) &&
            (r.Err? ==> rules' == rules && (Hashable(id) ==> r.error == ValueError)) &&
            (r.Ok? ==> GetStep(rules', id) == None && rules'.Keys == rules.Keys - {id} &&
                       forall k :: k in rules' ==> rules'[k] == rules[k])
  {
  }

  /** Adding and removing keep every stored rule checked and under its ID. */
  lemma StepsKeepValid(rules: Rules, rule: Option<Rule>, id: Value)
    requires Valid(rules)
    ensures Valid(AddStep(rules, rule).1)
    ensures Valid(RemoveStep(rules, id).1)
  {
  }

  /** The required-field loop of `add_rule`. */
  method CheckFields(rule: Rule) returns (ok: bool)
    ensures ok <==> HasFields(rule)
  {
    for i := 0 to |RequiredFields|
      invariant forall f :: f in RequiredFields[..i] ==> f in rule
    {
      if RequiredFields[i] !in rule {
        return false;
      }
    }
    assert RequiredFields[..|RequiredFields|] == RequiredFields;
    return true;
  }

  class RuleEngine {
    var rules: Rules

    constructor ()
      ensures rules == map[]
    {
      rules := map[];
    }

    /** `define_rule` passes only the rule data to `RuleDefiner.define_rule`,
     *  which takes a name as well; the TypeError that follows is caught, as
     *  are the ValueErrors of the two guards before it, so the call always
     *  returns False and stores nothing. */
    method DefineRule(id: Value, data: Value) returns (ok: bool)
      ensures !ok
    {
      return false;
    }

    method AddRule(rule: Option<Rule>) returns (r: Result<bool>)
      modifies this
      ensures (r, rules) == AddStep(old(rules), rule)
    {
      if rule.None? {
        return Err(ValueError);
      }
      var complete := CheckFields(rule.value);
      if !complete {
        return Err(ValueError);
      }
      if rule.value["type"] !in RuleTypes {
        return Err(ValueError);
      }
      var valid :- IsValidCondition(rule.value["condition"]);
      if !valid {
        return Err(ValueError);
      }
      var id := rule.value["id"];
      if !Hashable(id) {
        return Err(TypeError);
      }
      rules := rules[id := rule.value];
      return Ok(true);
    }

    function GetRule(id: Value): (r: Option<Rule>)
      reads this
      ensures r.Some? <==> id in rules
      ensures r.Some? ==> r.value == rules[id]
    {
      GetStep(rules, id)
    }

    method RemoveRule(id: Value) returns (r: Result<bool>)
      modifies this
      ensures (r, rules) == RemoveStep(old(rules), id)
    {
      if !Hashable(id) {
        return Err(TypeError);
      }
      if id !in rules {
        return Err(ValueError);
      }
      rules := rules - {id};
      return Ok(true);
    }
  }
}
