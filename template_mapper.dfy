/** `TemplateMapper`: the table of allowed template-type combinations, and
 *  the merge of two discipline templates (features, template files and
 *  requirements) into a combined one. Reading the JSON configuration file
 *  is not part of this model: the loader takes the decoded rules. */
module Mapper {
  import opened Wrappers
  import opened PyValue

  type Pair = (string, string)

  /** One entry of `combination_rules.allowed_combinations`. */
  datatype CombinationRule = CombinationRule(primaryType: string, secondaryType: string, weight: real)

  function PairOf(rule: CombinationRule): Pair {
    (rule.primaryType, rule.secondaryType)
  }

  /** The combination cache after loading `rules` in order: a later rule for
   *  the same pair of types replaces the weight of an earlier one. */
  function CacheOf(rules: seq<CombinationRule>): map<Pair, real> {
    if rules == [] then map[]
    else
      var last := rules[|rules| - 1];
      CacheOf(rules[..|rules| - 1])[PairOf(last) := last.weight]
  }

  predicate Listed(rules: seq<CombinationRule>, pair: Pair) {
    exists i :: 0 <= i < |rules| && PairOf(rules[i]) == pair
  }

  /** `_is_combination_allowed` */
  predicate Allowed(cache: map<Pair, real>, primaryType: string, secondaryType: string) {
    (primaryType, secondaryType) in cache
  }

  /** `_get_combination_weight`: 0.0 for a pair that is not in the cache. */
  function Weight(cache: map<Pair, real>, primaryType: string, secondaryType: string): real {
    if (primaryType, secondaryType) in cache then cache[(primaryType, secondaryType)] else 0.0
  }

  /** After loading, a combination is allowed exactly when some rule lists
   *  its pair of types. */
  lemma {:induction false} AllowedIffListed(rules: seq<CombinationRule>, primaryType: string, secondaryType: string)
    ensures Allowed(CacheOf(rules), primaryType, secondaryType) <==> Listed(rules, (primaryType, secondaryType))
    decreases |rules|
  {
    if rules != [] {
      var init := rules[..|rules| - 1];
      AllowedIffListed(init, primaryType, secondaryType);
      if Listed(init, (primaryType, secondaryType)) {
        var i :| 0 <= i < |init| && PairOf(init[i]) == (primaryType, secondaryType);
        assert PairOf(rules[i]) == (primaryType, secondaryType);
      }
      if Listed(rules, (primaryType, secondaryType)) {
        var i :| 0 <= i < |rules| && PairOf(rules[i]) == (primaryType, secondaryType);
        if i < |init| {
          assert PairOf(init[i]) == (primaryType, secondaryType);
        }
      }
    }
  }

  /** The weight of a listed pair is that of the last rule listing it; an
   *  unlisted pair weighs 0.0. */
  lemma {:induction false} WeightOfLastRule(rules: seq<CombinationRule>, i: nat)
    requires i < |rules|
    requires forall j :: i < j < |rules| ==> PairOf(rules[j]) != PairOf(rules[i])
    ensures Weight(CacheOf(rules), rules[i].primaryType, rules[i].secondaryType) == rules[i].weight
    decreases |rules|
  {
    if i < |rules| - 1 {
      var init := rules[..|rules| - 1];
      WeightOfLastRule(init, i);
    }
  }

  lemma UnlistedWeighsZero(rules: seq<CombinationRule>, primaryType: string, secondaryType: string)
    requires !Listed(rules, (primaryType, secondaryType))
    ensures Weight(CacheOf(rules), primaryType, secondaryType) == 0.0
  {
    AllowedIffListed(rules, primaryType, secondaryType);
  }

  // ------------------------------------------------------------------
  // Section order

  predicate NoDuplicates(xs: seq<Value>) {
    forall i, j :: 0 <= i < j < |xs| ==> xs[i] != xs[j]
  }

  /** The sections of `xs` in order, each kept at its first occurrence. */
  function Dedup(xs: seq<Value>): (r: seq<Value>)
    ensures NoDuplicates(r)
    ensures forall x :: x in r <==> x in xs
  {
    if xs == [] then []
    else
      var kept := Dedup(xs[..|xs| - 1]);
      var last := xs[|xs| - 1];
      assert xs == xs[..|xs| - 1] + [last];
      if last in kept then kept else kept + [last]
  }

  /** The index of the first occurrence of `x` in `xs`. */
  function FirstIndex(xs: seq<Value>, x: Value): (i: nat)
    requires x in xs
    ensures i < |xs| && xs[i] == x && x !in xs[..i]
  {
    if xs[0] == x then 0
    else
      var i := 1 + FirstIndex(xs[1..], x);
      assert xs[..i] == [xs[0]] + xs[1..][..i - 1];
      i
  }

  lemma {:induction false} FirstIndexOfPrefix(xs: seq<Value>, ys: seq<Value>, x: Value)
    requires x in xs
    ensures FirstIndex(xs + ys, x) == FirstIndex(xs, x)
  {
    if xs[0] != x {
      assert (xs + ys)[1..] == xs[1..] + ys;
      FirstIndexOfPrefix(xs[1..], ys, x);
    }
  }

  /** Merging keeps the first occurrences of the primary sections as a
   *  prefix: the primary order comes first. */
  lemma {:induction false} DedupKeepsPrefix(xs: seq<Value>, ys: seq<Value>)
    ensures Dedup(xs) <= Dedup(xs + ys)
    decreases |ys|
  {
    if ys != [] {
      var init := ys[..|ys| - 1];
      DedupKeepsPrefix(xs, init);
      assert (xs + ys)[..|xs + ys| - 1] == xs + init;
    } else {
      assert xs + ys == xs;
    }
  }

  /** `r` lists values of `xs` in the order of their first occurrences. */
  predicate InFirstOccurrenceOrder(xs: seq<Value>, r: seq<Value>) {
    (forall x :: x in r ==> x in xs) &&
    forall i, j :: 0 <= i < j < |r| ==> FirstIndex(xs, r[i]) < FirstIndex(xs, r[j])
  }

  /** The merged order lists sections in the order of their first
   *  occurrences. */
  lemma {:induction false} DedupFirstOccurrences(xs: seq<Value>)
    ensures InFirstOccurrenceOrder(xs, Dedup(xs))
    decreases |xs|
  {
    if xs != [] {
      var init, last := xs[..|xs| - 1], xs[|xs| - 1];
      assert xs == init + [last];
      DedupFirstOccurrences(init);
      var kept := Dedup(init);
      assert InFirstOccurrenceOrder(init, kept);
      var r := Dedup(xs);
      assert xs[..|xs| - 1] == init;
      assert r == if last in kept then kept else kept + [last];
      forall i, j | 0 <= i < j < |r| ensures FirstIndex(xs, r[i]) < FirstIndex(xs, r[j]) {
        assert r[i] == kept[i] && r[i] in init;
        FirstIndexOfPrefix(init, [last], r[i]);
        if j < |kept| {
          assert r[j] == kept[j] && r[j] in init;
          FirstIndexOfPrefix(init, [last], r[j]);
          assert FirstIndex(init, kept[i]) < FirstIndex(init, kept[j]);
        } else {
          assert r[j] == last && last !in init;
          assert forall m :: 0 <= m < |init| ==> xs[m] == init[m] && init[m] != last;
          assert FirstIndex(xs, last) == |init|;
          assert FirstIndex(init, r[i]) < |init|;
        }
      }
    }
  }

  /** The sequence `a + b` iterates over: two lists concatenate, two
   *  strings concatenate and iterate by character; anything else raises. */
  function Concat(a: Value, b: Value): Result<seq<Value>> {
    if a.VList? && b.VList? then Ok(a.items + b.items)
    else if a.VStr? && b.VStr? then
      var s := a.s + b.s;
      Ok(seq(|s|, i requires 0 <= i < |s| => VStr([s[i]])))
    else Err(TypeError)
  }

  predicate AllHashable(xs: seq<Value>) {
    forall i :: 0 <= i < |xs| ==> Hashable(xs[i])
  }

  /** `_merge_section_order`: the loop over `primary + secondary` with a
   *  `seen` set. An unhashable section raises TypeError at the `seen` test. */
  method MergeSectionOrder(primary: Value, secondary: Value) returns (r: Result<seq<Value>>)
    ensures Concat(primary, secondary).Err? ==> r == Err(TypeError)
    ensures Concat(primary, secondary).Ok? ==>
              var xs := Concat(primary, secondary).value;
              r == if AllHashable(xs) then Ok(Dedup(xs)) else Err(TypeError)
  {
    var joined := Concat(primary, secondary);
    if joined.Err? {
      return Err(TypeError);
    }
    r := FirstOccurrences(joined.value);
  }

  /** The `seen`-set loop of `_merge_section_order` over the joined list. */
  /** One more section: it is kept when it is new, and the sections seen
   *  stay hashable only when it is. */
  lemma FirstOccurrencesStep(xs: seq<Value>, i: nat)
    requires i < |xs|
    ensures Dedup(xs[..i + 1]) == if xs[i] in Dedup(xs[..i]) then Dedup(xs[..i]) else Dedup(xs[..i]) + [xs[i]]
    ensures AllHashable(xs[..i + 1]) <==> AllHashable(xs[..i]) && Hashable(xs[i])
    ensures !Hashable(xs[i]) ==> !AllHashable(xs)
  {
    assert xs[..i + 1][..i] == xs[..i] && xs[..i + 1][i] == xs[i];
  }

  method FirstOccurrences(xs: seq<Value>) returns (r: Result<seq<Value>>)
    ensures r == if AllHashable(xs) then Ok(Dedup(xs)) else Err(TypeError)
  {
    var result: seq<Value> := [];
    var seen: set<Value> := {};
    var i := 0;
    while i < |xs|
      invariant i <= |xs|
      invariant AllHashable(xs[..i])
      invariant result == Dedup(xs[..i])
      invariant forall x :: x in seen <==> x in result
    {
      var section := xs[i];
      FirstOccurrencesStep(xs, i);
      if !Hashable(section) {
        return Err(TypeError);
      }
      if section !in seen {
        result := result + [section];
        seen := seen + {section};
      }
      i := i + 1;
    }
    assert xs[..i] == xs;
    return Ok(result);
  }

  // ------------------------------------------------------------------
  // Features, template files and requirements

  /** A shared features key keeps the primary value, except that a string
   *  secondary value is joined to it as `<primary>_<secondary>` when the key
   *  is not `research_type`. */
  function JoinedFeature(key: Value, primary: Value, secondary: Value): Value {
    if key != VStr("research_type") && secondary.VStr? then VStr(Str(primary) + "_" + secondary.s) else primary
  }

  /** `m` is what `_merge_features` makes of two feature dicts: every key of
   *  either, a key of one side only with that side's value, and a shared key
   *  with `JoinedFeature`. */
  predicate MergedFeatures(p: map<Value, Value>, s: map<Value, Value>, m: map<Value, Value>) {
    m.Keys == p.Keys + s.Keys &&
    (forall k :: k in p && k !in s ==> m[k] == p[k]) &&
    (forall k :: k in s && k !in p ==> m[k] == s[k]) &&
    (forall k :: k in p && k in s ==> m[k] == JoinedFeature(k, p[k], s[k]))
  }

  /** The merge of two feature dicts does not depend on the order in which
   *  the secondary keys are visited: it is determined by the two dicts. */
  lemma MergedFeaturesUnique(p: map<Value, Value>, s: map<Value, Value>, m1: map<Value, Value>, m2: map<Value, Value>)
    requires MergedFeatures(p, s, m1) && MergedFeatures(p, s, m2)
    ensures m1 == m2
  {
    forall k | k in m1 ensures m1[k] == m2[k] {
    }
  }

  /** Merging with no secondary features gives the primary ones back. */
  lemma MergedFeaturesNoSecondary(p: map<Value, Value>, m: map<Value, Value>)
    requires MergedFeatures(p, map[], m)
    ensures m == p
  {
    forall k | k in m ensures m[k] == p[k] {
      assert k in p;
    }
  }

  /** A secondary key a list of features leaves alone: it is an item of the
   *  list, is not `research_type`, and its value is not a string. */
  predicate SkipsKey(items: seq<Value>, s: map<Value, Value>, k: Value)
    requires k in s
  {
    k in items && k != VStr("research_type") && !s[k].VStr?
  }

  /** `_merge_features`: `primary.copy()` then the loop over
   *  `secondary.items()`, which visits the keys in whatever order the dict
   *  yields them. A primary without `copy` (neither dict nor list) or a
   *  secondary without `items` raises AttributeError. Two dicts always
   *  merge as `MergedFeatures` says. A list primary comes back unchanged
   *  when the secondary is empty; with string keys (as decoded JSON has) it
   *  comes back unchanged when the loop skips every key and raises
   *  TypeError otherwise, because a list cannot be indexed by a string. */
  method MergeFeatures(primary: Value, secondary: Value) returns (r: Result<Value>)
    ensures !(primary.VDict? || primary.VList?) || !secondary.VDict? ==> r == Err(AttributeError)
    ensures primary.VDict? && secondary.VDict? ==>
              r.Ok? && r.value.VDict? && MergedFeatures(primary.entries, secondary.entries, r.value.entries)
    ensures primary.VList? && r.Ok? ==> r.value.VList? && |r.value.items| == |primary.items|
    ensures primary.VList? && secondary.VDict? && secondary.entries == map[] ==> r == Ok(primary)
    ensures primary.VList? && secondary.VDict? && (forall k :: k in secondary.entries ==> k.VStr?) ==>
              r == if forall k :: k in secondary.entries ==> SkipsKey(primary.items, secondary.entries, k)
                   then Ok(primary) else Err(TypeError)
  {
    if !(primary.VDict? || primary.VList?) || !secondary.VDict? {
      return Err(AttributeError);
    }
    if primary.VDict? {
      var m := MergeFeatureDicts(primary.entries, secondary.entries);
      return Ok(VDict(m));
    }
    r := MergeIntoList(primary.items, secondary.entries);
  }

  /** The loop of `_merge_features` over two dicts. */
  method MergeFeatureDicts(p: map<Value, Value>, s: map<Value, Value>) returns (m: map<Value, Value>)
    ensures MergedFeatures(p, s, m)
  {
    m := p;
    var remaining := s.Keys;
    while remaining != {}
      invariant remaining <= s.Keys
      invariant m.Keys == p.Keys + (s.Keys - remaining)
      invariant forall k :: k in m && k in remaining ==> m[k] == p[k]
      invariant forall k :: k in s && k !in remaining && k !in p ==> m[k] == s[k]
      invariant forall k :: k in s && k !in remaining && k in p ==> m[k] == JoinedFeature(k, p[k], s[k])
      invariant forall k :: k in p && k !in s ==> m[k] == p[k]
      decreases remaining
    {
      var key :| key in remaining;
      var value := s[key];
      if key !in m {
        m := m[key := value];
      } else if key == VStr("research_type") {
        m := m[key := p[key]];
      } else if value.VStr? {
        m := m[key := VStr(Str(m[key]) + "_" + value.s)];
      }
      remaining := remaining - {key};
    }
  }

  /** The loop of `_merge_features` over a copy of a list, with the list
   *  operations `in`, `result[key]` and `result[key] = value`. */
  method MergeIntoList(items: seq<Value>, s: map<Value, Value>) returns (r: Result<Value>)
    ensures r.Ok? ==> r.value.VList? && |r.value.items| == |items|
    ensures s == map[] ==> r == Ok(VList(items))
    ensures (forall k :: k in s ==> k.VStr?) ==>
              r == if forall k :: k in s ==> SkipsKey(items, s, k) then Ok(VList(items)) else Err(TypeError)
  {
    var result := VList(items);
    var remaining := s.Keys;
    while remaining != {}
      invariant remaining <= s.Keys
      invariant result.VList? && |result.items| == |items|
      invariant (forall k :: k in s ==> k.VStr?) ==>
                  result == VList(items) && forall k :: k in s && k !in remaining ==> SkipsKey(items, s, k)
      decreases remaining
    {
      var key :| key in remaining;
      var value := s[key];
      var present := Contains(result, key);
      if !present.value {
        var stored := SetItem(result, key, value);
        if stored.Err? {
          return Err(stored.error);
        }
        result := stored.value;
      } else if key == VStr("research_type") {
        // A list is never indexed by a string: reading the primary's
        // `research_type` raises TypeError.
        var kept := GetItem(VList(items), key);
        if kept.Err? {
          return Err(kept.error);
        }
        assert false;
      } else if value.VStr? {
        var current := GetItem(result, key);
        if current.Err? {
          return Err(current.error);
        }
        var stored := SetItem(result, key, VStr(Str(current.value) + "_" + value.s));
        if stored.Err? {
          return Err(stored.error);
        }
        result := stored.value;
      }
      remaining := remaining - {key};
    }
    return Ok(result);
  }

  const FileKeys: seq<Value> := [VStr("structure"), VStr("content")]

  /** One round of the `_merge_template_files` loop. */
  function MergeFileKey(primary: Value, secondary: Value, key: Value, acc: map<Value, Value>): Result<map<Value, Value>> {
    var inPrimary :- Contains(primary, key);
    var inSecondary :- Contains(secondary, key);
    if inPrimary && inSecondary then
      var a :- GetItem(primary, key);
      var b :- GetItem(secondary, key);
      Ok(acc[key := VStr("combined_" + Str(a) + "_" + Str(b))])
    else if inPrimary then
      var a :- GetItem(primary, key);
      Ok(acc[key := a])
    else if inSecondary then
      var b :- GetItem(secondary, key);
      Ok(acc[key := b])
    else Ok(acc)
  }

  /** `_merge_template_files`: for "structure" and "content", the file name
   *  of whichever side has one, or `combined_<primary>_<secondary>` when
   *  both have one. */
  function MergeTemplateFiles(primary: Value, secondary: Value): (r: Result<map<Value, Value>>)
    ensures primary.VDict? && secondary.VDict? ==> r.Ok?
    ensures r.Ok? && primary.VDict? && secondary.VDict? ==>
              forall k :: k in r.value <==> k in FileKeys && (k in primary.entries || k in secondary.entries)
    ensures r.Ok? && primary.VDict? && secondary.VDict? ==>
              forall k :: k in FileKeys && k in primary.entries && k in secondary.entries ==>
                r.value[k].VStr? && "combined_" <= r.value[k].s
    ensures r.Ok? && primary.VDict? && secondary.VDict? ==>
              forall k :: k in FileKeys && k in primary.entries && k !in secondary.entries ==> r.value[k] == primary.entries[k]
  {
    var withStructure :- MergeFileKey(primary, secondary, FileKeys[0], map[]);
    MergeFileKey(primary, secondary, FileKeys[1], withStructure)
  }

  /** The requirements of a combined template. `required_sections` is built
   *  through a set, so only its members are modelled, not its order. */
  datatype MergedRequirements = MergedRequirements(requiredSections: set<Value>, sectionOrder: seq<Value>, minSections: Value)

  /** `max(a, b)`: `b` when `b > a`, else `a`. */
  function Max(a: Value, b: Value): Result<Value> {
    var less :- LessThan(a, b);
    Ok(if less then b else a)
  }

  /** The three requirement entries `_merge_requirements` reads can be read
   *  and combined: the two lists of each key concatenate, the sections are
   *  hashable, and the two minimum counts compare. */
  predicate RequirementsReadable(p: map<Value, Value>, s: map<Value, Value>) {
    var rs, so, ms := VStr("required_sections"), VStr("section_order"), VStr("min_sections");
    rs in p && rs in s && so in p && so in s && ms in p && ms in s &&
    Concat(p[rs], s[rs]).Ok? && AllHashable(Concat(p[rs], s[rs]).value) &&
    Concat(p[so], s[so]).Ok? && AllHashable(Concat(p[so], s[so]).value) &&
    Max(p[ms], s[ms]).Ok?
  }

  /** `m` is what `_merge_requirements` builds: the members of both
   *  required-section lists, the joined section orders without repeats in
   *  first-occurrence order, and `max` of the two minimum counts. */
  predicate RequirementsMerged(p: map<Value, Value>, s: map<Value, Value>, m: MergedRequirements) {
    var rs, so, ms := VStr("required_sections"), VStr("section_order"), VStr("min_sections");
    RequirementsReadable(p, s) &&
    m.requiredSections == (set x | x in Concat(p[rs], s[rs]).value) &&
    m.sectionOrder == Dedup(Concat(p[so], s[so]).value) &&
    Max(p[ms], s[ms]) == Ok(m.minSections)
  }

  /** `max` of two numbers is at least each of them. */
  lemma MaxIsLarger(a: Value, b: Value)
    requires IsNumber(a) && IsNumber(b) && Max(a, b).Ok?
    ensures NumberOf(Max(a, b).value) >= NumberOf(a) && NumberOf(Max(a, b).value) >= NumberOf(b)
  {
  }

  /** What a merge of requirements holds: the section order has no repeats,
   *  lists every section of either order, keeps first occurrences in order,
   *  and the minimum count is at least each of the two when both are
   *  numbers. */
  lemma RequirementsMergedMeans(p: map<Value, Value>, s: map<Value, Value>, m: MergedRequirements)
    requires RequirementsMerged(p, s, m)
    ensures var joined := Concat(p[VStr("section_order")], s[VStr("section_order")]).value;
            NoDuplicates(m.sectionOrder) && (forall x :: x in m.sectionOrder <==> x in joined) &&
            InFirstOccurrenceOrder(joined, m.sectionOrder)
    ensures var pm, sm := p[VStr("min_sections")], s[VStr("min_sections")];
            IsNumber(pm) && IsNumber(sm) ==> NumberOf(m.minSections) >= NumberOf(pm) && NumberOf(m.minSections) >= NumberOf(sm)
  {
    DedupFirstOccurrences(Concat(p[VStr("section_order")], s[VStr("section_order")]).value);
    var pm, sm := p[VStr("min_sections")], s[VStr("min_sections")];
    if IsNumber(pm) && IsNumber(sm) {
      MaxIsLarger(pm, sm);
    }
  }

  /** `_merge_requirements`: the set union of the required sections, the
   *  merged section order and the larger minimum section count; it
   *  succeeds exactly when the entries can be read and combined. */
  method MergeRequirements(primary: Value, secondary: Value) returns (r: Result<MergedRequirements>)
    ensures r.Ok? ==> primary.VDict? && secondary.VDict? && RequirementsMerged(primary.entries, secondary.entries, r.value)
    ensures primary.VDict? && secondary.VDict? && RequirementsReadable(primary.entries, secondary.entries) ==> r.Ok?
  {
    var pr := GetItem(primary, VStr("required_sections"));
    if pr.Err? { return Err(pr.error); }
    var sr := GetItem(secondary, VStr("required_sections"));
    if sr.Err? { return Err(sr.error); }
    var sections := Concat(pr.value, sr.value);
    if sections.Err? { return Err(sections.error); }
    if !AllHashable(sections.value) { return Err(TypeError); }
    var ps := GetItem(primary, VStr("section_order"));
    if ps.Err? { return Err(ps.error); }
    var ss := GetItem(secondary, VStr("section_order"));
    if ss.Err? { return Err(ss.error); }
    var order := MergeSectionOrder(ps.value, ss.value);
    if order.Err? { return Err(order.error); }
    var pm := GetItem(primary, VStr("min_sections"));
    if pm.Err? { return Err(pm.error); }
    var sm := GetItem(secondary, VStr("min_sections"));
    if sm.Err? { return Err(sm.error); }
    var larger := Max(pm.value, sm.value);
    if larger.Err? { return Err(larger.error); }
    if !primary.VDict? || !secondary.VDict? {
      // Only dicts index by string keys: GetItem has already failed.
      assert false;
    }
    return Ok(MergedRequirements((set x | x in sections.value), order.value, larger.value));
  }

  /** A looked-up template has the three parts `combine_templates` reads. */
  predicate TemplateParts(t: map<Value, Value>) {
    VStr("features") in t && VStr("template") in t && VStr("requirements") in t
  }

  /** The result of `combine_templates`. */
  datatype Combined = Combined(features: Value, template: map<Value, Value>, requirements: MergedRequirements)

  class TemplateMapper {
    var combinationCache: map<Pair, real>
    var mappings: map<Value, Value>

    /** `__init__` with `_load_mapping_rules` on the decoded configuration:
     *  the allowed combinations in order, and `mapping_rules` if present. */
    constructor (rules: seq<CombinationRule>, mappingRules: Option<map<Value, Value>>)
      ensures combinationCache == CacheOf(rules)
      ensures mappings == if mappingRules.Some? then mappingRules.value else map[]
    {
      var cache: map<Pair, real> := map[];
      var i := 0;
      while i < |rules|
        invariant i <= |rules|
        invariant cache == CacheOf(rules[..i])
      {
        assert rules[..i + 1][..i] == rules[..i];
        cache := cache[PairOf(rules[i]) := rules[i].weight];
        i := i + 1;
      }
      assert rules[..i] == rules;
      combinationCache := cache;
      mappings := if mappingRules.Some? then mappingRules.value else map[];
    }

    /** The two templates `combine_templates` looks up for a discipline. */
    function Lookup(discipline: string, templateType: string): Result<Value>
      reads this
    {
      DictGet(Get(mappings, discipline, VDict(map[])), VStr(templateType), VNone)
    }

    /** `combine_templates`: None when the combination is not allowed or
     *  either template is missing (or empty); otherwise the merged features,
     *  template files and requirements. */
    method CombineTemplates(discipline: string, primaryType: string, secondaryType: string)
      returns (r: Result<Option<Combined>>)
      ensures !Allowed(combinationCache, primaryType, secondaryType) ==> r == Ok(None)
      ensures (Allowed(combinationCache, primaryType, secondaryType) && Lookup(discipline, primaryType).Err?) ==>
                r == Err(Lookup(discipline, primaryType).error)
      ensures (Allowed(combinationCache, primaryType, secondaryType) && Lookup(discipline, primaryType).Ok? &&
               Lookup(discipline, secondaryType).Err?) ==> r == Err(Lookup(discipline, secondaryType).error)
      ensures (Allowed(combinationCache, primaryType, secondaryType) &&
               Lookup(discipline, primaryType).Ok? && Lookup(discipline, secondaryType).Ok? &&
               (!Truthy(Lookup(discipline, primaryType).value) || !Truthy(Lookup(discipline, secondaryType).value))) ==>
                r == Ok(None)
      ensures r.Ok? && r.value.Some? ==>
                Allowed(combinationCache, primaryType, secondaryType) &&
                Lookup(discipline, primaryType).Ok? && Truthy(Lookup(discipline, primaryType).value) &&
                Lookup(discipline, secondaryType).Ok? && Truthy(Lookup(discipline, secondaryType).value)
      ensures r.Ok? && r.value.Some? ==>
                var p, s := Lookup(discipline, primaryType).value, Lookup(discipline, secondaryType).value;
                p.VDict? && s.VDict? && TemplateParts(p.entries) && TemplateParts(s.entries) &&
                var pf, sf := p.entries[VStr("features")], s.entries[VStr("features")];
                var pr, sr := p.entries[VStr("requirements")], s.entries[VStr("requirements")];
                (pf.VDict? && sf.VDict? ==>
                   r.value.value.features.VDict? && MergedFeatures(pf.entries, sf.entries, r.value.value.features.entries)) &&
                MergeTemplateFiles(p.entries[VStr("template")], s.entries[VStr("template")]) == Ok(r.value.value.template) &&
                pr.VDict? && sr.VDict? && RequirementsMerged(pr.entries, sr.entries, r.value.value.requirements)
    {
      if !Allowed(combinationCache, primaryType, secondaryType) {
        return Ok(None);
      }
      var weight := Weight(combinationCache, primaryType, secondaryType);
      var primary := Lookup(discipline, primaryType);
      if primary.Err? { return Err(primary.error); }
      var secondary := Lookup(discipline, secondaryType);
      if secondary.Err? { return Err(secondary.error); }
      if !Truthy(primary.value) || !Truthy(secondary.value) {
        return Ok(None);
      }
      var p, s := primary.value, secondary.value;
      var pf := GetItem(p, VStr("features"));
      if pf.Err? { return Err(pf.error); }
      var sf := GetItem(s, VStr("features"));
      if sf.Err? { return Err(sf.error); }
      var features := MergeFeatures(pf.value, sf.value);
      if features.Err? { return Err(features.error); }
      var pt := GetItem(p, VStr("template"));
      if pt.Err? { return Err(pt.error); }
      var st := GetItem(s, VStr("template"));
      if st.Err? { return Err(st.error); }
      var files := MergeTemplateFiles(pt.value, st.value);
      if files.Err? { return Err(files.error); }
      var pr := GetItem(p, VStr("requirements"));
      if pr.Err? { return Err(pr.error); }
      var sr := GetItem(s, VStr("requirements"));
      if sr.Err? { return Err(sr.error); }
      var requirements := MergeRequirements(pr.value, sr.value);
      if requirements.Err? { return Err(requirements.error); }
      if !p.VDict? || !s.VDict? {
        assert false;
      }
      return Ok(Some(Combined(features.value, files.value, requirements.value)));
    }
  }
}
