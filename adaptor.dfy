/** `TemplateAdaptor`: the depth of a template's relation graph
 *  (`_calculate_depth`), the section and chapter counts
 *  (`_analyze_template_content`) and `adapt_template`, which copies a
 *  template's elements and relations into a fresh template. */
module Adaptor {
  import opened Wrappers
  import opened PyValue
  import opened Digraph
  import Templates
  import Validator

  // ------------------------------------------------------------------
  // Depth

  /** The state the nested `dfs` shares with its caller: the `visited` set
   *  and the `nonlocal max_depth`. */
  datatype Walk = Walk(visited: set<Value>, maxDepth: nat)

  /** Which relation targets the search follows: every one (`None`, as the
   *  source does) or only those in the given set (`Some`). */
  predicate Admitted(within: Option<set<Value>>, t: Value) {
    within.None? || t in within.value
  }

  /** The targets that can be read off the relations. */
  ghost function Targets(rels: seq<Value>): set<Value> {
    set r | r in rels && GetItem(r, Validator.TargetKey).Ok? :: GetItem(r, Validator.TargetKey).value
  }

  /** Each relation gives at most one target. */
  lemma {:induction false} TargetsAtMost(rels: seq<Value>)
    ensures |Targets(rels)| <= |rels|
  {
    if rels != [] {
      var init, last := rels[..|rels| - 1], rels[|rels| - 1];
      TargetsAtMost(init);
      var T := if GetItem(last, Validator.TargetKey).Ok? then {GetItem(last, Validator.TargetKey).value} else {};
      assert rels == init + [last];
      assert Targets(rels) <= Targets(init) + T;
      Shrinks({}, Targets(rels), Targets(init) + T);
    }
  }

  /** `U` holds every node the search may enter. */
  ghost predicate Covers(rels: seq<Value>, within: Option<set<Value>>, U: set<Value>) {
    forall t :: t in Targets(rels) && Admitted(within, t) ==> t in U
  }

  /** What holds of the shared state between steps: the deepest depth seen is
   *  at most the number of nodes entered, and is 0 only before the first. */
  predicate Sound(w: Walk) {
    w.maxDepth <= |w.visited| && (w.visited == {} <==> w.maxDepth == 0)
  }

  lemma Shrinks(U: set<Value>, A: set<Value>, B: set<Value>)
    requires A <= B
    ensures |U - B| <= |U - A| && |A| <= |B|
  {
    assert U - B <= U - A;
    if U - B < U - A {
      StrictSubsetCard(U - B, U - A);
    } else {
      assert U - B == U - A;
    }
    if A < B {
      StrictSubsetCard(A, B);
    } else {
      assert A == B;
    }
  }

  lemma Enters(U: set<Value>, A: set<Value>, node: Value)
    requires node in U && node !in A
    ensures |U - (A + {node})| < |U - A|
  {
    StrictSubsetCard(U - (A + {node}), U - A);
  }

  /** `dfs(element_id, depth)`: an unhashable ID cannot be looked up in
   *  `visited`; a visited one returns at once; otherwise it is entered, the
   *  maximum raised to `depth`, and the relations leaving it followed. */
  function Visit(rels: seq<Value>, within: Option<set<Value>>, node: Value, depth: nat, w: Walk,
                 ghost U: set<Value>): (r: Result<Walk>)
    requires node in U && w.visited <= U && Covers(rels, within, U)
    requires 1 <= depth <= |w.visited| + 1 && Sound(w)
    ensures r.Ok? ==> w.visited <= r.value.visited <= U && node in r.value.visited
    ensures r.Ok? ==> Sound(r.value) && 1 <= r.value.maxDepth && w.maxDepth <= r.value.maxDepth
    decreases |U - w.visited|, 0, 0
  {
    if !Hashable(node) then Err(TypeError)
    else if node in w.visited then Ok(w)
    else
      Enters(U, w.visited, node);
      Follow(rels, within, node, depth, 0,
             Walk(w.visited + {node}, if depth > w.maxDepth then depth else w.maxDepth), U)
  }

  /** The `for relation in template.relations.values()` loop of `dfs`, from
   *  the `j`-th relation on: the source is read from every relation, the
   *  target only from those leaving `node`. */
  function Follow(rels: seq<Value>, within: Option<set<Value>>, node: Value, depth: nat, j: nat, w: Walk,
                  ghost U: set<Value>): (r: Result<Walk>)
    requires j <= |rels| && node in w.visited && w.visited <= U && Covers(rels, within, U)
    requires 1 <= depth <= |w.visited| && Sound(w) && 1 <= w.maxDepth
    ensures r.Ok? ==> w.visited <= r.value.visited <= U
    ensures r.Ok? ==> Sound(r.value) && w.maxDepth <= r.value.maxDepth
    decreases |U - w.visited|, 1, |rels| - j
  {
    if j == |rels| then Ok(w)
    else
      var src :- GetItem(rels[j], Validator.SourceKey);
      if src != node then Follow(rels, within, node, depth, j + 1, w, U)
      else
        var tgt :- GetItem(rels[j], Validator.TargetKey);
        if within.Some? && !Hashable(tgt) then Err(TypeError)
        else if !Admitted(within, tgt) then Follow(rels, within, node, depth, j + 1, w, U)
        else
          assert tgt in Targets(rels);
          var w' :- Visit(rels, within, tgt, depth + 1, w, U);
          Shrinks(U, w.visited, w'.visited);
          Follow(rels, within, node, depth, j + 1, w', U)
  }

  /** The outer `for element_id in template.elements` loop, from the `i`-th
   *  element on. */
  function Sweep(rels: seq<Value>, within: Option<set<Value>>, order: seq<Value>, i: nat, w: Walk,
                 ghost U: set<Value>): (r: Result<Walk>)
    requires i <= |order| && ToSet(order) <= U && w.visited <= U && Covers(rels, within, U) && Sound(w)
    ensures r.Ok? ==> w.visited <= r.value.visited <= U && Sound(r.value)
    ensures r.Ok? ==> forall k :: i <= k < |order| ==> order[k] in r.value.visited
    decreases |order| - i
  {
    if i == |order| then Ok(w)
    else
      var w' :- Visit(rels, within, order[i], 1, w, U);
      Sweep(rels, within, order, i + 1, w', U)
  }

  /** Every node the search may enter: the elements and, when every target is
   *  followed, the relation targets too. */
  ghost function Universe(order: seq<Value>, rels: seq<Value>, within: Option<set<Value>>): set<Value> {
    ToSet(order) + (if within.None? then Targets(rels) else within.value)
  }

  /** The search over the elements in `order`, following relation targets as
   *  `within` says. */
  function DepthOf(order: seq<Value>, rels: seq<Value>, within: Option<set<Value>>): (r: Result<nat>)
    ensures r.Ok? ==> (r.value == 0 <==> |order| == 0)
    ensures r.Ok? ==> r.value <= |Universe(order, rels, within)|
  {
    var U := Universe(order, rels, within);
    var w :- Sweep(rels, within, order, 0, Walk({}, 0), U);
    assert |order| > 0 ==> order[0] in w.visited;
    Shrinks({}, w.visited, U);
    Ok(w.maxDepth)
  }

  /** `_calculate_depth` as written: the longest chain of first visits, where a
   *  relation's target is entered whether or not it is an element. */
  function CalculateDepth(elementOrder: seq<Value>, rels: seq<Value>): (r: Result<nat>)
    ensures r.Ok? ==> (r.value == 0 <==> |elementOrder| == 0)
    ensures r.Ok? ==> r.value <= |ToSet(elementOrder) + Targets(rels)|
  {
    DepthOf(elementOrder, rels, None)
  }

  /** The depth as evidently intended: only targets that are elements are
   *  entered, so the depth never exceeds the number of elements. */
  function ElementDepth(elementOrder: seq<Value>, rels: seq<Value>): (r: Result<nat>)
    ensures r.Ok? ==> (r.value == 0 <==> |elementOrder| == 0)
    ensures r.Ok? ==> r.value <= |ToSet(elementOrder)|
  {
    assert Universe(elementOrder, rels, Some(ToSet(elementOrder))) == ToSet(elementOrder);
    DepthOf(elementOrder, rels, Some(ToSet(elementOrder)))
  }

  /** `dfs` as the source runs it: `visited` and `max_depth` updated in place
   *  while the relations are scanned. */
  method Dfs(rels: seq<Value>, within: Option<set<Value>>, node: Value, depth: nat,
             visited: set<Value>, maxDepth: nat, ghost U: set<Value>) returns (r: Result<Walk>)
    requires node in U && visited <= U && Covers(rels, within, U)
    requires 1 <= depth <= |visited| + 1 && Sound(Walk(visited, maxDepth))
    ensures r == Visit(rels, within, node, depth, Walk(visited, maxDepth), U)
    decreases |U - visited|, 0
  {
    if !Hashable(node) {
      return Err(TypeError);
    }
    if node in visited {
      return Ok(Walk(visited, maxDepth));
    }
    var v := visited + {node};
    var m: nat := if depth > maxDepth then depth else maxDepth;
    Enters(U, visited, node);
    var j := 0;
    while j < |rels|
      invariant j <= |rels| && node in v && visited + {node} <= v <= U
      invariant 1 <= depth <= |v| && Sound(Walk(v, m)) && 1 <= m
      invariant Visit(rels, within, node, depth, Walk(visited, maxDepth), U) ==
                Follow(rels, within, node, depth, j, Walk(v, m), U)
    {
      Shrinks(U, visited + {node}, v);
      var step := FollowOne(rels, within, node, depth, j, v, m, U);
      if step.Err? {
        return step;
      }
      v, m := step.value.visited, step.value.maxDepth;
      j := j + 1;
    }
    return Ok(Walk(v, m));
  }

  /** One turn of the relation loop of `dfs`: the `j`-th relation, entering
   *  its target when it leaves `node`; the rest of the loop continues from
   *  the walk this returns. */
  method FollowOne(rels: seq<Value>, within: Option<set<Value>>, node: Value, depth: nat, j: nat,
                   v: set<Value>, m: nat, ghost U: set<Value>) returns (r: Result<Walk>)
    requires j < |rels| && node in v && v <= U && Covers(rels, within, U)
    requires 1 <= depth <= |v| && Sound(Walk(v, m)) && 1 <= m
    ensures r.Err? ==> r == Follow(rels, within, node, depth, j, Walk(v, m), U)
    ensures r.Ok? ==> v <= r.value.visited <= U && |v| <= |r.value.visited| && Sound(r.value) && m <= r.value.maxDepth &&
                      r == Ok(Walk(r.value.visited, r.value.maxDepth)) &&
                      Follow(rels, within, node, depth, j, Walk(v, m), U) ==
                      Follow(rels, within, node, depth, j + 1, r.value, U)
    decreases |U - v|, 1
  {
    var src := GetItem(rels[j], Validator.SourceKey);
    if src.Err? {
      return Err(src.error);
    }
    if src.value != node {
      return Ok(Walk(v, m));
    }
    var tgt := GetItem(rels[j], Validator.TargetKey);
    if tgt.Err? {
      return Err(tgt.error);
    }
    if within.Some? && !Hashable(tgt.value) {
      return Err(TypeError);
    }
    if !Admitted(within, tgt.value) {
      return Ok(Walk(v, m));
    }
    assert tgt.value in Targets(rels);
    r := Dfs(rels, within, tgt.value, depth + 1, v, m, U);
    if r.Ok? {
      Shrinks(U, v, r.value.visited);
    }
  }

  /** The body of `_calculate_depth`, following targets as `within` says. */
  method CalculateDepthWithin(elementOrder: seq<Value>, rels: seq<Value>, within: Option<set<Value>>)
    returns (r: Result<nat>)
    ensures r == DepthOf(elementOrder, rels, within)
  {
    ghost var U := Universe(elementOrder, rels, within);
    assert ToSet(elementOrder) <= U && Covers(rels, within, U);
    ghost var goal := Sweep(rels, within, elementOrder, 0, Walk({}, 0), U);
    var visited: set<Value> := {};
    var maxDepth: nat := 0;
    var i := 0;
    while i < |elementOrder|
      invariant i <= |elementOrder| && visited <= U && Sound(Walk(visited, maxDepth))
      invariant ToSet(elementOrder) <= U && Covers(rels, within, U)
      invariant goal == Sweep(rels, within, elementOrder, i, Walk(visited, maxDepth), U)
    {
      assert elementOrder[i] in ToSet(elementOrder);
      var w := Dfs(rels, within, elementOrder[i], 1, visited, maxDepth, U);
      if w.Err? {
        return Err(w.error);
      }
      assert Sweep(rels, within, elementOrder, i, Walk(visited, maxDepth), U) ==
             Sweep(rels, within, elementOrder, i + 1, w.value, U);
      visited, maxDepth := w.value.visited, w.value.maxDepth;
      i := i + 1;
    }
    assert goal == Ok(Walk(visited, maxDepth));
    return Ok(maxDepth);
  }

  /** One relation from "a" to "b". */
  function DanglingRelations(): seq<Value> {
    [VDict(map[Validator.SourceKey := VStr("a"), Validator.TargetKey := VStr("b")])]
  }

  /** The inner step of the example below: entering "b" from "a" at depth 2. */
  lemma DanglingTargetEntered(U: set<Value>)
    requires U == Universe([VStr("a")], DanglingRelations(), None)
    ensures VStr("b") in U && Covers(DanglingRelations(), None, U) && VStr("a") in U
    ensures Visit(DanglingRelations(), None, VStr("b"), 2, Walk({VStr("a")}, 1), U) == Ok(Walk({VStr("a"), VStr("b")}, 2))
  {
    var a, b := VStr("a"), VStr("b");
    var rels := DanglingRelations();
    var rel := rels[0];
    assert GetItem(rel, Validator.SourceKey) == Ok(a);
    assert GetItem(rel, Validator.TargetKey) == Ok(b);
    assert a != b by { assert "a"[0] != "b"[0]; }
    assert Targets(rels) == {b};
    assert ToSet([a]) == {a};
    assert Follow(rels, None, b, 2, 0, Walk({a, b}, 2), U) == Ok(Walk({a, b}, 2));
    assert {a} + {b} == {a, b};
  }

  /** A relation to an ID that is not an element (left behind by
   *  `remove_element`, which does not cascade) deepens the template: one
   *  element and one such relation give depth 2. */
  lemma DanglingTargetDeepens()
    ensures var rel := VDict(map[Validator.SourceKey := VStr("a"), Validator.TargetKey := VStr("b")]);
            CalculateDepth([VStr("a")], [rel]) == Ok(2)
  {
    var a, b := VStr("a"), VStr("b");
    var rels := DanglingRelations();
    var rel := rels[0];
    assert GetItem(rel, Validator.SourceKey) == Ok(a);
    assert GetItem(rel, Validator.TargetKey) == Ok(b);
    var U := Universe([a], rels, None);
    DanglingTargetEntered(U);
    assert Follow(rels, None, a, 1, 0, Walk({a}, 1), U) == Ok(Walk({a, b}, 2));
    assert Sweep(rels, None, [a], 0, Walk({}, 0), U) == Ok(Walk({a, b}, 2));
  }

  /** With the intended search the same template has depth 1. */
  lemma DanglingTargetSkipped()
    ensures var rel := VDict(map[Validator.SourceKey := VStr("a"), Validator.TargetKey := VStr("b")]);
            ElementDepth([VStr("a")], [rel]) == Ok(1)
  {
    var a, b := VStr("a"), VStr("b");
    var rel := VDict(map[Validator.SourceKey := a, Validator.TargetKey := b]);
    var rels := [rel];
    assert GetItem(rel, Validator.SourceKey) == Ok(a);
    assert GetItem(rel, Validator.TargetKey) == Ok(b);
    assert a != b by { assert "a"[0] != "b"[0]; }
    var E := ToSet([a]);
    assert E == {a};
    var U' := Universe([a], rels, Some(E));
    assert Follow(rels, Some(E), a, 1, 0, Walk({a}, 1), U') == Ok(Walk({a}, 1));
    assert Sweep(rels, Some(E), [a], 0, Walk({}, 0), U') == Ok(Walk({a}, 1));
  }

  // ------------------------------------------------------------------
  // Content analysis

  const ElementTypeKey := VStr("element_type")

  /** `len([e for e in elements.values() if e["element_type"] == ty])` over the
   *  elements in `order`: reading a missing `element_type` raises. */
  function CountOfType(elements: map<Value, Value>, order: seq<Value>, ty: string): (r: Result<nat>)
    requires forall k :: k in order ==> k in elements
    ensures r.Ok? ==> r.value <= |order|
  {
    if order == [] then Ok(0)
    else
      var t :- GetItem(elements[order[0]], ElementTypeKey);
      var rest :- CountOfType(elements, order[1..], ty);
      Ok(if t == VStr(ty) then rest + 1 else rest)
  }

  /** The keys among `S` whose element has type `ty`. */
  ghost function OfType(elements: map<Value, Value>, S: set<Value>, ty: string): set<Value> {
    set k | k in S && k in elements && GetItem(elements[k], ElementTypeKey) == Ok(VStr(ty))
  }

  predicate Distinct(order: seq<Value>) {
    forall i, j :: 0 <= i < j < |order| ==> order[i] != order[j]
  }

  lemma DistinctTail(order: seq<Value>)
    requires order != [] && Distinct(order)
    ensures Distinct(order[1..]) && order[0] !in ToSet(order[1..])
    ensures ToSet(order) == {order[0]} + ToSet(order[1..])
  {
    var rest := order[1..];
    forall i, j | 0 <= i < j < |rest| ensures rest[i] != rest[j] {
      assert rest[i] == order[i + 1] && rest[j] == order[j + 1];
    }
  }

  /** A dict's iteration order is as long as the dict. */
  lemma {:induction false} OrderCard(order: seq<Value>, m: map<Value, Value>)
    requires IsOrderOf(order, m)
    ensures |order| == |m|
  {
    DistinctCount(order);
    assert ToSet(order) == m.Keys;
  }

  lemma {:induction false} DistinctCount(order: seq<Value>)
    requires Distinct(order)
    ensures |ToSet(order)| == |order|
  {
    if order != [] {
      DistinctTail(order);
      DistinctCount(order[1..]);
    }
  }

  lemma OfTypeCons(elements: map<Value, Value>, x: Value, S: set<Value>, ty: string)
    requires x in elements
    ensures OfType(elements, {x} + S, ty) ==
            OfType(elements, S, ty) + (if GetItem(elements[x], ElementTypeKey) == Ok(VStr(ty)) then {x} else {})
  {
  }

  /** The count is the number of distinct elements of that type. */
  lemma {:induction false} CountIsOfType(elements: map<Value, Value>, order: seq<Value>, ty: string)
    requires forall k :: k in order ==> k in elements
    requires Distinct(order) && CountOfType(elements, order, ty).Ok?
    ensures CountOfType(elements, order, ty).value == |OfType(elements, ToSet(order), ty)|
  {
    if order != [] {
      var x, rest := order[0], order[1..];
      DistinctTail(order);
      CountIsOfType(elements, rest, ty);
      OfTypeCons(elements, x, ToSet(rest), ty);
    }
  }

  /** `_analyze_template_content`: the numbers of sections and of chapters. */
  function AnalyzeTemplateContent(elements: map<Value, Value>, order: seq<Value>): (r: Result<(nat, nat)>)
    requires forall k :: k in order ==> k in elements
  {
    var sections :- CountOfType(elements, order, "section");
    var chapters :- CountOfType(elements, order, "chapter");
    Ok((sections, chapters))
  }

  /** Over a dict's keys in order, the counts are the numbers of elements of
   *  each type, and together they are at most the number of elements. */
  lemma ContentCountsElements(elements: map<Value, Value>, order: seq<Value>)
    requires IsOrderOf(order, elements) && AnalyzeTemplateContent(elements, order).Ok?
    ensures var (sections, chapters) := AnalyzeTemplateContent(elements, order).value;
            sections == |OfType(elements, elements.Keys, "section")| &&
            chapters == |OfType(elements, elements.Keys, "chapter")| &&
            sections + chapters <= |elements|
  {
    assert Distinct(order);
    assert ToSet(order) == elements.Keys;
    CountIsOfType(elements, order, "section");
    CountIsOfType(elements, order, "chapter");
    var A, B := OfType(elements, elements.Keys, "section"), OfType(elements, elements.Keys, "chapter");
    assert VStr("section") != VStr("chapter") by { assert "section"[0] != "chapter"[0]; }
    assert A * B == {};
    assert |A + B| == |A| + |B|;
    Shrinks({}, A + B, elements.Keys);
  }

  // ------------------------------------------------------------------
  // Adaptation

  const StyleKey := VStr("style")
  const AttributesKey := VStr("attributes")

  /** `target.update(source)` with a dict argument: the argument's entries
   *  win. */
  function Update(target: Value, source: Value): (r: Result<Value>)
    ensures r.Ok? <==> target.VDict? && source.VDict?
    ensures r.Ok? ==> r.value == VDict(target.entries + source.entries)
  {
    if !target.VDict? then Err(AttributeError)
    else if !source.VDict? then Err(TypeError)
    else Ok(VDict(target.entries + source.entries))
  }

  /** What `_analyze_template` finds: the numbers of elements and relations,
   *  the depth, the section and chapter counts, and the citation style. */
  datatype TemplateFeatures = TemplateFeatures(
    elements: nat, relations: nat, depth: nat, sections: nat, chapters: nat, citationStyle: Value)

  /** `_analyze_template`. Elements and relations that are not dicts make one
   *  of the analyses raise. */
  function AnalyzeTemplate(t: Templates.Fields, elementOrder: seq<Value>, relationOrder: seq<Value>)
    : (r: Result<TemplateFeatures>)
    requires t.elements.VDict? ==> IsOrderOf(elementOrder, t.elements.entries)
    requires t.relations.VDict? ==> IsOrderOf(relationOrder, t.relations.entries)
    ensures r.Ok? ==> t.elements.VDict? && t.relations.VDict?
    ensures r.Ok? ==> r.value.elements == |t.elements.entries| && r.value.relations == |t.relations.entries|
    ensures r.Ok? ==> r.value.depth <= r.value.elements + r.value.relations
    ensures r.Ok? ==> r.value.sections + r.value.chapters <= r.value.elements
    ensures r.Ok? ==> (r.value.depth == 0 <==> r.value.elements == 0)
  {
    if !t.elements.VDict? || !t.relations.VDict? then Err(AttributeError)
    else
      var es, rs := t.elements.entries, t.relations.entries;
      var rels := Validator.ValuesInOrder(relationOrder, rs);
      var depth :- CalculateDepth(elementOrder, rels);
      var counts :- AnalyzeTemplateContent(es, elementOrder);
      var citation :- DictGet(t.templateData, VStr("citation_style"), VStr(""));
      assert ToSet(elementOrder) == es.Keys;
      TargetsAtMost(rels);
      assert |relationOrder| == |rs| by { OrderCard(relationOrder, rs); }
      ContentCountsElements(es, elementOrder);
      Ok(TemplateFeatures(|es|, |rs|, depth, counts.0, counts.1, citation))
  }

  /** `_analyze_requirements`: only reads `template_data`. */
  function AnalyzeRequirements(requirements: Templates.Fields): Result<(Value, Value, Value)> {
    var discipline :- DictGet(requirements.templateData, VStr("discipline"), VStr(""));
    var paperType :- DictGet(requirements.templateData, VStr("paper_type"), VStr(""));
    var maxPages :- DictGet(requirements.templateData, VStr("max_pages"), VInt(0));
    Ok((discipline, paperType, maxPages))
  }

  /** One element as `adapt_template` copies it: a shallow copy whose
   *  `attributes["style"]` takes the preferred style when one is given. */
  function AdaptedElement(element: Value, preferences: map<Value, Value>): (r: Result<Value>)
    ensures StyleKey !in preferences && element.VDict? ==> r == Ok(element)
  {
    if !(element.VDict? || element.VList?) then Err(AttributeError)
    else if StyleKey !in preferences then Ok(element)
    else
      var attributes :- GetItem(element, AttributesKey);
      var style :- GetItem(attributes, StyleKey);
      var merged :- Update(style, preferences[StyleKey]);
      var attributes' :- SetItem(attributes, StyleKey, merged);
      SetItem(element, AttributesKey, attributes')
  }

  /** The element-copying loop, from the `i`-th element on. */
  function CopyElements(f: Templates.Fields, elements: map<Value, Value>, order: seq<Value>, i: nat,
                        preferences: map<Value, Value>, now: Value): (r: Result<Templates.Fields>)
    requires i <= |order| && forall k :: k in order ==> k in elements
    ensures r.Ok? ==> r.value.relations == f.relations && r.value.style == f.style &&
                      r.value.templateId == f.templateId && r.value.name == f.name
    decreases |order| - i
  {
    if i == |order| then Ok(f)
    else
      var element :- AdaptedElement(elements[order[i]], preferences);
      var step := Templates.AddElementStep(f, element, now);
      if step.0.Err? then Err(step.0.error)
      else CopyElements(step.1, elements, order, i + 1, preferences, now)
  }

  /** The relation-copying loop, from the `i`-th relation on. */
  function CopyRelations(f: Templates.Fields, relations: map<Value, Value>, order: seq<Value>, i: nat,
                         now: Value): (r: Result<Templates.Fields>)
    requires i <= |order| && forall k :: k in order ==> k in relations
    ensures r.Ok? ==> r.value.elements == f.elements && r.value.style == f.style &&
                      r.value.templateId == f.templateId && r.value.name == f.name
    decreases |order| - i
  {
    if i == |order| then Ok(f)
    else
      var step := Templates.AddRelationStep(f, relations[order[i]], now);
      if step.0.Err? then Err(step.0.error)
      else CopyRelations(step.1, relations, order, i + 1, now)
  }

  /** `Template(template_id=..., name=..., description=..., version=...)`:
   *  the fresh template `adapt_template` starts from, empty but for the four
   *  copied fields. */
  function StartAdapted(t: Templates.Fields, now: Value): (r: Result<Templates.Fields>)
    ensures r.Ok? <==> Truthy(t.templateId) && Truthy(t.name)
    ensures r.Ok? ==> r.value.templateId == t.templateId && r.value.name == t.name &&
                      r.value.description == t.description && r.value.version == t.version &&
                      r.value.style == VDict(map[]) && r.value.elements == VDict(map[]) &&
                      r.value.relations == VDict(map[])
  {
    assert !Truthy(Blank(t).templateData);
    Templates.PostInit(Blank(t), now)
  }

  function Blank(t: Templates.Fields): Templates.Fields {
    Templates.Defaults(t.templateId).(name := t.name, description := t.description, version := t.version)
  }

  /** `adapt_template`: both templates must be given; the requirements and
   *  the template are analysed (which can raise); a fresh template with the
   *  same ID, name, description and version receives copies of the
   *  elements and the relations; a preferred style is merged into its
   *  style. */
  function Adapt(template: Option<Templates.Fields>, requirements: Option<Templates.Fields>,
                 preferences: map<Value, Value>, elementOrder: seq<Value>, relationOrder: seq<Value>,
                 now: Value): (r: Result<Templates.Fields>)
    requires template.Some? && template.value.elements.VDict? ==>
               IsOrderOf(elementOrder, template.value.elements.entries)
    requires template.Some? && template.value.relations.VDict? ==>
               IsOrderOf(relationOrder, template.value.relations.entries)
    ensures template.None? || requirements.None? ==> r == Err(ValueError)
    ensures r.Ok? ==> r.value.templateId == template.value.templateId && r.value.name == template.value.name
    ensures r.Ok? && StyleKey !in preferences ==> r.value.style == VDict(map[])
    ensures r.Ok? && StyleKey in preferences ==>
              preferences[StyleKey].VDict? && r.value.style == VDict(preferences[StyleKey].entries)
  {
    if template.None? || requirements.None? then Err(ValueError)
    else
      var _ :- AnalyzeRequirements(requirements.value);
      var _ :- AnalyzeTemplate(template.value, elementOrder, relationOrder);
      Build(template.value, preferences, elementOrder, relationOrder, now)
  }

  /** The part of `adapt_template` after the analyses: the copy into a fresh
   *  template, then the style preference. */
  function Build(t: Templates.Fields, preferences: map<Value, Value>, elementOrder: seq<Value>,
                 relationOrder: seq<Value>, now: Value): (r: Result<Templates.Fields>)
    requires t.elements.VDict? && IsOrderOf(elementOrder, t.elements.entries)
    requires t.relations.VDict? && IsOrderOf(relationOrder, t.relations.entries)
    ensures r.Ok? ==> r.value.templateId == t.templateId && r.value.name == t.name
    ensures r.Ok? && StyleKey !in preferences ==> r.value.style == VDict(map[])
    ensures r.Ok? && StyleKey in preferences ==>
              preferences[StyleKey].VDict? && r.value.style == VDict(preferences[StyleKey].entries)
  {
    var blank :- StartAdapted(t, now);
    var withElements :- CopyElements(blank, t.elements.entries, elementOrder, 0, preferences, now);
    var copied :- CopyRelations(withElements, t.relations.entries, relationOrder, 0, now);
    Restyle(copied, preferences)
  }

  /** `adapted_template.style.update(preferences["style"])` when a style is
   *  preferred. */
  function Restyle(f: Templates.Fields, preferences: map<Value, Value>): (r: Result<Templates.Fields>)
    ensures r.Ok? ==> r.value == f.(style := r.value.style)
    ensures StyleKey !in preferences ==> r == Ok(f)
    ensures r.Ok? && StyleKey in preferences && f.style == VDict(map[]) ==>
              preferences[StyleKey].VDict? && r.value.style == VDict(preferences[StyleKey].entries)
  {
    if StyleKey !in preferences then Ok(f)
    else
      var style :- Update(f.style, preferences[StyleKey]);
      assert f.style == VDict(map[]) ==> map[] + preferences[StyleKey].entries == preferences[StyleKey].entries;
      Ok(f.(style := style))
  }

  /** `adapt_template` on template objects: the fresh template is built by
   *  its own `add_element` and `add_relation` calls. */
  method AdaptTemplate(template: Option<Templates.Fields>, requirements: Option<Templates.Fields>,
                       preferences: map<Value, Value>, elementOrder: seq<Value>, relationOrder: seq<Value>,
                       now: Value) returns (r: Result<Templates.Template>)
    requires template.Some? && template.value.elements.VDict? ==>
               IsOrderOf(elementOrder, template.value.elements.entries)
    requires template.Some? && template.value.relations.VDict? ==>
               IsOrderOf(relationOrder, template.value.relations.entries)
    ensures Adapt(template, requirements, preferences, elementOrder, relationOrder, now).Err? ==>
              r == Err(Adapt(template, requirements, preferences, elementOrder, relationOrder, now).error)
    ensures Adapt(template, requirements, preferences, elementOrder, relationOrder, now).Ok? ==>
              r.Ok? && fresh(r.value) &&
              r.value.Snapshot() == Adapt(template, requirements, preferences, elementOrder, relationOrder, now).value
  {
    if template.None? || requirements.None? {
      return Err(ValueError);
    }
    var t := template.value;
    var _ :- AnalyzeRequirements(requirements.value);
    var _ :- AnalyzeTemplate(t, elementOrder, relationOrder);
    r := BuildTemplate(t, preferences, elementOrder, relationOrder, now);
  }

  /** The copy into a fresh template object and the style update. */
  method BuildTemplate(t: Templates.Fields, preferences: map<Value, Value>, elementOrder: seq<Value>,
                       relationOrder: seq<Value>, now: Value) returns (r: Result<Templates.Template>)
    requires t.elements.VDict? && IsOrderOf(elementOrder, t.elements.entries)
    requires t.relations.VDict? && IsOrderOf(relationOrder, t.relations.entries)
    ensures Build(t, preferences, elementOrder, relationOrder, now).Err? ==>
              r == Err(Build(t, preferences, elementOrder, relationOrder, now).error)
    ensures Build(t, preferences, elementOrder, relationOrder, now).Ok? ==>
              r.Ok? && fresh(r.value) && r.value.Snapshot() == Build(t, preferences, elementOrder, relationOrder, now).value
  {
    assert !Truthy(Blank(t).templateData);
    var adapted :- Templates.Template.Create(Blank(t), now);
    ghost var blank := adapted.Snapshot();
    assert StartAdapted(t, now) == Ok(blank);
    var es, rs := t.elements.entries, t.relations.entries;
    var copied := CopyElementsInto(adapted, es, elementOrder, preferences, now);
    if copied.Err? {
      return Err(copied.error);
    }
    ghost var withElements := adapted.Snapshot();
    assert CopyElements(blank, es, elementOrder, 0, preferences, now) == Ok(withElements);
    copied := CopyRelationsInto(adapted, rs, relationOrder, now);
    if copied.Err? {
      return Err(copied.error);
    }
    assert CopyRelations(withElements, rs, relationOrder, 0, now) == Ok(adapted.Snapshot());
    assert Build(t, preferences, elementOrder, relationOrder, now) == Restyle(adapted.Snapshot(), preferences);
    if StyleKey in preferences {
      var style :- Update(adapted.style, preferences[StyleKey]);
      adapted.style := style;
    }
    return Ok(adapted);
  }

  /** The element-copying loop of `adapt_template`, adding to `adapted` in place. */
  method CopyElementsInto(adapted: Templates.Template, es: map<Value, Value>, elementOrder: seq<Value>,
                          preferences: map<Value, Value>, now: Value) returns (r: Result<()>)
    requires forall k :: k in elementOrder ==> k in es
    modifies adapted
    ensures var goal := CopyElements(old(adapted.Snapshot()), es, elementOrder, 0, preferences, now);
            (goal.Ok? ==> r.Ok? && adapted.Snapshot() == goal.value) && (goal.Err? ==> r == Err(goal.error))
  {
    ghost var goal := CopyElements(adapted.Snapshot(), es, elementOrder, 0, preferences, now);
    var i := 0;
    while i < |elementOrder|
      invariant i <= |elementOrder|
      invariant goal == CopyElements(adapted.Snapshot(), es, elementOrder, i, preferences, now)
    {
      ghost var before := adapted.Snapshot();
      var element :- AdaptedElement(es[elementOrder[i]], preferences);
      var added := adapted.AddElement(element, now);
      if added.Err? {
        return Err(added.error);
      }
      assert CopyElements(before, es, elementOrder, i, preferences, now) ==
             CopyElements(adapted.Snapshot(), es, elementOrder, i + 1, preferences, now);
      i := i + 1;
    }
    return Ok(());
  }

  /** The relation-copying loop of `adapt_template`. */
  method CopyRelationsInto(adapted: Templates.Template, rs: map<Value, Value>, relationOrder: seq<Value>,
                           now: Value) returns (r: Result<()>)
    requires forall k :: k in relationOrder ==> k in rs
    modifies adapted
    ensures var goal := CopyRelations(old(adapted.Snapshot()), rs, relationOrder, 0, now);
            (goal.Ok? ==> r.Ok? && adapted.Snapshot() == goal.value) && (goal.Err? ==> r == Err(goal.error))
  {
    ghost var goal := CopyRelations(adapted.Snapshot(), rs, relationOrder, 0, now);
    var i := 0;
    while i < |relationOrder|
      invariant i <= |relationOrder|
      invariant goal == CopyRelations(adapted.Snapshot(), rs, relationOrder, i, now)
    {
      ghost var before := adapted.Snapshot();
      var added := adapted.AddRelation(rs[relationOrder[i]], now);
      if added.Err? {
        return Err(added.error);
      }
      assert CopyRelations(before, rs, relationOrder, i, now) ==
             CopyRelations(adapted.Snapshot(), rs, relationOrder, i + 1, now);
      i := i + 1;
    }
    return Ok(());
  }

  /** The copies in a dict's insertion order rebuild the dict. */
  function Restrict(m: map<Value, Value>, keys: seq<Value>): map<Value, Value>
    requires forall k :: k in keys ==> k in m
  {
    map k | k in keys :: m[k]
  }

  /** Every entry is stored under its own `field`, as `add_element` and
   *  `add_relation` store them. */
  ghost predicate KeyedBy(m: map<Value, Value>, field: string) {
    forall k :: k in m ==> m[k].VDict? && Get(m[k].entries, field, VNone) == k
  }

  lemma {:induction false} CopyElementsRebuilds(f: Templates.Fields, elements: map<Value, Value>, order: seq<Value>,
                                                i: nat, preferences: map<Value, Value>, now: Value)
    requires i <= |order| && (forall k :: k in order ==> k in elements)
    requires StyleKey !in preferences && KeyedBy(elements, "element_id")
    requires f.elements == VDict(Restrict(elements, order[..i]))
    requires CopyElements(f, elements, order, i, preferences, now).Ok?
    ensures CopyElements(f, elements, order, i, preferences, now).value.elements == VDict(Restrict(elements, order))
    decreases |order| - i
  {
    if i == |order| {
      assert order[..i] == order;
    } else {
      CopyElementStep(f, elements, order, i, preferences, now);
      var step := Templates.AddElementStep(f, elements[order[i]], now);
      CopyElementsRebuilds(step.1, elements, order, i + 1, preferences, now);
    }
  }

  /** One element copied unchanged: the copy holds one more of the
   *  template's elements, and the rest of the loop goes on from there. */
  lemma CopyElementStep(f: Templates.Fields, elements: map<Value, Value>, order: seq<Value>,
                        i: nat, preferences: map<Value, Value>, now: Value)
    requires i < |order| && (forall k :: k in order ==> k in elements)
    requires StyleKey !in preferences && KeyedBy(elements, "element_id")
    requires f.elements == VDict(Restrict(elements, order[..i]))
    requires CopyElements(f, elements, order, i, preferences, now).Ok?
    ensures var step := Templates.AddElementStep(f, elements[order[i]], now);
            step.0.Ok? && step.1.elements == VDict(Restrict(elements, order[..i + 1])) &&
            CopyElements(f, elements, order, i, preferences, now) == CopyElements(step.1, elements, order, i + 1, preferences, now)
  {
    var k := order[i];
    var step := Templates.AddElementStep(f, elements[k], now);
    assert Templates.AddElementTo(f.elements, elements[k]).Ok?;
    assert step.1.elements == VDict(Restrict(elements, order[..i])[k := elements[k]]);
    assert Restrict(elements, order[..i + 1]) == Restrict(elements, order[..i])[k := elements[k]] by {
      assert order[..i + 1] == order[..i] + [k];
    }
  }

  lemma {:induction false} CopyRelationsRebuilds(f: Templates.Fields, relations: map<Value, Value>, order: seq<Value>,
                                                 i: nat, now: Value)
    requires i <= |order| && (forall k :: k in order ==> k in relations)
    requires KeyedBy(relations, "relation_id")
    requires f.relations == VDict(Restrict(relations, order[..i]))
    requires CopyRelations(f, relations, order, i, now).Ok?
    ensures CopyRelations(f, relations, order, i, now).value.relations == VDict(Restrict(relations, order))
    decreases |order| - i
  {
    if i == |order| {
      assert order[..i] == order;
    } else {
      CopyRelationStep(f, relations, order, i, now);
      var step := Templates.AddRelationStep(f, relations[order[i]], now);
      CopyRelationsRebuilds(step.1, relations, order, i + 1, now);
    }
  }

  /** One relation copied unchanged: the copy holds one more of the
   *  template's relations, and the rest of the loop goes on from there. */
  lemma CopyRelationStep(f: Templates.Fields, relations: map<Value, Value>, order: seq<Value>,
                         i: nat, now: Value)
    requires i < |order| && (forall k :: k in order ==> k in relations)
    requires KeyedBy(relations, "relation_id")
    requires f.relations == VDict(Restrict(relations, order[..i]))
    requires CopyRelations(f, relations, order, i, now).Ok?
    ensures var step := Templates.AddRelationStep(f, relations[order[i]], now);
            step.0.Ok? && step.1.relations == VDict(Restrict(relations, order[..i + 1])) &&
            CopyRelations(f, relations, order, i, now) == CopyRelations(step.1, relations, order, i + 1, now)
  {
    var k := order[i];
    var step := Templates.AddRelationStep(f, relations[k], now);
    assert Templates.AddRelationTo(f.elements, f.relations, relations[k]).Ok?;
    assert step.1.relations == VDict(Restrict(relations, order[..i])[k := relations[k]]);
    assert Restrict(relations, order[..i + 1]) == Restrict(relations, order[..i])[k := relations[k]] by {
      assert order[..i + 1] == order[..i] + [k];
    }
  }

  /** Without a style preference, a successful adaptation of a template
   *  whose entries sit under their own IDs has exactly the source's
   *  elements and relations. */
  lemma AdaptCopiesElementsAndRelations(t: Templates.Fields, requirements: Templates.Fields,
                                        preferences: map<Value, Value>, elementOrder: seq<Value>,
                                        relationOrder: seq<Value>, now: Value)
    requires t.elements.VDict? && IsOrderOf(elementOrder, t.elements.entries)
    requires t.relations.VDict? && IsOrderOf(relationOrder, t.relations.entries)
    requires StyleKey !in preferences
    requires KeyedBy(t.elements.entries, "element_id") && KeyedBy(t.relations.entries, "relation_id")
    requires Adapt(Some(t), Some(requirements), preferences, elementOrder, relationOrder, now).Ok?
    ensures var a := Adapt(Some(t), Some(requirements), preferences, elementOrder, relationOrder, now).value;
            a.elements == t.elements && a.relations == t.relations
  {
    assert Adapt(Some(t), Some(requirements), preferences, elementOrder, relationOrder, now) ==
           Build(t, preferences, elementOrder, relationOrder, now);
    BuildCopies(t, preferences, elementOrder, relationOrder, now);
  }

  lemma BuildCopies(t: Templates.Fields, preferences: map<Value, Value>, elementOrder: seq<Value>,
                    relationOrder: seq<Value>, now: Value)
    requires t.elements.VDict? && IsOrderOf(elementOrder, t.elements.entries)
    requires t.relations.VDict? && IsOrderOf(relationOrder, t.relations.entries)
    requires StyleKey !in preferences
    requires KeyedBy(t.elements.entries, "element_id") && KeyedBy(t.relations.entries, "relation_id")
    requires Build(t, preferences, elementOrder, relationOrder, now).Ok?
    ensures var a := Build(t, preferences, elementOrder, relationOrder, now).value;
            a.elements == t.elements && a.relations == t.relations
  {
    var blank := StartAdapted(t, now).value;
    ElementsCopied(blank, t.elements.entries, elementOrder, preferences, now);
    var withElements := CopyElements(blank, t.elements.entries, elementOrder, 0, preferences, now).value;
    RelationsCopied(withElements, t.relations.entries, relationOrder, now);
  }

  lemma ElementsCopied(blank: Templates.Fields, es: map<Value, Value>, order: seq<Value>,
                       preferences: map<Value, Value>, now: Value)
    requires IsOrderOf(order, es) && StyleKey !in preferences && KeyedBy(es, "element_id")
    requires blank.elements == VDict(map[])
    requires CopyElements(blank, es, order, 0, preferences, now).Ok?
    ensures CopyElements(blank, es, order, 0, preferences, now).value.elements == VDict(es)
  {
    assert order[..0] == [];
    assert Restrict(es, []) == map[];
    CopyElementsRebuilds(blank, es, order, 0, preferences, now);
    assert Restrict(es, order) == es;
  }

  lemma RelationsCopied(f: Templates.Fields, rs: map<Value, Value>, order: seq<Value>, now: Value)
    requires IsOrderOf(order, rs) && KeyedBy(rs, "relation_id")
    requires f.relations == VDict(map[])
    requires CopyRelations(f, rs, order, 0, now).Ok?
    ensures CopyRelations(f, rs, order, 0, now).value.relations == VDict(rs)
  {
    assert order[..0] == [];
    assert Restrict(rs, []) == map[];
    CopyRelationsRebuilds(f, rs, order, 0, now);
    assert Restrict(rs, order) == rs;
  }
}
