/** `TemplateValidator`: the whole-template check `validate_template` with its
 *  element and relation scans, the reference-cycle search
 *  `_validate_circular_relations`, and the single-item checks
 *  `validate_element` and `validate_relation`. */
module Validator {
  import opened Wrappers
  import opened PyValue
  import opened Digraph
  import Templates

  // ------------------------------------------------------------------
  // Reference cycles

  const SourceKey := VStr("source_id")
  const TargetKey := VStr("target_id")

  /** A relation whose `source_id` and `target_id` can both be read. */
  predicate Readable(rel: Value) {
    GetItem(rel, SourceKey).Ok? && GetItem(rel, TargetKey).Ok?
  }

  function Src(rel: Value): Value
    requires Readable(rel)
  {
    GetItem(rel, SourceKey).value
  }

  function Tgt(rel: Value): Value
    requires Readable(rel)
  {
    GetItem(rel, TargetKey).value
  }

  /** The source→target edges of the relations that have both ends. */
  ghost function RelEdges(rels: seq<Value>): set<(Value, Value)> {
    set r | r in rels && Readable(r) :: (Src(r), Tgt(r))
  }

  /** Relations on which the search cannot raise: dicts with both ends and a
   *  hashable target. */
  predicate WellFormed(rels: seq<Value>) {
    forall r :: r in rels ==> Readable(r) && Hashable(Tgt(r))
  }

  ghost predicate Finished(rels: seq<Value>, B: set<Value>, rank: map<Value, nat>, clock: nat) {
    RankedClosed(RelEdges(rels), B, rank) && forall b :: b in B ==> rank[b] < clock
  }

  /** Every target of a relation among the first `n` that starts at `node`
   *  lies in `B`. */
  ghost predicate SuccessorsIn(rels: seq<Value>, node: Value, n: nat, B: set<Value>)
    requires n <= |rels|
  {
    forall k :: 0 <= k < n && Readable(rels[k]) && Src(rels[k]) == node ==> Tgt(rels[k]) in B
  }

  lemma SuccessorsGrow(rels: seq<Value>, node: Value, i: nat, B: set<Value>, B': set<Value>)
    requires i < |rels| && SuccessorsIn(rels, node, i, B) && B <= B'
    requires Readable(rels[i]) && Src(rels[i]) == node ==> Tgt(rels[i]) in B'
    ensures SuccessorsIn(rels, node, i + 1, B')
  {
  }

  lemma FinishNode(rels: seq<Value>, B: set<Value>, rank: map<Value, nat>, clock: nat, node: Value)
    requires Finished(rels, B, rank, clock)
    requires SuccessorsIn(rels, node, |rels|, B)
    requires node !in B
    ensures Finished(rels, B + {node}, rank[node := clock], clock + 1)
  {
    var rank' := rank[node := clock];
    forall e | e in RelEdges(rels) && e.0 in B + {node}
      ensures e.1 in B + {node} && rank'[e.1] < rank'[e.0]
    {
      if e.0 == node {
        var r :| r in rels && Readable(r) && e == (Src(r), Tgt(r));
        var k :| 0 <= k < |rels| && rels[k] == r;
        assert e.1 in B;
        assert rank'[e.1] == rank[e.1];
      } else {
        assert e.0 in B;
      }
    }
  }

  /** The nested `find_cycles(node, visited, path)`: `Ok(true)` when a
   *  relation leads back onto the current branch `path`. Reading a
   *  relation's ends, or hashing a target, can raise. */
  method FindCycles(rels: seq<Value>, node: Value, visited: set<Value>, path: set<Value>,
                    ghost stack: seq<Value>, ghost roots: set<Value>,
                    ghost rank: map<Value, nat>, ghost clock: nat, ghost nodes: set<Value>)
    returns (r: Result<bool>, visited': set<Value>, path': set<Value>,
             ghost rank': map<Value, nat>, ghost clock': nat)
    requires forall e :: e in RelEdges(rels) ==> e.1 in nodes
    requires node in nodes && visited <= nodes
    requires path == ToSet(stack) && path <= visited
    requires stack == [] ==> node in roots
    requires stack != [] ==> IsWalk(RelEdges(rels), stack) && stack[0] in roots &&
                             (stack[|stack| - 1], node) in RelEdges(rels)
    requires Finished(rels, visited - path, rank, clock)
    ensures WellFormed(rels) && Hashable(node) ==> r.Ok?
    ensures r.Err? ==> r.error == KeyError || r.error == TypeError
    ensures r == Ok(true) ==> CycleReachable(RelEdges(rels), roots)
    ensures r == Ok(false) ==> path' == path && visited + {node} <= visited' <= nodes && node !in path'
    ensures r == Ok(false) ==> Finished(rels, visited' - path', rank', clock')
    decreases |nodes - visited|, 1
  {
    if !Hashable(node) {
      return Err(TypeError), visited, path, rank, clock;
    }
    if node in path {
      CycleFromStack(RelEdges(rels), roots, stack, node);
      return Ok(true), visited, path, rank, clock;
    }
    if node in visited {
      return Ok(false), visited, path, rank, clock;
    }
    EnterNode(RelEdges(rels), roots, stack, node);
    r, visited', rank', clock' :=
      VisitRelations(rels, node, visited + {node}, path + {node}, stack + [node], roots,
                     rank, clock, nodes, visited);
    if r == Ok(false) {
      FinishNode(rels, visited' - (path + {node}), rank', clock', node);
      assert visited' - path == (visited' - (path + {node})) + {node};
      rank' := rank'[node := clock'];
      clock' := clock' + 1;
    }
    path' := path;
  }

  /** The `for relation in template.relations.values()` loop of
   *  `find_cycles`, with `node` on the branch. */
  method VisitRelations(rels: seq<Value>, node: Value, visited: set<Value>, path: set<Value>,
                        ghost stack: seq<Value>, ghost roots: set<Value>,
                        ghost rank: map<Value, nat>, ghost clock: nat, ghost nodes: set<Value>,
                        ghost entered: set<Value>)
    returns (r: Result<bool>, visited': set<Value>, ghost rank': map<Value, nat>, ghost clock': nat)
    requires forall e :: e in RelEdges(rels) ==> e.1 in nodes
    requires entered + {node} <= visited <= nodes && node !in entered
    requires path == ToSet(stack) && path <= visited && node in path
    requires IsWalk(RelEdges(rels), stack) && stack[0] in roots && stack[|stack| - 1] == node
    requires Finished(rels, visited - path, rank, clock)
    ensures WellFormed(rels) ==> r.Ok?
    ensures r.Err? ==> r.error == KeyError || r.error == TypeError
    ensures r == Ok(true) ==> CycleReachable(RelEdges(rels), roots)
    ensures r == Ok(false) ==> visited <= visited' <= nodes
    ensures r == Ok(false) ==> Finished(rels, visited' - path, rank', clock')
    ensures r == Ok(false) ==> SuccessorsIn(rels, node, |rels|, visited' - path)
    decreases |nodes - entered|, 0
  {
    visited', rank', clock' := visited, rank, clock;
    var i := 0;
    while i < |rels|
      invariant 0 <= i <= |rels|
      invariant visited <= visited' <= nodes
      invariant Finished(rels, visited' - path, rank', clock')
      invariant SuccessorsIn(rels, node, i, visited' - path)
    {
      ghost var done := visited' - path;
      var source := GetItem(rels[i], SourceKey);
      if source.Err? {
        assert !WellFormed(rels) by { assert rels[i] in rels; }
        return Err(source.error), visited', rank', clock';
      }
      if source.value == node {
        var target := GetItem(rels[i], TargetKey);
        if target.Err? {
          assert !WellFormed(rels) by { assert rels[i] in rels; }
          return Err(target.error), visited', rank', clock';
        }
        assert rels[i] in rels && Readable(rels[i]);
        assert (node, target.value) in RelEdges(rels);
        StrictSubsetCard(nodes - visited', nodes - entered);
        var found, p;
        found, visited', p, rank', clock' :=
          FindCycles(rels, target.value, visited', path, stack, roots, rank', clock', nodes);
        if found != Ok(false) {
          return found, visited', rank', clock';
        }
      }
      SuccessorsGrow(rels, node, i, done, visited' - path);
      i := i + 1;
    }
    r := Ok(false);
  }

  /** `_validate_circular_relations`: True when no depth-first search from
   *  an element finds its way back onto its own branch. */
  method ValidateCircularRelations(elementOrder: seq<Value>, rels: seq<Value>) returns (r: Result<bool>)
    ensures r.Ok? ==> (r.value <==> !CycleReachable(RelEdges(rels), ToSet(elementOrder)))
    ensures WellFormed(rels) && (forall k :: k in elementOrder ==> Hashable(k)) ==> r.Ok?
    ensures r.Err? ==> r.error == KeyError || r.error == TypeError
    ensures elementOrder == [] ==> r == Ok(true)
  {
    ghost var roots := ToSet(elementOrder);
    ghost var nodes := ToSet(elementOrder) + (set e | e in RelEdges(rels) :: e.1);
    var visited: set<Value> := {};
    ghost var rank: map<Value, nat> := map[];
    ghost var clock: nat := 0;
    var i := 0;
    while i < |elementOrder|
      invariant 0 <= i <= |elementOrder|
      invariant visited <= nodes
      invariant Finished(rels, visited, rank, clock)
      invariant forall k :: 0 <= k < i ==> elementOrder[k] in visited
    {
      var id := elementOrder[i];
      if !Hashable(id) {
        return Err(TypeError);
      }
      if id !in visited {
        var found, path;
        found, visited, path, rank, clock := FindCycles(rels, id, visited, {}, [], roots, rank, clock, nodes);
        if found.Err? {
          return Err(found.error);
        }
        if found.value {
          return Ok(false);
        }
      }
      i := i + 1;
    }
    NoCycleFromRanked(RelEdges(rels), visited, rank, roots);
    return Ok(true);
  }

  /** When every relation starts at an element, the search answers False
   *  exactly when the source→target edges contain a cycle. */
  lemma CircularMeansAnyCycle(elementOrder: seq<Value>, rels: seq<Value>)
    requires forall r :: r in rels && Readable(r) ==> Src(r) in elementOrder
    ensures CycleReachable(RelEdges(rels), ToSet(elementOrder)) <==> HasCycle(RelEdges(rels))
  {
    ReachableCycleIsAnyCycle(RelEdges(rels), ToSet(elementOrder));
  }

  // ------------------------------------------------------------------
  // Formats

  /** `re.match(r'^\d+\.\d+(\.\d+)?$', s)`: two or three dot-separated runs
   *  of digits. */
  predicate VersionMatches(s: string) {
    var parts := SplitOn(BeforeFinalNewline(s), '.');
    (|parts| == 2 || |parts| == 3) && forall i :: 0 <= i < |parts| ==> IsDigits(parts[i])
  }

  lemma {:induction false} SplitNoSep(a: string, sep: char)
    requires sep !in a
    ensures SplitOn(a, sep) == [a]
  {
    if |a| > 0 {
      SplitNoSep(a[1..], sep);
      assert [a[0]] + a[1..] == a;
    }
  }

  lemma {:induction false} SplitAtSep(a: string, sep: char, rest: string)
    requires sep !in a
    ensures SplitOn(a + [sep] + rest, sep) == [a] + SplitOn(rest, sep)
  {
    if |a| == 0 {
      assert a + [sep] + rest == [sep] + rest;
      assert ([sep] + rest)[1..] == rest;
    } else {
      SplitAtSep(a[1..], sep, rest);
      assert (a + [sep] + rest)[1..] == a[1..] + [sep] + rest;
      assert [a[0]] + a[1..] == a;
    }
  }

  /** Versions the pattern accepts: two or three numbers, and a final newline. */
  lemma VersionAccepts()
    ensures VersionMatches("1.0.0") && VersionMatches("2.10") && VersionMatches("1.0\n")
  {
    AcceptsThreeNumbers();
    AcceptsTwoNumbers();
    AcceptsFinalNewline();
  }

  lemma AcceptsThreeNumbers()
    ensures VersionMatches("1.0.0")
  {
    SplitNoSep("0", '.');
    SplitAtSep("0", '.', "0");
    SplitAtSep("1", '.', "0.0");
    assert "1" + ['.'] + "0.0" == "1.0.0";
    assert "0" + ['.'] + "0" == "0.0";
  }

  lemma AcceptsTwoNumbers()
    ensures VersionMatches("2.10")
  {
    SplitNoSep("10", '.');
    SplitAtSep("2", '.', "10");
    assert "2" + ['.'] + "10" == "2.10";
  }

  lemma AcceptsFinalNewline()
    ensures VersionMatches("1.0\n")
  {
    SplitNoSep("0", '.');
    SplitAtSep("1", '.', "0");
    assert "1" + ['.'] + "0" == "1.0";
    assert BeforeFinalNewline("1.0\n") == "1.0";
  }

  /** Versions the pattern rejects: one number, four numbers, a letter, an
   *  empty number. */
  lemma VersionRejects()
    ensures !VersionMatches("1") && !VersionMatches("1.0.0.0")
    ensures !VersionMatches("v1.0") && !VersionMatches("1..0")
  {
    RejectsOneNumber();
    RejectsFourNumbers();
    RejectsLetter();
    RejectsEmptyNumber();
  }

  lemma RejectsOneNumber()
    ensures !VersionMatches("1")
  {
    SplitNoSep("1", '.');
  }

  lemma RejectsFourNumbers()
    ensures !VersionMatches("1.0.0.0")
  {
    SplitNoSep("0", '.');
    SplitAtSep("0", '.', "0");
    SplitAtSep("0", '.', "0.0");
    SplitAtSep("1", '.', "0.0.0");
    assert "1" + ['.'] + "0.0.0" == "1.0.0.0";
    assert "0" + ['.'] + "0.0" == "0.0.0";
    assert "0" + ['.'] + "0" == "0.0";
  }

  lemma RejectsLetter()
    ensures !VersionMatches("v1.0")
  {
    SplitNoSep("0", '.');
    SplitAtSep("v1", '.', "0");
    assert "v1" + ['.'] + "0" == "v1.0";
    assert BeforeFinalNewline("v1.0") == "v1.0";
    assert SplitOn("v1.0", '.')[0] == "v1";
    assert !IsAsciiDigit("v1"[0]);
  }

  lemma RejectsEmptyNumber()
    ensures !VersionMatches("1..0")
  {
    SplitNoSep("0", '.');
    SplitAtSep("", '.', "0");
    assert "" + ['.'] + "0" == ".0";
    SplitAtSep("1", '.', ".0");
    assert "1" + ['.'] + ".0" == "1..0";
    assert BeforeFinalNewline("1..0") == "1..0";
    assert SplitOn("1..0", '.') == ["1", "", "0"];
    assert !IsDigits(SplitOn(BeforeFinalNewline("1..0"), '.')[1]);
  }

  predicate DigitsAt(t: string, lo: int, hi: int)
    requires 0 <= lo <= hi <= |t|
  {
    forall i :: lo <= i < hi ==> IsAsciiDigit(t[i])
  }

  /** `re.match(r'^\d{4}-\d{2}-\d{2}T\d{2}:\d{2}:\d{2}(\.\d+)?$', s)` */
  predicate IsoTimestamp(s: string) {
    var t := BeforeFinalNewline(s);
    |t| >= 19 &&
    DigitsAt(t, 0, 4) && t[4] == '-' && DigitsAt(t, 5, 7) && t[7] == '-' && DigitsAt(t, 8, 10) &&
    t[10] == 'T' && DigitsAt(t, 11, 13) && t[13] == ':' && DigitsAt(t, 14, 16) && t[16] == ':' &&
    DigitsAt(t, 17, 19) &&
    (|t| == 19 || (t[19] == '.' && IsDigits(t[20..])))
  }

  // ------------------------------------------------------------------
  // The report

  datatype ValidationResult = ValidationResult(isValid: bool, errors: seq<string>, warnings: seq<string>)

  /** What `DisciplineAnalyzer.analyze_structure_features` reports. */
  datatype StructureAnalysis = StructureAnalysis(isValid: bool, errors: seq<string>, warnings: seq<string>)

  const ValidElementTypes: set<Value> :=
    {VStr("chapter"), VStr("section"), VStr("paragraph"), VStr("table"), VStr("figure"), VStr("code"), VStr("equation")}
  const ValidRelationTypes: set<Value> :=
    {VStr("contains"), VStr("references"), VStr("depends_on"), VStr("follows")}

  const BasicInfoError := "Invalid template basic information"
  const VersionError := "Invalid version format"
  const MissingElementsError := "Missing required elements"
  const InvalidElement := "Invalid element"
  const DuplicateElement := "Duplicate element ID"
  const InvalidElementType := "Invalid element type"
  const InvalidContentFormat := "Invalid content format"
  const MissingAttributes := "Missing required attributes"
  const InvalidStyleFormat := "Invalid style format"
  const InvalidRelation := "Invalid relation"
  const InvalidRelationType := "Invalid relation type"
  const InvalidReferences := "Invalid element references"
  const CircularError := "Circular relation detected"
  const StructureCheckError := "Error validating template structure"

  /** What one element of the scan contributes: its message (if any), whether
   *  the scan stops (`break`), and the element ids seen so far. */
  datatype Verdict = Verdict(msgs: seq<string>, stop: bool, seen: set<Value>)

  /** A `size` entry in an element style must be a number or a digit string. */
  predicate SizeOk(v: Value) {
    v.VInt? || v.VBool? || v.VFloat? || (v.VStr? && IsDigits(v.s))
  }

  /** The body of the element loop of `validate_template` for one entry. */
  function ElementVerdict(key: Value, element: Value, seen: set<Value>): (r: Result<Verdict>)
    ensures r.Ok? ==> |r.value.msgs| <= 1 && seen <= r.value.seen
    ensures r.Ok? && r.value.stop ==> r.value.msgs == [DuplicateElement]
    ensures r.Ok? && r.value.msgs == [] ==>
              element.VDict? && Truthy(key) && VStr("element_id") in element.entries &&
              element.entries[VStr("element_id")] !in seen &&
              VStr("element_type") in element.entries &&
              element.entries[VStr("element_type")] in ValidElementTypes &&
              VStr("content") in element.entries && element.entries[VStr("content")].VDict?
  {
    if !Truthy(key) || !element.VDict? then Ok(Verdict([InvalidElement], false, seen))
    else
      var m := element.entries;
      if VStr("element_id") !in m || !Truthy(m[VStr("element_id")]) then Ok(Verdict([InvalidElement], false, seen))
      else
        var id := m[VStr("element_id")];
        if !Hashable(id) then Err(TypeError)
        else if id in seen then Ok(Verdict([DuplicateElement], true, seen))
        else
          var seen' := seen + {id};
          if VStr("element_type") !in m then Ok(Verdict([InvalidElement], false, seen'))
          else if !Hashable(m[VStr("element_type")]) then Err(TypeError)
          else if m[VStr("element_type")] !in ValidElementTypes then Ok(Verdict([InvalidElementType], false, seen'))
          else if VStr("content") !in m || !m[VStr("content")].VDict? then Ok(Verdict([InvalidContentFormat], false, seen'))
          else if VStr("attributes") !in m then Ok(Verdict([], false, seen'))
          else
            var attrs := m[VStr("attributes")];
            if !attrs.VDict? then Ok(Verdict([InvalidElement], false, seen'))
            else if VStr("level") !in attrs.entries then Ok(Verdict([MissingAttributes], false, seen'))
            else if VStr("style") !in attrs.entries then Ok(Verdict([], false, seen'))
            else
              var style := attrs.entries[VStr("style")];
              if !style.VDict? then Ok(Verdict([InvalidStyleFormat], false, seen'))
              else if VStr("size") in style.entries && !SizeOk(style.entries[VStr("size")]) then
                Ok(Verdict([InvalidStyleFormat], false, seen'))
              else Ok(Verdict([], false, seen'))
  }

  /** `prefix + rest` when `rest` did not raise. */
  function Prepend(prefix: seq<string>, rest: Result<seq<string>>): Result<seq<string>> {
    if rest.Err? then rest else Ok(prefix + rest.value)
  }

  lemma PrependEmpty(rest: Result<seq<string>>)
    ensures Prepend([], rest) == rest
  {
    if rest.Ok? {
      assert [] + rest.value == rest.value;
    }
  }

  lemma PrependTwice(a: seq<string>, b: seq<string>, rest: Result<seq<string>>)
    ensures Prepend(a, Prepend(b, rest)) == Prepend(a + b, rest)
  {
    if rest.Ok? {
      assert a + (b + rest.value) == (a + b) + rest.value;
    }
  }

  /** The element loop from `order` on, with the ids seen so far. */
  function ScanElements(order: seq<Value>, elements: map<Value, Value>, seen: set<Value>): Result<seq<string>>
    requires forall k :: k in order ==> k in elements
    decreases |order|
  {
    if |order| == 0 then Ok([])
    else
      var v :- ElementVerdict(order[0], elements[order[0]], seen);
      if v.stop then Ok(v.msgs) else Prepend(v.msgs, ScanElements(order[1..], elements, v.seen))
  }

  /** The duplicate-id message ends the element scan: nothing follows it. */
  lemma {:induction false} DuplicateStopsScan(order: seq<Value>, elements: map<Value, Value>, seen: set<Value>)
    requires forall k :: k in order ==> k in elements
    requires ScanElements(order, elements, seen).Ok?
    ensures var errs := ScanElements(order, elements, seen).value;
            forall i :: 0 <= i < |errs| && errs[i] == DuplicateElement ==> i == |errs| - 1
    decreases |order|
  {
    if |order| > 0 {
      var v := ElementVerdict(order[0], elements[order[0]], seen).value;
      if !v.stop {
        DuplicateStopsScan(order[1..], elements, v.seen);
        var rest := ScanElements(order[1..], elements, v.seen).value;
        assert v.msgs != [] ==> v.msgs[0] != DuplicateElement;
        assert ScanElements(order, elements, seen).value == v.msgs + rest;
      }
    }
  }

  /** The body of the relation loop of `validate_template` for one entry. */
  function RelationVerdict(key: Value, relation: Value, elements: Value): (r: Result<seq<string>>)
    ensures r.Ok? ==> |r.value| <= 1
    ensures r.Ok? && r.value == [] ==>
              relation.VDict? && Truthy(key) && SourceKey in relation.entries && TargetKey in relation.entries &&
              VStr("relation_type") in relation.entries && relation.entries[VStr("relation_type")] in ValidRelationTypes &&
              Contains(elements, relation.entries[SourceKey]) == Ok(true) &&
              Contains(elements, relation.entries[TargetKey]) == Ok(true)
  {
    if !Truthy(key) || !relation.VDict? then Ok([InvalidRelation])
    else
      var m := relation.entries;
      if VStr("relation_id") !in m || !Truthy(m[VStr("relation_id")]) then Ok([InvalidRelation])
      else if VStr("relation_type") !in m then Ok([InvalidRelation])
      else if !Hashable(m[VStr("relation_type")]) then Err(TypeError)
      else if m[VStr("relation_type")] !in ValidRelationTypes then Ok([InvalidRelationType])
      else if SourceKey !in m || TargetKey !in m then Ok([InvalidRelation])
      else
        var hasSource :- Contains(elements, m[SourceKey]);
        if !hasSource then Ok([InvalidReferences])
        else
          var hasTarget :- Contains(elements, m[TargetKey]);
          if !hasTarget then Ok([InvalidReferences]) else Ok([])
  }

  /** The relation loop from `order` on (it has no `break`). */
  function ScanRelations(order: seq<Value>, relations: map<Value, Value>, elements: Value): Result<seq<string>>
    requires forall k :: k in order ==> k in relations
    decreases |order|
  {
    if |order| == 0 then Ok([])
    else
      var msgs :- RelationVerdict(order[0], relations[order[0]], elements);
      Prepend(msgs, ScanRelations(order[1..], relations, elements))
  }

  /** Every relation's message reaches the report. */
  lemma {:induction false} RelationMessagesKept(order: seq<Value>, relations: map<Value, Value>, elements: Value, i: int)
    requires forall k :: k in order ==> k in relations
    requires ScanRelations(order, relations, elements).Ok? && 0 <= i < |order|
    ensures RelationVerdict(order[i], relations[order[i]], elements).Ok?
    ensures forall msg :: msg in RelationVerdict(order[i], relations[order[i]], elements).value ==>
              msg in ScanRelations(order, relations, elements).value
    decreases |order|
  {
    if i > 0 {
      RelationMessagesKept(order[1..], relations, elements, i - 1);
      assert order[1..][i - 1] == order[i];
    }
  }

  /** The relation values in dict order, as `relations.values()` gives them. */
  function ValuesInOrder(order: seq<Value>, m: map<Value, Value>): (r: seq<Value>)
    requires forall k :: k in order ==> k in m
    ensures |r| == |order| && forall i :: 0 <= i < |order| ==> r[i] == m[order[i]]
  {
    seq(|order|, i requires 0 <= i < |order| => m[order[i]])
  }

  /** The checks on the other fields: structure, style, content, metadata. */
  function ShapeErrors(t: Templates.Fields): seq<string> {
    (if t.structure != VNone && !t.structure.VDict? then ["Invalid structure"] else []) +
    (if t.style != VNone && !t.style.VDict? then ["Invalid style"] else []) +
    (if t.content != VNone && !t.content.VDict? then ["Invalid content"] else []) +
    (if t.metadata == VNone then []
     else if !t.metadata.VDict? then ["Invalid metadata"]
     else MetadataFormatErrors(t.metadata.entries))
  }

  /** A `created_at` entry whose text is not an ISO timestamp. */
  function MetadataFormatErrors(m: map<Value, Value>): seq<string> {
    if VStr("created_at") in m && !IsoTimestamp(Str(m[VStr("created_at")])) then ["Invalid metadata format"] else []
  }

  /** The `for key, value in template.metadata.items()` loop: the result does
   *  not depend on the order, since at most one key is `created_at`. */
  method CheckMetadataFormat(m: map<Value, Value>, order: seq<Value>) returns (errors: seq<string>)
    requires IsOrderOf(order, m)
    ensures errors == MetadataFormatErrors(m)
  {
    errors := [];
    var i := 0;
    while i < |order|
      invariant 0 <= i <= |order|
      invariant errors == (if VStr("created_at") in order[..i] && !IsoTimestamp(Str(m[VStr("created_at")]))
                           then ["Invalid metadata format"] else [])
    {
      var key := order[i];
      if key == VStr("created_at") && !IsoTimestamp(Str(m[key])) {
        assert VStr("created_at") !in order[..i];
        errors := errors + ["Invalid metadata format"];
      }
      assert order[..i + 1] == order[..i] + [order[i]];
      i := i + 1;
    }
    assert order[..i] == order;
  }

  /** The `validate_structure` block: `(rejected, errors, warnings)`. A
   *  template data that is not a dict, or an analyzer that raises, is caught
   *  and reported. */
  function StructurePhase(t: Templates.Fields, checkStructure: bool, analysis: Result<StructureAnalysis>)
    : (bool, seq<string>, seq<string>)
  {
    if !checkStructure then (false, [], [])
    else if !t.templateData.VDict? then (true, [StructureCheckError], [])
    else if !Truthy(Get(t.templateData.entries, "discipline", VNone)) then (false, [], [])
    else if analysis.Err? then (true, [StructureCheckError], [])
    else if analysis.value.isValid then (false, [], [])
    else (true, analysis.value.errors, analysis.value.warnings)
  }

  /** The analyzer rejected the template without giving a reason. */
  predicate SilentRejection(t: Templates.Fields, checkStructure: bool, analysis: Result<StructureAnalysis>) {
    var s := StructurePhase(t, checkStructure, analysis);
    s.0 && s.1 == []
  }

  /** The checks before the element loop. */
  function HeaderErrors(t: Templates.Fields): seq<string> {
    (if !Truthy(t.templateId) || !Truthy(t.name) then [BasicInfoError] else []) +
    (if !t.version.VStr? || !VersionMatches(t.version.s) then [VersionError] else []) +
    (if !Truthy(t.elements) then [MissingElementsError] else [])
  }

  /** The element and relation loops both finish without raising. */
  predicate ScansPass(t: Templates.Fields, elementOrder: seq<Value>, relationOrder: seq<Value>) {
    t.elements.VDict? && t.relations.VDict? &&
    (forall k :: k in elementOrder ==> k in t.elements.entries) &&
    (forall k :: k in relationOrder ==> k in t.relations.entries) &&
    ScanElements(elementOrder, t.elements.entries, {}).Ok? &&
    ScanRelations(relationOrder, t.relations.entries, t.elements).Ok?
  }

  /** What `_validate_circular_relations` answers (or raises) on the template. */
  ghost predicate CircularAnswer(elementOrder: seq<Value>, rels: seq<Value>, c: Result<bool>) {
    (c.Ok? ==> (c.value <==> !CycleReachable(RelEdges(rels), ToSet(elementOrder)))) &&
    (WellFormed(rels) && (forall k :: k in elementOrder ==> Hashable(k)) ==> c.Ok?) &&
    (c.Err? ==> c.error == KeyError || c.error == TypeError) &&
    (elementOrder == [] ==> c == Ok(true))
  }

  /** The report once both loops and the cycle search are through. */
  function Assemble(t: Templates.Fields, elementErrors: seq<string>, relationErrors: seq<string>, acyclic: bool,
                    checkStructure: bool, analysis: Result<StructureAnalysis>): ValidationResult
  {
    var errors := HeaderErrors(t) + elementErrors + relationErrors +
                  (if acyclic then [] else [CircularError]) + ShapeErrors(t);
    var warnings := if !Truthy(t.description) then ["Empty description"] else [];
    var s := StructurePhase(t, checkStructure, analysis);
    ValidationResult(errors == [] && !s.0, errors + s.1, warnings + s.2)
  }

  /** `validate_template`, given the element and relation orders and the
   *  answer of the cycle search. */
  function Report(t: Templates.Fields, elementOrder: seq<Value>, relationOrder: seq<Value>,
                  checkStructure: bool, analysis: Result<StructureAnalysis>, circular: Result<bool>)
    : Result<ValidationResult>
    requires t.elements.VDict? ==> forall k :: k in elementOrder ==> k in t.elements.entries
    requires t.relations.VDict? ==> forall k :: k in relationOrder ==> k in t.relations.entries
  {
    if !t.elements.VDict? then Err(AttributeError)
    else
      var elementErrors :- ScanElements(elementOrder, t.elements.entries, {});
      if !t.relations.VDict? then Err(AttributeError)
      else
        var relationErrors :- ScanRelations(relationOrder, t.relations.entries, t.elements);
        var acyclic :- circular;
        Ok(Assemble(t, elementErrors, relationErrors, acyclic, checkStructure, analysis))
  }

  /** The element loop of `validate_template`. */
  method ScanElementLoop(elements: map<Value, Value>, order: seq<Value>) returns (r: Result<seq<string>>)
    requires forall k :: k in order ==> k in elements
    ensures r == ScanElements(order, elements, {})
  {
    var errors: seq<string> := [];
    var seen: set<Value> := {};
    var i := 0;
    assert order[i..] == order;
    PrependEmpty(ScanElements(order, elements, {}));
    while i < |order|
      invariant 0 <= i <= |order|
      invariant ScanElements(order, elements, {}) == Prepend(errors, ScanElements(order[i..], elements, seen))
    {
      var v := ElementVerdict(order[i], elements[order[i]], seen);
      assert order[i..][1..] == order[i + 1..];
      if v.Err? {
        return Err(v.error);
      }
      if v.value.stop {
        return Ok(errors + v.value.msgs);
      }
      PrependTwice(errors, v.value.msgs, ScanElements(order[i + 1..], elements, v.value.seen));
      errors := errors + v.value.msgs;
      seen := v.value.seen;
      i := i + 1;
    }
    assert errors + [] == errors;
    return Ok(errors);
  }

  /** The checks before the element loop. */
  method CheckHeader(t: Templates.Fields) returns (errors: seq<string>)
    ensures errors == HeaderErrors(t)
  {
    errors := [];
    if !Truthy(t.templateId) || !Truthy(t.name) {
      errors := errors + [BasicInfoError];
    }
    if !t.version.VStr? || !VersionMatches(t.version.s) {
      errors := errors + [VersionError];
    }
    if !Truthy(t.elements) {
      errors := errors + [MissingElementsError];
    }
  }

  /** The checks on the other fields, in the order `validate_template` makes them. */
  method CheckFields(t: Templates.Fields, metadataOrder: seq<Value>) returns (errors: seq<string>)
    requires t.metadata.VDict? ==> IsOrderOf(metadataOrder, t.metadata.entries)
    ensures errors == ShapeErrors(t)
  {
    errors := [];
    if t.structure != VNone && !t.structure.VDict? {
      errors := errors + ["Invalid structure"];
    }
    if t.style != VNone && !t.style.VDict? {
      errors := errors + ["Invalid style"];
    }
    if t.content != VNone && !t.content.VDict? {
      errors := errors + ["Invalid content"];
    }
    if t.metadata != VNone {
      if !t.metadata.VDict? {
        errors := errors + ["Invalid metadata"];
      } else {
        var formatErrors := CheckMetadataFormat(t.metadata.entries, metadataOrder);
        errors := errors + formatErrors;
      }
    }
  }

  /** The `if self.validate_structure:` block, with its `try`. */
  method CheckStructure(t: Templates.Fields, checkStructure: bool, analysis: Result<StructureAnalysis>)
    returns (rejected: bool, errors: seq<string>, warnings: seq<string>)
    ensures (rejected, errors, warnings) == StructurePhase(t, checkStructure, analysis)
  {
    rejected, errors, warnings := false, [], [];
    if checkStructure {
      if !t.templateData.VDict? {
        rejected, errors := true, [StructureCheckError];
      } else if Truthy(Get(t.templateData.entries, "discipline", VNone)) {
        if analysis.Err? {
          rejected, errors := true, [StructureCheckError];
        } else if !analysis.value.isValid {
          rejected, errors, warnings := true, analysis.value.errors, analysis.value.warnings;
        }
      }
    }
  }

  /** The relation loop of `validate_template`. */
  method ScanRelationLoop(relations: map<Value, Value>, order: seq<Value>, elements: Value) returns (r: Result<seq<string>>)
    requires forall k :: k in order ==> k in relations
    ensures r == ScanRelations(order, relations, elements)
  {
    var errors: seq<string> := [];
    var i := 0;
    assert order[i..] == order;
    PrependEmpty(ScanRelations(order, relations, elements));
    while i < |order|
      invariant 0 <= i <= |order|
      invariant ScanRelations(order, relations, elements) == Prepend(errors, ScanRelations(order[i..], relations, elements))
    {
      var msgs := RelationVerdict(order[i], relations[order[i]], elements);
      assert order[i..][1..] == order[i + 1..];
      if msgs.Err? {
        return Err(msgs.error);
      }
      PrependTwice(errors, msgs.value, ScanRelations(order[i + 1..], relations, elements));
      errors := errors + msgs.value;
      i := i + 1;
    }
    assert errors + [] == errors;
    return Ok(errors);
  }

  /** `validate_template`. */
  method ValidateTemplate(t: Templates.Fields, elementOrder: seq<Value>, relationOrder: seq<Value>,
                          metadataOrder: seq<Value>, checkStructure: bool, analysis: Result<StructureAnalysis>)
    returns (r: Result<ValidationResult>, ghost circular: Result<bool>)
    requires t.elements.VDict? ==> IsOrderOf(elementOrder, t.elements.entries)
    requires t.relations.VDict? ==> IsOrderOf(relationOrder, t.relations.entries)
    requires t.metadata.VDict? ==> IsOrderOf(metadataOrder, t.metadata.entries)
    ensures r == Report(t, elementOrder, relationOrder, checkStructure, analysis, circular)
    ensures ScansPass(t, elementOrder, relationOrder) ==>
              CircularAnswer(elementOrder, ValuesInOrder(relationOrder, t.relations.entries), circular)
  {
    circular := Ok(true);
    var errors := CheckHeader(t);
    var valid := errors == [];
    if !t.elements.VDict? {
      return Err(AttributeError), circular;
    }
    var elementErrors := ScanElementLoop(t.elements.entries, elementOrder);
    if elementErrors.Err? {
      return Err(elementErrors.error), circular;
    }
    valid := valid && elementErrors.value == [];
    errors := errors + elementErrors.value;
    if !t.relations.VDict? {
      return Err(AttributeError), circular;
    }
    var relationErrors := ScanRelationLoop(t.relations.entries, relationOrder, t.elements);
    if relationErrors.Err? {
      return Err(relationErrors.error), circular;
    }
    valid := valid && relationErrors.value == [];
    errors := errors + relationErrors.value;
    var acyclic := ValidateCircularRelations(elementOrder, ValuesInOrder(relationOrder, t.relations.entries));
    circular := acyclic;
    if acyclic.Err? {
      return Err(acyclic.error), circular;
    }
    var report := FinishReport(t, metadataOrder, valid, errors, elementErrors.value, relationErrors.value,
                               acyclic.value, checkStructure, analysis);
    assert Report(t, elementOrder, relationOrder, checkStructure, analysis, circular) ==
           Ok(Assemble(t, elementErrors.value, relationErrors.value, acyclic.value, checkStructure, analysis));
    return Ok(report), circular;
  }

  /** The rest of `validate_template` once the cycle search has answered:
   *  the field shapes, the description warning and the discipline checks. */
  method FinishReport(t: Templates.Fields, metadataOrder: seq<Value>, valid0: bool, errors0: seq<string>,
                      elementErrors: seq<string>, relationErrors: seq<string>, acyclic: bool,
                      checkStructure: bool, analysis: Result<StructureAnalysis>)
    returns (r: ValidationResult)
    requires t.metadata.VDict? ==> IsOrderOf(metadataOrder, t.metadata.entries)
    requires errors0 == HeaderErrors(t) + elementErrors + relationErrors
    requires valid0 == (errors0 == [])
    ensures r == Assemble(t, elementErrors, relationErrors, acyclic, checkStructure, analysis)
  {
    var warnings: seq<string> := [];
    var errors := errors0;
    var circularErrors := if acyclic then [] else [CircularError];
    var valid := valid0 && acyclic;
    errors := errors + circularErrors;
    var shapeErrors := CheckFields(t, metadataOrder);
    valid := valid && shapeErrors == [];
    errors := errors + shapeErrors;
    if !Truthy(t.description) {
      warnings := warnings + ["Empty description"];
    }
    var rejected, structureErrors, structureWarnings := CheckStructure(t, checkStructure, analysis);
    valid := valid && !rejected;
    errors := errors + structureErrors;
    warnings := warnings + structureWarnings;
    ghost var before := HeaderErrors(t) + elementErrors + relationErrors + circularErrors + shapeErrors;
    assert errors == before + structureErrors;
    assert valid == (before == [] && !rejected);
    ghost var w0: seq<string> := if !Truthy(t.description) then ["Empty description"] else [];
    assert warnings == w0 + structureWarnings;
    assert Assemble(t, elementErrors, relationErrors, acyclic, checkStructure, analysis) ==
           ValidationResult(before == [] && !rejected, before + structureErrors, w0 + structureWarnings);
    return ValidationResult(valid, errors, warnings);
  }

  // ------------------------------------------------------------------
  // What the report promises

  /** `is_valid` is False exactly when an error was reported, except when the
   *  discipline analyzer rejects the template without giving a reason. */
  lemma ValidExactlyWithoutErrors(t: Templates.Fields, elementOrder: seq<Value>, relationOrder: seq<Value>,
                                  checkStructure: bool, analysis: Result<StructureAnalysis>, circular: Result<bool>)
    requires t.elements.VDict? ==> forall k :: k in elementOrder ==> k in t.elements.entries
    requires t.relations.VDict? ==> forall k :: k in relationOrder ==> k in t.relations.entries
    requires Report(t, elementOrder, relationOrder, checkStructure, analysis, circular).Ok?
    ensures var r := Report(t, elementOrder, relationOrder, checkStructure, analysis, circular).value;
            r.isValid <==> r.errors == [] && !SilentRejection(t, checkStructure, analysis)
  {
  }

  /** A template without an id or a name is invalid, and that is the first
   *  error reported. */
  lemma BasicInfoChecked(t: Templates.Fields, elementOrder: seq<Value>, relationOrder: seq<Value>,
                         checkStructure: bool, analysis: Result<StructureAnalysis>, circular: Result<bool>)
    requires t.elements.VDict? ==> forall k :: k in elementOrder ==> k in t.elements.entries
    requires t.relations.VDict? ==> forall k :: k in relationOrder ==> k in t.relations.entries
    requires Report(t, elementOrder, relationOrder, checkStructure, analysis, circular).Ok?
    requires !Truthy(t.templateId) || !Truthy(t.name)
    ensures var r := Report(t, elementOrder, relationOrder, checkStructure, analysis, circular).value;
            !r.isValid && r.errors[0] == BasicInfoError
  {
  }

  /** A version that is not a string of two or three dotted numbers is
   *  reported. */
  lemma VersionChecked(t: Templates.Fields, elementOrder: seq<Value>, relationOrder: seq<Value>,
                       checkStructure: bool, analysis: Result<StructureAnalysis>, circular: Result<bool>)
    requires t.elements.VDict? ==> forall k :: k in elementOrder ==> k in t.elements.entries
    requires t.relations.VDict? ==> forall k :: k in relationOrder ==> k in t.relations.entries
    requires Report(t, elementOrder, relationOrder, checkStructure, analysis, circular).Ok?
    requires !t.version.VStr? || !VersionMatches(t.version.s)
    ensures var r := Report(t, elementOrder, relationOrder, checkStructure, analysis, circular).value;
            !r.isValid && VersionError in r.errors
  {
    var r := Report(t, elementOrder, relationOrder, checkStructure, analysis, circular).value;
    var h := HeaderErrors(t);
    assert VersionError in h;
    assert r.errors[..|h|] == h;
  }

  /** A cycle along the relations, reachable from an element, is reported
   *  once the scans are through and the relations are well formed. */
  lemma CycleReported(t: Templates.Fields, elementOrder: seq<Value>, relationOrder: seq<Value>,
                      checkStructure: bool, analysis: Result<StructureAnalysis>, circular: Result<bool>)
    requires ScansPass(t, elementOrder, relationOrder)
    requires CircularAnswer(elementOrder, ValuesInOrder(relationOrder, t.relations.entries), circular)
    requires WellFormed(ValuesInOrder(relationOrder, t.relations.entries))
    requires forall k :: k in elementOrder ==> Hashable(k)
    requires CycleReachable(RelEdges(ValuesInOrder(relationOrder, t.relations.entries)), ToSet(elementOrder))
    ensures Report(t, elementOrder, relationOrder, checkStructure, analysis, circular).Ok?
    ensures var r := Report(t, elementOrder, relationOrder, checkStructure, analysis, circular).value;
            !r.isValid && CircularError in r.errors
  {
    var r := Report(t, elementOrder, relationOrder, checkStructure, analysis, circular).value;
    var e := ScanElements(elementOrder, t.elements.entries, {}).value;
    var rr := ScanRelations(relationOrder, t.relations.entries, t.elements).value;
    var front := HeaderErrors(t) + e + rr + [CircularError];
    assert r.errors == front + ShapeErrors(t) + StructurePhase(t, checkStructure, analysis).1;
    assert front[|front| - 1] == CircularError;
  }

  /** A relation whose source is not an element is reported. */
  lemma DanglingSourceReported(t: Templates.Fields, elementOrder: seq<Value>, relationOrder: seq<Value>,
                               checkStructure: bool, analysis: Result<StructureAnalysis>, circular: Result<bool>,
                               i: int)
    requires t.elements.VDict? && t.relations.VDict?
    requires forall k :: k in elementOrder ==> k in t.elements.entries
    requires forall k :: k in relationOrder ==> k in t.relations.entries
    requires Report(t, elementOrder, relationOrder, checkStructure, analysis, circular).Ok?
    requires 0 <= i < |relationOrder|
    requires RelationVerdict(relationOrder[i], t.relations.entries[relationOrder[i]], t.elements) == Ok([InvalidReferences])
    ensures var r := Report(t, elementOrder, relationOrder, checkStructure, analysis, circular).value;
            !r.isValid && InvalidReferences in r.errors
  {
    RelationMessagesKept(relationOrder, t.relations.entries, t.elements, i);
    var r := Report(t, elementOrder, relationOrder, checkStructure, analysis, circular).value;
    var e := ScanElements(elementOrder, t.elements.entries, {}).value;
    var rr := ScanRelations(relationOrder, t.relations.entries, t.elements).value;
    assert InvalidReferences in RelationVerdict(relationOrder[i], t.relations.entries[relationOrder[i]], t.elements).value;
    assert InvalidReferences in rr;
    var k :| 0 <= k < |rr| && rr[k] == InvalidReferences;
    assert r.errors[|HeaderErrors(t)| + |e| + k] == InvalidReferences;
  }

  /** A relation that passes its type checks but names a source that is not
   *  an element key gets "Invalid element references". */
  lemma MissingSourceVerdict(key: Value, relation: Value, elements: Value)
    requires Truthy(key) && relation.VDict? && elements.VDict?
    requires VStr("relation_id") in relation.entries && Truthy(relation.entries[VStr("relation_id")])
    requires VStr("relation_type") in relation.entries && relation.entries[VStr("relation_type")] in ValidRelationTypes
    requires SourceKey in relation.entries && TargetKey in relation.entries
    requires Hashable(relation.entries[SourceKey]) && relation.entries[SourceKey] !in elements.entries
    ensures RelationVerdict(key, relation, elements) == Ok([InvalidReferences])
  {
  }

  /** The description only ever produces a warning. */
  lemma DescriptionOnlyWarns(t: Templates.Fields, elementOrder: seq<Value>, relationOrder: seq<Value>,
                             checkStructure: bool, analysis: Result<StructureAnalysis>, circular: Result<bool>,
                             description: Value)
    requires t.elements.VDict? ==> forall k :: k in elementOrder ==> k in t.elements.entries
    requires t.relations.VDict? ==> forall k :: k in relationOrder ==> k in t.relations.entries
    requires Report(t, elementOrder, relationOrder, checkStructure, analysis, circular).Ok?
    ensures var r := Report(t, elementOrder, relationOrder, checkStructure, analysis, circular).value;
            var r' := Report(t.(description := description), elementOrder, relationOrder, checkStructure, analysis, circular);
            r'.Ok? && r'.value.isValid == r.isValid && r'.value.errors == r.errors
  {
    assert HeaderErrors(t.(description := description)) == HeaderErrors(t);
    assert ShapeErrors(t.(description := description)) == ShapeErrors(t);
  }

  // ------------------------------------------------------------------
  // Single items

  /** The name Python gives a value's type in an error message. */
  function TypeName(v: Value): string {
    match v
    case VNone => "NoneType"
    case VBool(_) => "bool"
    case VInt(_) => "int"
    case VFloat(_) => "float"
    case VStr(_) => "str"
    case VList(_) => "list"
    case VDict(_) => "dict"
  }

  /** `validate_element`: one error per missing id, type or content; a value
   *  that is not a dict fails on `.get` and the caught message is the report. */
  function ValidateElement(element: Value): (r: ValidationResult)
    ensures r.isValid <==> r.errors == []
    ensures r.warnings == []
    ensures !Truthy(element) ==> r.errors == ["Element cannot be empty"]
    ensures Truthy(element) && element.VDict? ==>
              |r.errors| <= 3 &&
              ("Element must have an ID" in r.errors <==> !Truthy(Get(element.entries, "element_id", VNone))) &&
              ("Element must have a type" in r.errors <==> !Truthy(Get(element.entries, "element_type", VNone))) &&
              ("Element must have content" in r.errors <==> !Truthy(Get(element.entries, "content", VNone)))
    ensures Truthy(element) && !element.VDict? ==>
              r.errors == ["'" + TypeName(element) + "' object has no attribute 'get'"]
  {
    if !Truthy(element) then ValidationResult(false, ["Element cannot be empty"], [])
    else if !element.VDict? then
      ValidationResult(false, ["'" + TypeName(element) + "' object has no attribute 'get'"], [])
    else
      var m := element.entries;
      var errors :=
        (if !Truthy(Get(m, "element_id", VNone)) then ["Element must have an ID"] else []) +
        (if !Truthy(Get(m, "element_type", VNone)) then ["Element must have a type"] else []) +
        (if !Truthy(Get(m, "content", VNone)) then ["Element must have content"] else []);
      ValidationResult(errors == [], errors, [])
  }

  /** `validate_relation`: one error per missing id, source, target or type. */
  function ValidateRelation(relation: Value): (r: ValidationResult)
    ensures r.isValid <==> r.errors == []
    ensures r.warnings == []
    ensures !Truthy(relation) ==> r.errors == ["Relation cannot be empty"]
    ensures Truthy(relation) && relation.VDict? ==>
              |r.errors| <= 4 &&
              ("Relation must have an ID" in r.errors <==> !Truthy(Get(relation.entries, "relation_id", VNone))) &&
              ("Relation must have a source ID" in r.errors <==> !Truthy(Get(relation.entries, "source_id", VNone))) &&
              ("Relation must have a target ID" in r.errors <==> !Truthy(Get(relation.entries, "target_id", VNone))) &&
              ("Relation must have a type" in r.errors <==> !Truthy(Get(relation.entries, "relation_type", VNone)))
    ensures Truthy(relation) && !relation.VDict? ==>
              r.errors == ["'" + TypeName(relation) + "' object has no attribute 'get'"]
  {
    if !Truthy(relation) then ValidationResult(false, ["Relation cannot be empty"], [])
    else if !relation.VDict? then
      ValidationResult(false, ["'" + TypeName(relation) + "' object has no attribute 'get'"], [])
    else
      var m := relation.entries;
      var errors :=
        (if !Truthy(Get(m, "relation_id", VNone)) then ["Relation must have an ID"] else []) +
        (if !Truthy(Get(m, "source_id", VNone)) then ["Relation must have a source ID"] else []) +
        (if !Truthy(Get(m, "target_id", VNone)) then ["Relation must have a target ID"] else []) +
        (if !Truthy(Get(m, "relation_type", VNone)) then ["Relation must have a type"] else []);
      ValidationResult(errors == [], errors, [])
  }
}
