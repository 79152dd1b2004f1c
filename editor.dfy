/** The template editor: edit sessions with a linear history of edit
 *  operations, undo, redo and rollback, and `apply_edit`'s walk down a key
 *  path into the template data. */
module Editor {
  import opened Wrappers
  import opened PyValue
  import opened Attributes

  /** An `EditOperation` as the editor records it. */
  datatype EditOperation = EditOperation(
    operationId: Value,
    operationType: Value,
    targetPath: Value,
    value: Value,
    oldData: Value,
    newData: Value)

  /** The fields of an `EditSession` that the history operations touch. */
  datatype SessionState = SessionState(
    sessionId: Value,
    templateId: Value,
    templateData: Value,
    metadata: Value,
    history: seq<EditOperation>,
    currentVersion: int)

  /** The version counter points into the history, or just past its end. */
  predicate Consistent(s: SessionState) {
    0 <= s.currentVersion <= |s.history|
  }

  /** `EditSession(...)` with `__post_init__`: the three identifying fields
   *  must be truthy; a missing metadata dict gets both timestamps, a missing
   *  history is empty. */
  function NewSession(sessionId: Value, templateId: Value, templateData: Value,
                      metadata: Option<Value>, history: Option<seq<EditOperation>>,
                      currentVersion: int, now: Value): (r: Result<SessionState>)
    ensures r.Ok? <==> Truthy(sessionId) && Truthy(templateId) && Truthy(templateData)
    ensures r.Err? ==> r.error == ValueError
    ensures r.Ok? ==> r.value.templateData == templateData && r.value.currentVersion == currentVersion
    ensures r.Ok? && history.None? ==> r.value.history == []
    ensures r.Ok? && metadata.None? ==> Truthy(r.value.metadata)
  {
    if !Truthy(sessionId) || !Truthy(templateId) || !Truthy(templateData) then Err(ValueError)
    else
      var m := if metadata.Some? then metadata.value
               else VDict(map[VStr("created_at") := now, VStr("updated_at") := now]);
      assert metadata.None? ==> VStr("created_at") in m.entries;
      Ok(SessionState(sessionId, templateId, templateData, m,
                      if history.Some? then history.value else [], currentVersion))
  }

  /** `EditSession.add_history`: drop everything after the current version,
   *  append the operation, advance the version, then stamp the metadata (a
   *  failing stamp leaves the history already changed). */
  function AddHistoryStep(s: SessionState, op: EditOperation, now: Value): (r: (Result<()>, SessionState))
    ensures Consistent(s) ==> r.1.history == s.history[..s.currentVersion] + [op]
    ensures r.1.currentVersion == s.currentVersion + 1
    ensures Consistent(s) ==> Consistent(r.1) && r.1.currentVersion == |r.1.history|
    ensures r.1.templateData == s.templateData
  {
    var s1 := s.(history := TakePrefix(s.history, s.currentVersion) + [op],
                 currentVersion := s.currentVersion + 1);
    match Stamp(s.metadata, now)
    case Err(e) => (Err(e), s1)
    case Ok(m) => (Ok(()), s1.(metadata := m))
  }

  /** `EditSession.undo` */
  function UndoStep(s: SessionState): (r: (bool, SessionState))
    ensures r.0 <==> s.currentVersion > 0
    ensures !r.0 ==> r.1 == s
    ensures Consistent(s) ==> Consistent(r.1)
  {
    if s.currentVersion > 0 then (true, s.(currentVersion := s.currentVersion - 1))
    else (false, s)
  }

  /** `EditSession.redo` */
  function RedoStep(s: SessionState): (r: (bool, SessionState))
    ensures r.0 <==> s.currentVersion < |s.history|
    ensures !r.0 ==> r.1 == s
    ensures Consistent(s) ==> Consistent(r.1)
  {
    if s.currentVersion < |s.history| then (true, s.(currentVersion := s.currentVersion + 1))
    else (false, s)
  }

  /** A successful undo is reversed by a redo. */
  lemma RedoAfterUndo(s: SessionState)
    requires Consistent(s) && UndoStep(s).0
    ensures RedoStep(UndoStep(s).1) == (true, s)
  {
  }

  /** A successful redo is reversed by an undo. */
  lemma UndoAfterRedo(s: SessionState)
    requires Consistent(s) && RedoStep(s).0
    ensures UndoStep(RedoStep(s).1) == (true, s)
  {
  }

  /** After `add_history` nothing is left to redo, and one undo gets back to
   *  the version the operation was added on. */
  lemma AddHistoryClearsRedo(s: SessionState, op: EditOperation, now: Value)
    requires Consistent(s)
    ensures !RedoStep(AddHistoryStep(s, op, now).1).0
    ensures UndoStep(AddHistoryStep(s, op, now).1).1.currentVersion == s.currentVersion
    ensures AddHistoryStep(s, op, now).1.history[s.currentVersion] == op
  {
  }

  // ---------------------------------------------------------------------
  // `apply_edit`'s walk down the edit path

  predicate IsIntKey(key: Value) {
    key.VInt? || key.VBool?
  }

  /** `path` as a sequence of keys: a list gives its items, a string its
   *  one-character strings; slicing anything else raises. */
  function PathKeys(path: Value): (r: Result<seq<Value>>)
    ensures path.VList? ==> r == Ok(path.items)
    ensures path.VStr? ==>
              (r.Ok? && |r.value| == |path.s| &&
               forall i :: 0 <= i < |path.s| ==> r.value[i] == VStr([path.s[i]]))
    ensures !path.VList? && !path.VStr? ==> r == Err(TypeError)
  {
    match path
    case VList(items) => Ok(items)
    case VStr(s) => Ok(seq(|s|, i requires 0 <= i < |s| => VStr([s[i]])))
    case _ => Err(TypeError)
  }

  /** One step of the walk: an int key on a non-dict indexes it; any other
   *  step first stores `{}` under a missing key. Gives the container as
   *  filled in and the child to descend into. */
  function Descend(target: Value, key: Value): (r: Result<(Value, Value)>)
    ensures r.Ok? ==> GetItem(r.value.0, key) == Ok(r.value.1)
    ensures r.Ok? && target.VDict? ==>
              r.value.0.VDict? && r.value.0.entries.Keys == target.entries.Keys + {key} &&
              (key in target.entries ==> r.value.0 == target) &&
              (key !in target.entries ==> r.value.1 == VDict(map[]))
  {
    if IsIntKey(key) && !target.VDict? then
      var child :- GetItem(target, key);
      Ok((target, child))
    else
      var present :- Contains(target, key);
      var filled :- if present then Ok(target) else SetItem(target, key, VDict(map[]));
      var child :- GetItem(filled, key);
      Ok((filled, child))
  }

  /** The assignment to the last key of the path. */
  function AssignLast(target: Value, key: Value, value: Value): (r: Result<Value>)
    ensures r.Ok? ==> GetItem(r.value, key) == Ok(value)
    ensures target.VDict? && Hashable(key) ==> r == Ok(VDict(target.entries[key := value]))
  {
    if IsIntKey(key) then SetItem(target, key, value)
    else
      var present :- Contains(target, key);
      var filled :- if present then Ok(target) else SetItem(target, key, VDict(map[]));
      assert target.VDict? && !present ==> filled.entries[key := value] == target.entries[key := value];
      SetItem(filled, key, value)
  }

  /** What the walk and the final assignment do to `target`, written as a new
   *  value: each container on the way gets its updated child back. */
  function SetPath(target: Value, keys: seq<Value>, value: Value): Result<Value>
    decreases |keys|
  {
    if |keys| == 0 then Ok(target)
    else if |keys| == 1 then AssignLast(target, keys[0], value)
    else
      var d :- Descend(target, keys[0]);
      var child :- SetPath(d.1, keys[1..], value);
      SetItem(d.0, keys[0], child)
  }

  /** Reading along a path with `[]` at each key. */
  function GetPath(v: Value, keys: seq<Value>): Result<Value>
    decreases |keys|
  {
    if |keys| == 0 then Ok(v)
    else
      var child :- GetItem(v, keys[0]);
      GetPath(child, keys[1..])
  }

  /** After a successful edit the value sits at the end of the path. */
  lemma {:induction false} SetThenGetPath(target: Value, keys: seq<Value>, value: Value)
    requires |keys| > 0 && SetPath(target, keys, value).Ok?
    ensures GetPath(SetPath(target, keys, value).value, keys) == Ok(value)
    decreases |keys|
  {
    var r := SetPath(target, keys, value).value;
    if |keys| == 1 {
      assert GetItem(r, keys[0]) == Ok(value);
      assert GetPath(value, keys[1..]) == Ok(value);
    } else {
      var d := Descend(target, keys[0]).value;
      var child := SetPath(d.1, keys[1..], value).value;
      SetThenGetPath(d.1, keys[1..], value);
      SetThenGetItem(d.0, keys[0], child);
    }
  }

  /** Every dict met on the way, including the `{}` put under missing keys. */
  predicate DictsAlong(target: Value, keys: seq<Value>)
    decreases |keys|
  {
    |keys| == 0 ||
    (target.VDict? &&
     (|keys| > 1 ==>
        DictsAlong(if keys[0] in target.entries then target.entries[keys[0]] else VDict(map[]), keys[1..])))
  }

  /** A path of string keys through nested dicts never fails: missing keys
   *  are created on the way. */
  lemma {:induction false} StringPathThroughDictsSucceeds(target: Value, keys: seq<Value>, value: Value)
    requires forall i :: 0 <= i < |keys| ==> keys[i].VStr?
    requires DictsAlong(target, keys)
    ensures SetPath(target, keys, value).Ok?
    decreases |keys|
  {
    if |keys| > 1 {
      var d := Descend(target, keys[0]);
      assert d.Ok?;
      StringPathThroughDictsSucceeds(d.value.1, keys[1..], value);
      assert d.value.0.VDict?;
    }
  }

  /** An immutable value cannot be assigned into: a walk that reaches a
   *  string or a scalar always fails, so writing children back into their
   *  parents only ever happens for dicts and lists. */
  lemma {:induction false} ImmutableTargetFails(target: Value, keys: seq<Value>, value: Value)
    requires !target.VDict? && !target.VList? && |keys| > 0
    ensures SetPath(target, keys, value).Err?
    decreases |keys|
  {
    if |keys| > 1 {
      var d := Descend(target, keys[0]);
      if d.Ok? {
        ImmutableTargetFails(d.value.1, keys[1..], value);
      }
    }
  }

  /** Writes `inner` back through the containers of a walk, innermost last. */
  function Refill(filled: seq<Value>, keys: seq<Value>, inner: Result<Value>): Result<Value>
    requires |filled| == |keys|
    decreases |filled|
  {
    if |filled| == 0 then inner
    else
      var n := |filled| - 1;
      Refill(filled[..n], keys[..n], if inner.Err? then inner else SetItem(filled[n], keys[n], inner.value))
  }

  lemma {:induction false} RefillErr(filled: seq<Value>, keys: seq<Value>, e: PyError)
    requires |filled| == |keys|
    ensures Refill(filled, keys, Err(e)) == Err(e)
    decreases |filled|
  {
    if |filled| > 0 {
      RefillErr(filled[..|filled| - 1], keys[..|filled| - 1], e);
    }
  }

  /** One step down the walk moves the step's container onto the stack. */
  lemma DescendIntoRefill(filled: seq<Value>, keys: seq<Value>, i: int, target: Value, value: Value)
    requires 0 <= i < |keys| - 1 && |filled| == i
    requires Descend(target, keys[i]).Ok?
    ensures Refill(filled, keys[..i], SetPath(target, keys[i..], value)) ==
            Refill(filled + [Descend(target, keys[i]).value.0], keys[..i + 1],
                   SetPath(Descend(target, keys[i]).value.1, keys[i + 1..], value))
  {
    var d := Descend(target, keys[i]).value;
    assert keys[i..][1..] == keys[i + 1..];
    assert (filled + [d.0])[..i] == filled;
    assert keys[..i + 1][..i] == keys[..i];
  }

  /** A failing step makes the whole walk fail with its error. */
  lemma DescendFails(filled: seq<Value>, keys: seq<Value>, i: int, target: Value, value: Value)
    requires 0 <= i < |keys| - 1 && |filled| == i
    requires Descend(target, keys[i]).Err?
    ensures Refill(filled, keys[..i], SetPath(target, keys[i..], value)) == Err(Descend(target, keys[i]).error)
  {
    RefillErr(filled, keys[..i], Descend(target, keys[i]).error);
  }

  /** Writing one child back pops the innermost container. */
  lemma RefillPop(filled: seq<Value>, keys: seq<Value>, j: int, inner: Result<Value>)
    requires 0 < j <= |filled| == |keys|
    ensures Refill(filled[..j], keys[..j], inner) ==
            Refill(filled[..j - 1], keys[..j - 1],
                   if inner.Err? then inner else SetItem(filled[j - 1], keys[j - 1], inner.value))
  {
    assert filled[..j][..j - 1] == filled[..j - 1];
    assert keys[..j][..j - 1] == keys[..j - 1];
  }

  /** The loop of `apply_edit`: walk down all keys but the last, filling in
   *  missing ones, assign the last, then hand each updated child back to
   *  its parent. */
  method WalkAndAssign(data: Value, keys: seq<Value>, value: Value) returns (r: Result<Value>)
    ensures r == SetPath(data, keys, value)
  {
    if |keys| == 0 {
      return Ok(data);
    }
    var filled: seq<Value> := [];
    var target := data;
    var i := 0;
    while i < |keys| - 1
      invariant 0 <= i <= |keys| - 1
      invariant |filled| == i
      invariant SetPath(data, keys, value) == Refill(filled, keys[..i], SetPath(target, keys[i..], value))
    {
      var d := Descend(target, keys[i]);
      if d.Err? {
        DescendFails(filled, keys, i, target, value);
        return Err(d.error);
      }
      DescendIntoRefill(filled, keys, i, target, value);
      filled := filled + [d.value.0];
      target := d.value.1;
      i := i + 1;
    }
    assert keys[i..] == [keys[i]];
    assert filled[..i] == filled;
    r := AssignLast(target, keys[i], value);
    var j := i;
    while j > 0
      invariant 0 <= j <= i
      invariant SetPath(data, keys, value) == Refill(filled[..j], keys[..j], r)
    {
      RefillPop(filled, keys[..i], j, r);
      assert keys[..i][..j] == keys[..j] && keys[..i][..j - 1] == keys[..j - 1];
      if r.Err? {
        RefillErr(filled[..j - 1], keys[..j - 1], r.error);
        return;
      }
      r := SetItem(filled[j - 1], keys[j - 1], r.value);
      j := j - 1;
    }
  }

  // ---------------------------------------------------------------------
  // TemplateEditor operations on one session

  /** `apply_edit` on a found session: walk the path, record the operation
   *  (appended without truncating the history), move the version to the end
   *  and stamp the metadata. Any failure puts the template data back and
   *  raises ValueError. */
  function ApplyEditStep(s: SessionState, editData: Value, operationId: Value, now: Value)
    : (r: (Result<()>, SessionState))
    ensures r.0.Err? ==> r.0.error == ValueError && r.1.templateData == s.templateData
    ensures r.0.Err? && r.1 != s ==>
              |r.1.history| == |s.history| + 1 && r.1.history[..|s.history|] == s.history &&
              r.1.currentVersion == |r.1.history|
    ensures r.0.Ok? ==>
              editData.VDict? && |r.1.history| == |s.history| + 1 &&
              r.1.history == s.history + [r.1.history[|s.history|]] &&
              r.1.currentVersion == |r.1.history| &&
              r.1.history[|s.history|].oldData == s.templateData &&
              r.1.history[|s.history|].newData == r.1.templateData
    ensures !editData.VDict? ==> r.0.Err? && r.1 == s
  {
    if !editData.VDict? then (Err(ValueError), s)
    else
      var path := Get(editData.entries, "path", VList([]));
      var value := Get(editData.entries, "value", VNone);
      match PathKeys(path)
      case Err(_) => (Err(ValueError), s)
      case Ok(keys) =>
        match SetPath(s.templateData, keys, value)
        case Err(_) => (Err(ValueError), s)
        case Ok(updated) =>
          var op := EditOperation(operationId, Get(editData.entries, "type", VStr("modify")),
                                  path, value, s.templateData, updated);
          var h := s.history + [op];
          match Stamp(s.metadata, now)
          case Err(_) =>
            (Err(ValueError), s.(history := h, currentVersion := |h|))
          case Ok(m) =>
            (Ok(()), s.(templateData := updated, history := h, currentVersion := |h|, metadata := m))
  }

  /** A successful edit stores the value at the end of a non-empty path. */
  lemma ApplyEditStoresValue(s: SessionState, editData: Value, operationId: Value, now: Value)
    requires ApplyEditStep(s, editData, operationId, now).0.Ok?
    requires PathKeys(Get(editData.entries, "path", VList([]))).Ok?
    requires |PathKeys(Get(editData.entries, "path", VList([]))).value| > 0
    ensures GetPath(ApplyEditStep(s, editData, operationId, now).1.templateData,
                    PathKeys(Get(editData.entries, "path", VList([]))).value)
            == Ok(Get(editData.entries, "value", VNone))
  {
    var keys := PathKeys(Get(editData.entries, "path", VList([]))).value;
    SetThenGetPath(s.templateData, keys, Get(editData.entries, "value", VNone));
  }

  /** The dict `undo_edit` and `redo_edit` return. */
  function Summary(s: SessionState): Value {
    VDict(map[VStr("session_id") := s.sessionId, VStr("template_id") := s.templateId,
              VStr("current_version") := VInt(s.currentVersion), VStr("metadata") := s.metadata])
  }

  /** `undo_edit` on a found session: nothing to undo raises ValueError;
   *  otherwise the data before the current operation comes back and the
   *  version steps down. */
  function UndoEditStep(s: SessionState, now: Value): (r: (Result<Value>, SessionState))
    ensures |s.history| == 0 || s.currentVersion <= 0 ==> r == (Err(ValueError), s)
    ensures Consistent(s) && s.currentVersion > 0 ==>
              r.1.templateData == s.history[s.currentVersion - 1].oldData &&
              r.1.currentVersion == s.currentVersion - 1 && r.1.history == s.history
    ensures r.0.Ok? ==> Consistent(s) && r.0.value == Summary(r.1)
  {
    if |s.history| == 0 || s.currentVersion <= 0 then (Err(ValueError), s)
    else if s.currentVersion - 1 >= |s.history| then (Err(IndexError), s)
    else
      var s1 := s.(templateData := s.history[s.currentVersion - 1].oldData,
                   currentVersion := s.currentVersion - 1);
      match Stamp(s.metadata, now)
      case Err(e) => (Err(e), s1)
      case Ok(m) => (Ok(Summary(s1.(metadata := m))), s1.(metadata := m))
  }

  /** `redo_edit` on a found session: nothing to redo raises ValueError;
   *  otherwise the data after the operation at the current version comes
   *  back and the version steps up. */
  function RedoEditStep(s: SessionState, now: Value): (r: (Result<Value>, SessionState))
    ensures |s.history| == 0 || s.currentVersion >= |s.history| ==> r == (Err(ValueError), s)
    ensures Consistent(s) && s.currentVersion < |s.history| ==>
              r.1.templateData == s.history[s.currentVersion].newData &&
              r.1.currentVersion == s.currentVersion + 1 && r.1.history == s.history
    ensures r.0.Ok? ==> r.0.value == Summary(r.1)
  {
    if |s.history| == 0 || s.currentVersion >= |s.history| then (Err(ValueError), s)
    else
      match PyIndex(s.history, s.currentVersion)
      case Err(e) => (Err(e), s)
      case Ok(op) =>
        var s1 := s.(templateData := op.newData, currentVersion := s.currentVersion + 1);
        match Stamp(s.metadata, now)
        case Err(e) => (Err(e), s1)
        case Ok(m) => (Ok(Summary(s1.(metadata := m))), s1.(metadata := m))
  }

  /** `rollback_to_version` on a found session: a version outside the history
   *  raises ValueError; an `update_content` operation puts its new data back
   *  under "structure"; the version becomes `version + 1`. */
  function RollbackStep(s: SessionState, version: int): (r: (Result<()>, SessionState))
    ensures r.0.Ok? ==> 0 <= version < |s.history| && r.1.currentVersion == version + 1 &&
                        Consistent(r.1) && r.1.history == s.history
    ensures version < 0 || version >= |s.history| ==> r == (Err(ValueError), s)
    ensures r.0.Err? ==> r.1 == s
    ensures (0 <= version < |s.history| && s.history[version].operationType != VStr("update_content")) ==>
              r == (Ok(()), s.(currentVersion := version + 1))
  {
    if version < 0 || version >= |s.history| then (Err(ValueError), s)
    else
      var op := s.history[version];
      if op.operationType == VStr("update_content") then
        match SetItem(s.templateData, VStr("structure"), op.newData)
        case Err(e) => (Err(e), s)
        case Ok(d) => (Ok(()), s.(templateData := d, currentVersion := version + 1))
      else (Ok(()), s.(currentVersion := version + 1))
  }

  /** Undoing a successful edit gives back the template data it started
   *  from and the version just before the new operation. */
  lemma UndoAfterApplyEdit(s: SessionState, editData: Value, operationId: Value, now: Value, later: Value)
    requires ApplyEditStep(s, editData, operationId, now).0.Ok?
    ensures UndoEditStep(ApplyEditStep(s, editData, operationId, now).1, later).1.templateData == s.templateData
    ensures UndoEditStep(ApplyEditStep(s, editData, operationId, now).1, later).1.currentVersion == |s.history|
  {
  }

  /** Redoing a successful undo gives back the data recorded after that
   *  operation and the version the undo started from. */
  lemma RedoAfterUndoEdit(s: SessionState, now: Value, later: Value)
    requires Consistent(s) && UndoEditStep(s, now).0.Ok?
    ensures RedoEditStep(UndoEditStep(s, now).1, later).1.templateData == s.history[s.currentVersion - 1].newData
    ensures RedoEditStep(UndoEditStep(s, now).1, later).1.currentVersion == s.currentVersion
  {
  }

  /** Every editor operation keeps the version inside the history. */
  lemma EditorKeepsConsistent(s: SessionState, editData: Value, operationId: Value, now: Value, version: int)
    requires Consistent(s)
    ensures Consistent(ApplyEditStep(s, editData, operationId, now).1)
    ensures Consistent(UndoEditStep(s, now).1)
    ensures Consistent(RedoEditStep(s, now).1)
    ensures Consistent(RollbackStep(s, version).1)
  {
  }

  // ---------------------------------------------------------------------
  // The objects

  class EditSession {
    var sessionId: Value
    var templateId: Value
    var templateData: Value
    var metadata: Value
    var history: seq<EditOperation>
    var currentVersion: int

    function Snapshot(): SessionState
      reads this
    {
      SessionState(sessionId, templateId, templateData, metadata, history, currentVersion)
    }

    constructor Of(s: SessionState)
      ensures Snapshot() == s
    {
      sessionId, templateId, templateData := s.sessionId, s.templateId, s.templateData;
      metadata, history, currentVersion := s.metadata, s.history, s.currentVersion;
    }

    /** `EditSession(...)` */
    static method Create(sessionId: Value, templateId: Value, templateData: Value,
                         metadata: Option<Value>, history: Option<seq<EditOperation>>,
                         currentVersion: int, now: Value) returns (r: Result<EditSession>)
      ensures NewSession(sessionId, templateId, templateData, metadata, history, currentVersion, now).Err? ==>
                r.Err? && r.error == ValueError
      ensures NewSession(sessionId, templateId, templateData, metadata, history, currentVersion, now).Ok? ==>
                r.Ok? && fresh(r.value) &&
                r.value.Snapshot() == NewSession(sessionId, templateId, templateData, metadata, history, currentVersion, now).value
    {
      var s :- NewSession(sessionId, templateId, templateData, metadata, history, currentVersion, now);
      var session := new EditSession.Of(s);
      return Ok(session);
    }

    method AddHistory(op: EditOperation, now: Value) returns (r: Result<()>)
      modifies this
      ensures (r, Snapshot()) == AddHistoryStep(old(Snapshot()), op, now)
    {
      history := TakePrefix(history, currentVersion);
      history := history + [op];
      currentVersion := currentVersion + 1;
      var stamped := Stamp(metadata, now);
      if stamped.Err? {
        return Err(stamped.error);
      }
      metadata := stamped.value;
      return Ok(());
    }

    method Undo() returns (done: bool)
      modifies this
      ensures (done, Snapshot()) == UndoStep(old(Snapshot()))
    {
      if currentVersion > 0 {
        currentVersion := currentVersion - 1;
        return true;
      }
      return false;
    }

    method Redo() returns (done: bool)
      modifies this
      ensures (done, Snapshot()) == RedoStep(old(Snapshot()))
    {
      if currentVersion < |history| {
        currentVersion := currentVersion + 1;
        return true;
      }
      return false;
    }
  }

  class TemplateEditor {
    var sessions: map<string, EditSession>

    constructor ()
      ensures sessions == map[]
    {
      sessions := map[];
    }

    method ApplyEdit(sessionId: string, editData: Value, operationId: Value, now: Value) returns (r: Result<()>)
      modifies if sessionId in sessions then {sessions[sessionId]} else {}
      ensures sessionId !in sessions ==> r == Err(ValueError)
      ensures sessionId in sessions ==>
                (r, sessions[sessionId].Snapshot()) ==
                ApplyEditStep(old(sessions[sessionId].Snapshot()), editData, operationId, now)
    {
      if sessionId !in sessions {
        return Err(ValueError);
      }
      var session := sessions[sessionId];
      ghost var s0 := session.Snapshot();
      ghost var spec := ApplyEditStep(s0, editData, operationId, now);
      if !editData.VDict? {
        return Err(ValueError);
      }
      var current := session.templateData;
      var path := Get(editData.entries, "path", VList([]));
      var value := Get(editData.entries, "value", VNone);
      var keys := PathKeys(path);
      if keys.Err? {
        assert spec == (Err(ValueError), s0);
        return Err(ValueError);
      }
      var updated := WalkAndAssign(current, keys.value, value);
      if updated.Err? {
        session.templateData := current;
        assert spec == (Err(ValueError), s0);
        return Err(ValueError);
      }
      session.templateData := updated.value;
      var op := EditOperation(operationId, Get(editData.entries, "type", VStr("modify")),
                              path, value, current, updated.value);
      session.history := session.history + [op];
      session.currentVersion := |session.history|;
      var stamped := Stamp(session.metadata, now);
      if stamped.Err? {
        session.templateData := current;
        return Err(ValueError);
      }
      session.metadata := stamped.value;
      return Ok(());
    }

    method UndoEdit(sessionId: string, now: Value) returns (r: Result<Value>)
      modifies if sessionId in sessions then {sessions[sessionId]} else {}
      ensures sessionId !in sessions ==> r == Err(ValueError)
      ensures sessionId in sessions ==>
                (r, sessions[sessionId].Snapshot()) == UndoEditStep(old(sessions[sessionId].Snapshot()), now)
    {
      if sessionId !in sessions {
        return Err(ValueError);
      }
      var session := sessions[sessionId];
      if |session.history| == 0 || session.currentVersion <= 0 {
        return Err(ValueError);
      }
      if session.currentVersion - 1 >= |session.history| {
        return Err(IndexError);
      }
      var op := session.history[session.currentVersion - 1];
      session.templateData := op.oldData;
      session.currentVersion := session.currentVersion - 1;
      var stamped := Stamp(session.metadata, now);
      if stamped.Err? {
        return Err(stamped.error);
      }
      session.metadata := stamped.value;
      return Ok(Summary(session.Snapshot()));
    }

    method RedoEdit(sessionId: string, now: Value) returns (r: Result<Value>)
      modifies if sessionId in sessions then {sessions[sessionId]} else {}
      ensures sessionId !in sessions ==> r == Err(ValueError)
      ensures sessionId in sessions ==>
                (r, sessions[sessionId].Snapshot()) == RedoEditStep(old(sessions[sessionId].Snapshot()), now)
    {
      if sessionId !in sessions {
        return Err(ValueError);
      }
      var session := sessions[sessionId];
      if |session.history| == 0 || session.currentVersion >= |session.history| {
        return Err(ValueError);
      }
      var op := PyIndex(session.history, session.currentVersion);
      if op.Err? {
        return Err(op.error);
      }
      session.templateData := op.value.newData;
      session.currentVersion := session.currentVersion + 1;
      var stamped := Stamp(session.metadata, now);
      if stamped.Err? {
        return Err(stamped.error);
      }
      session.metadata := stamped.value;
      return Ok(Summary(session.Snapshot()));
    }

    method RollbackToVersion(sessionId: string, version: int) returns (r: Result<()>)
      modifies if sessionId in sessions then {sessions[sessionId]} else {}
      ensures sessionId !in sessions ==> r == Err(ValueError)
      ensures sessionId in sessions ==>
                (r, sessions[sessionId].Snapshot()) == RollbackStep(old(sessions[sessionId].Snapshot()), version)
    {
      if sessionId !in sessions {
        return Err(ValueError);
      }
      var session := sessions[sessionId];
      if version < 0 || version >= |session.history| {
        return Err(ValueError);
      }
      var op := session.history[version];
      if op.operationType == VStr("update_content") {
        var d := SetItem(session.templateData, VStr("structure"), op.newData);
        if d.Err? {
          return Err(d.error);
        }
        session.templateData := d.value;
      }
      session.currentVersion := version + 1;
      return Ok(());
    }
  }
}
