/** The diff `TemplateVersionControl._compare_data` computes between two
 *  versions of a template's data. Checkpoints, their files and their
 *  timestamps are not part of this model. */
module VersionControl {
  import opened PyValue

  /** `{"old": a, "new": b}` */
  function OldNew(a: Value, b: Value): (r: Value)
    ensures r.VDict? && Truthy(r)
  {
    var m := map[VStr("old") := a, VStr("new") := b];
    assert VStr("old") in m;
    VDict(m)
  }

  /** The nested `compare_recursive`: a dict of per-key differences for two
   *  dicts (an added key keeps its new value, a removed key maps to None), the
   *  non-empty differences of two lists of equal length (None when there are
   *  none), and `{old, new}` for anything else that differs. The result is
   *  falsy exactly when the two values are equal. */
  function CompareRecursive(d1: Value, d2: Value): (r: Value)
    decreases d1, 1
    ensures Truthy(r) <==> d1 != d2
    ensures d1.VDict? && d2.VDict? ==> r.VDict? && r.entries.Keys <= d1.entries.Keys + d2.entries.Keys
    ensures d1.VList? && d2.VList? && |d1.items| != |d2.items| ==> r == OldNew(d1, d2)
  {
    if d1.VDict? && d2.VDict? then
      var m1, m2 := d1.entries, d2.entries;
      var r := map k | k in m1.Keys + m2.Keys && (k in m1 && k in m2 ==> Truthy(CompareRecursive(m1[k], m2[k]))) ::
        if k !in m1 then m2[k] else if k !in m2 then VNone else CompareRecursive(m1[k], m2[k]);
      DictDiffEmptyIffEqual(m1, m2, r);
      VDict(r)
    else if d1.VList? && d2.VList? then
      if |d1.items| != |d2.items| then OldNew(d1, d2)
      else
        var changes := ListDiff(d1.items, d2.items);
        if changes == [] then VNone else VList(changes)
    else if d1 != d2 then OldNew(d1, d2)
    else VNone
  }

  /** The `zip` loop over two lists of the same length: the truthy element
   *  differences, in order. */
  function ListDiff(xs: seq<Value>, ys: seq<Value>): (r: seq<Value>)
    requires |xs| == |ys|
    decreases xs, 0
    ensures r == [] <==> xs == ys
    ensures forall i :: 0 <= i < |r| ==> Truthy(r[i])
  {
    if xs == [] then []
    else
      var s := CompareRecursive(xs[0], ys[0]);
      var rest := ListDiff(xs[1..], ys[1..]);
      assert xs == [xs[0]] + xs[1..] && ys == [ys[0]] + ys[1..];
      if Truthy(s) then [s] + rest else rest
  }

  /** The dict case of `compare_recursive` is empty exactly when the two
   *  dicts are equal, given that each shared key's difference is falsy
   *  exactly when its two values are equal. */
  lemma DictDiffEmptyIffEqual(m1: map<Value, Value>, m2: map<Value, Value>, r: map<Value, Value>)
    requires forall k :: k in r <==> k in m1.Keys + m2.Keys && (k in m1 && k in m2 ==> m1[k] != m2[k])
    ensures r == map[] <==> m1 == m2
  {
    if r == map[] {
      assert m1.Keys == m2.Keys by {
        forall k | k in m1 ensures k in m2 { assert k !in r; }
        forall k | k in m2 ensures k in m1 { assert k !in r; }
      }
      forall k | k in m1 ensures m1[k] == m2[k] { assert k !in r; }
    }
    if m1 == m2 {
      assert r.Keys == {};
    }
  }

  /** Keys only in the new data, with their new values. */
  function Added(data1: map<Value, Value>, data2: map<Value, Value>): map<Value, Value> {
    map k | k in data2 && k !in data1 :: data2[k]
  }

  /** Keys only in the old data, with their old values. */
  function Removed(data1: map<Value, Value>, data2: map<Value, Value>): map<Value, Value> {
    map k | k in data1 && k !in data2 :: data1[k]
  }

  /** Shared keys whose values differ, with their recursive differences. */
  function Modified(data1: map<Value, Value>, data2: map<Value, Value>): map<Value, Value> {
    map k | k in data1 && k in data2 && Truthy(CompareRecursive(data1[k], data2[k])) ::
      CompareRecursive(data1[k], data2[k])
  }

  /** The dict `_compare_data` returns. */
  function Diff(added: map<Value, Value>, removed: map<Value, Value>, modified: map<Value, Value>): Value {
    VDict(map[VStr("added") := VDict(added), VStr("removed") := VDict(removed), VStr("modified") := VDict(modified)])
  }

  /** `_compare_data`: the loop over the new data's keys fills "added" and
   *  "modified", the loop over the old data's keys fills "removed". The key
   *  orders are the dicts' iteration orders. */
  method CompareData(data1: map<Value, Value>, data2: map<Value, Value>, order1: seq<Value>, order2: seq<Value>)
    returns (diff: Value)
    requires IsOrderOf(order1, data1) && IsOrderOf(order2, data2)
    ensures diff == Diff(Added(data1, data2), Removed(data1, data2), Modified(data1, data2))
  {
    var added, modified := ScanNewKeys(data1, data2, order2);
    var removed := ScanOldKeys(data1, data2, order1);
    diff := Diff(added, removed, modified);
  }

  /** The first loop of `_compare_data`, over the keys of the new data. */
  method ScanNewKeys(data1: map<Value, Value>, data2: map<Value, Value>, order2: seq<Value>)
    returns (added: map<Value, Value>, modified: map<Value, Value>)
    requires IsOrderOf(order2, data2)
    ensures added == Added(data1, data2) && modified == Modified(data1, data2)
  {
    added, modified := map[], map[];
    var i := 0;
    while i < |order2|
      invariant i <= |order2|
      invariant forall k :: k in added <==> k in order2[..i] && k !in data1
      invariant forall k :: k in added ==> added[k] == data2[k]
      invariant forall k :: k in modified <==> k in order2[..i] && k in data1 && Truthy(CompareRecursive(data1[k], data2[k]))
      invariant forall k :: k in modified ==> modified[k] == CompareRecursive(data1[k], data2[k])
    {
      var key := order2[i];
      assert order2[..i + 1] == order2[..i] + [key];
      if key !in data1 {
        added := added[key := data2[key]];
      } else {
        var subDiff := CompareRecursive(data1[key], data2[key]);
        if Truthy(subDiff) {
          modified := modified[key := subDiff];
        }
      }
      i := i + 1;
    }
    assert order2[..i] == order2;
  }

  /** The second loop of `_compare_data`, over the keys of the old data. */
  method ScanOldKeys(data1: map<Value, Value>, data2: map<Value, Value>, order1: seq<Value>)
    returns (removed: map<Value, Value>)
    requires IsOrderOf(order1, data1)
    ensures removed == Removed(data1, data2)
  {
    removed := map[];
    var j := 0;
    while j < |order1|
      invariant j <= |order1|
      invariant forall k :: k in removed <==> k in order1[..j] && k !in data2
      invariant forall k :: k in removed ==> removed[k] == data1[k]
    {
      var key := order1[j];
      assert order1[..j + 1] == order1[..j] + [key];
      if key !in data2 {
        removed := removed[key := data1[key]];
      }
      j := j + 1;
    }
    assert order1[..j] == order1;
  }

  /** The diff is empty exactly when the two versions are equal; in
   *  particular, diffing identical data yields three empty maps. */
  lemma NoDiffIffEqual(data1: map<Value, Value>, data2: map<Value, Value>)
    ensures Added(data1, data2) == map[] && Removed(data1, data2) == map[] && Modified(data1, data2) == map[]
            <==> data1 == data2
  {
    var a, r, m := Added(data1, data2), Removed(data1, data2), Modified(data1, data2);
    if a == map[] && r == map[] && m == map[] {
      forall k | k in data1 ensures k in data2 && data1[k] == data2[k] { assert k !in r && k !in m; }
      forall k | k in data2 ensures k in data1 { assert k !in a; }
    }
  }
}
