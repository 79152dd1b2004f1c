/** `KnowledgeGraphOptimizer`: duplicate-node merging and weak-edge pruning
 *  over the dicts a `GraphBuilder` holds. */
module KnowledgeGraphOptimization {
  import opened Wrappers
  import opened PyValue
  import opened KnowledgeGraphBuilder

  /** `a and b and a == b` on two names. */
  predicate SameName(a: Value, b: Value) {
    Truthy(a) && Truthy(b) && a == b
  }

  /** `_are_nodes_similar`: different types are never similar; equal
   *  non-empty names, or else equal non-empty property names, are. Indexing
   *  a missing "type" or "properties" raises KeyError, and `.get` on
   *  properties that are not a dict raises AttributeError. */
  function Similar(a: Fields, b: Fields): Result<bool> {
    var ta :- Index(a, "type");
    var tb :- Index(b, "type");
    if ta != tb then Ok(false)
    else if SameName(Get(a, "name", VStr("")), Get(b, "name", VStr(""))) then Ok(true)
    else
      var pa :- Index(a, "properties");
      var na :- DictGet(pa, VStr("name"), VStr(""));
      var pb :- Index(b, "properties");
      var nb :- DictGet(pb, VStr("name"), VStr(""));
      Ok(SameName(na, nb))
  }

  /** The property name of a node whose properties are a dict. */
  function PropName(f: Fields): Value
    requires VStr("properties") in f && f[VStr("properties")].VDict?
  {
    Get(f[VStr("properties")].entries, "name", VStr(""))
  }

  predicate HasPropDict(f: Fields) {
    VStr("properties") in f && f[VStr("properties")].VDict?
  }

  /** Two nodes are similar exactly when both have the same type and either
   *  their names or their property names are equal and non-empty; they are
   *  not similar (without raising) whenever their types differ; and the
   *  answer does not depend on the order of the two nodes. */
  lemma SimilarMeans(a: Fields, b: Fields)
    ensures Similar(a, b) == Ok(true) <==>
              VStr("type") in a && VStr("type") in b && a[VStr("type")] == b[VStr("type")] &&
              (SameName(Get(a, "name", VStr("")), Get(b, "name", VStr(""))) ||
               (HasPropDict(a) && HasPropDict(b) && SameName(PropName(a), PropName(b))))
    ensures VStr("type") in a && VStr("type") in b && a[VStr("type")] != b[VStr("type")] ==> Similar(a, b) == Ok(false)
    ensures Similar(a, b).Err? ==> Similar(a, b).error in {KeyError, AttributeError}
    ensures Similar(a, b).Ok? && Similar(b, a).Ok? ==> Similar(a, b) == Similar(b, a)
  {
  }

  /** `node["properties"].get("importance", 0)` */
  function Importance(f: Fields): Result<Value> {
    var p :- Index(f, "properties");
    DictGet(p, VStr("importance"), VInt(0))
  }

  /** `max(nodes, key=importance)`: the position of the node `max` returns.
   *  A later node replaces the current one only when its importance is
   *  strictly greater; a missing properties dict or incomparable
   *  importances raise. */
  function Heaviest(fs: seq<Fields>): (r: Result<nat>)
    requires fs != []
    ensures r.Ok? ==> r.value < |fs|
  {
    if |fs| == 1 then
      var _ :- Importance(fs[0]);
      Ok(0)
    else
      var n := |fs| - 1;
      var m :- Heaviest(fs[..n]);
      var best :- Importance(fs[m]);
      var k :- Importance(fs[n]);
      var more :- LessThan(best, k);
      Ok(if more then n else m)
  }

  /** The node `max` picks is never beaten by a later one, and every
   *  importance could be read. */
  lemma {:induction false} HeaviestNeverBeaten(fs: seq<Fields>)
    requires fs != []
    ensures Heaviest(fs).Ok? ==>
              (forall i :: 0 <= i < |fs| ==> Importance(fs[i]).Ok?) &&
              forall j :: Heaviest(fs).value < j < |fs| ==>
                LessThan(Importance(fs[Heaviest(fs).value]).value, Importance(fs[j]).value) == Ok(false)
  {
    if |fs| > 1 && Heaviest(fs).Ok? {
      var n := |fs| - 1;
      var pre := fs[..n];
      assert forall i :: 0 <= i < n ==> pre[i] == fs[i];
      HeaviestNeverBeaten(pre);
      var m := Heaviest(pre).value;
      var more := LessThan(Importance(fs[m]).value, Importance(fs[n]).value).value;
      assert Heaviest(fs).value == if more then n else m;
    }
  }

  /** When every importance is a number, `max` cannot fail and picks the
   *  first node of greatest importance. */
  lemma {:induction false} HeaviestIsFirstMax(fs: seq<Fields>)
    requires fs != []
    requires forall i :: 0 <= i < |fs| ==> Importance(fs[i]).Ok? && IsNumber(Importance(fs[i]).value)
    ensures Heaviest(fs).Ok?
    ensures var m := Heaviest(fs).value;
            forall j :: 0 <= j < |fs| ==>
              NumberOf(Importance(fs[j]).value) <= NumberOf(Importance(fs[m]).value) &&
              (j < m ==> NumberOf(Importance(fs[j]).value) < NumberOf(Importance(fs[m]).value))
  {
    if |fs| > 1 {
      var n := |fs| - 1;
      var pre := fs[..n];
      assert forall i :: 0 <= i < n ==> pre[i] == fs[i];
      HeaviestIsFirstMax(pre);
      var m := Heaviest(pre).value;
      var best := Importance(fs[m]).value;
      var k := Importance(fs[n]).value;
      assert LessThan(best, k) == Ok(NumberOf(best) < NumberOf(k));
      assert Heaviest(fs) == Ok(if NumberOf(best) < NumberOf(k) then n else m);
    }
  }

  /** The properties dict of a node, or none. */
  function PropsOf(f: Fields): map<Value, Value> {
    if HasPropDict(f) then f[VStr("properties")].entries else map[]
  }

  /** The property merge of `merge_duplicate_nodes`: each other node in turn
   *  adds the keys the base does not have yet. */
  function MergeProps<K, V>(base: map<K, V>, others: seq<map<K, V>>): map<K, V> {
    if others == [] then base
    else others[|others| - 1] + MergeProps(base, others[..|others| - 1])
  }

  /** The merge keeps every base property, adds every key of the others, and
   *  a key the base lacks takes the value of the first other node that has
   *  it. */
  lemma {:induction false} MergePropsMeans<K, V>(base: map<K, V>, others: seq<map<K, V>>)
    ensures var r := MergeProps(base, others);
            (forall k :: k in base ==> k in r && r[k] == base[k]) &&
            (forall k :: k in r <==> k in base || exists i :: 0 <= i < |others| && k in others[i]) &&
            (forall k :: k in r && k !in base ==>
               exists i :: 0 <= i < |others| && k in others[i] && r[k] == others[i][k] &&
                 forall j :: 0 <= j < i ==> k !in others[j])
  {
    if others != [] {
      var n := |others| - 1;
      var prev := MergeProps(base, others[..n]);
      MergePropsMeans(base, others[..n]);
      assert forall i :: 0 <= i < n ==> others[..n][i] == others[i];
      var r := MergeProps(base, others);
      forall k | k in r && k !in base
        ensures exists i :: 0 <= i < |others| && k in others[i] && r[k] == others[i][k] &&
                  forall j :: 0 <= j < i ==> k !in others[j]
      {
        if k in prev {
          var i :| 0 <= i < n && k in others[..n][i] && prev[k] == others[..n][i][k] &&
                   forall j :: 0 <= j < i ==> k !in others[..n][j];
          assert r[k] == others[i][k];
        } else {
          assert k in others[n] && r[k] == others[n][k];
        }
      }
    }
  }

  /** The edge update of `merge_duplicate_nodes` as written: an edge whose
   *  source is the merged node gets the base as source; only otherwise is
   *  its target checked. */
  function RedirectAsWritten(e: Fields, x: Value, base: Value): (r: Result<Fields>)
    ensures r.Ok? <==> VStr("source") in e && (e[VStr("source")] != x ==> VStr("target") in e)
    ensures r.Err? ==> r.error == KeyError
    ensures r.Ok? ==> r.value.Keys == e.Keys && (r.value[VStr("source")] == x ==> base == x)
  {
    var s :- Index(e, "source");
    if s == x then Ok(e[VStr("source") := base])
    else
      var t :- Index(e, "target");
      Ok(if t == x then e[VStr("target") := base] else e)
  }

  /** As written, a loop on a merged node keeps its target there. */
  lemma SelfLoopKeepsMergedNode()
    ensures var e := map[VStr("source") := VStr("x"), VStr("target") := VStr("x")];
            RedirectAsWritten(e, VStr("x"), VStr("b")) == Ok(map[VStr("source") := VStr("b"), VStr("target") := VStr("x")]) &&
            RedirectAsWritten(e, VStr("x"), VStr("b")).value[VStr("target")] == VStr("x")
  {
    var e := map[VStr("source") := VStr("x"), VStr("target") := VStr("x")];
    assert e[VStr("source") := VStr("b")] == map[VStr("source") := VStr("b"), VStr("target") := VStr("x")];
  }

  /** The edge update as evidently intended: each endpoint at the merged
   *  node moves to the base. */
  function Redirect(e: Fields, x: Value, base: Value): (r: Result<Fields>)
    ensures r.Ok? <==> VStr("source") in e && VStr("target") in e
    ensures r.Ok? ==> r.value.Keys == e.Keys
    ensures r.Ok? && base != x ==> r.value[VStr("source")] != x && r.value[VStr("target")] != x
  {
    var s :- Index(e, "source");
    var t :- Index(e, "target");
    Ok(e[VStr("source") := if s == x then base else s][VStr("target") := if t == x then base else t])
  }

  /** Every edge updated as intended for a merged node, or the KeyError of
   *  the first edge lacking an endpoint. */
  function RedirectAll(es: seq<Fields>, x: Value, base: Value): (r: Result<seq<Fields>>)
    ensures r.Ok? <==> forall i :: 0 <= i < |es| ==> Redirect(es[i], x, base).Ok?
    ensures r.Ok? ==> |r.value| == |es| && forall i :: 0 <= i < |es| ==> r.value[i] == Redirect(es[i], x, base).value
    ensures r.Err? ==> r.error == KeyError
  {
    if es == [] then Ok([])
    else
      var n := |es| - 1;
      assert forall i :: 0 <= i < n ==> es[..n][i] == es[i];
      var prev :- RedirectAll(es[..n], x, base);
      var e :- Redirect(es[n], x, base);
      Ok(prev + [e])
  }

  /** The edges after the intended updates for each merged node in turn. */
  function RedirectEach(es: seq<Fields>, xs: seq<Value>, base: Value): Result<seq<Fields>> {
    if xs == [] then Ok(es)
    else
      var prev :- RedirectEach(es, xs[..|xs| - 1], base);
      RedirectAll(prev, xs[|xs| - 1], base)
  }

  /** An endpoint after the merge: the base in place of a merged node. */
  function Moved(v: Value, xs: seq<Value>, base: Value): Value {
    if v in xs then base else v
  }

  /** An edge after the merge: each endpoint at a merged node moved to the
   *  base. */
  function MovedEdge(e: Fields, xs: seq<Value>, base: Value): Fields
    requires VStr("source") in e && VStr("target") in e
  {
    e[VStr("source") := Moved(e[VStr("source")], xs, base)][VStr("target") := Moved(e[VStr("target")], xs, base)]
  }

  lemma MoveOneMore(e: Fields, xs: seq<Value>, x: Value, base: Value)
    requires VStr("source") in e && VStr("target") in e && base !in xs + [x]
    ensures Redirect(MovedEdge(e, xs, base), x, base) == Ok(MovedEdge(e, xs + [x], base))
  {
    var m := MovedEdge(e, xs, base);
    assert forall v :: v in xs + [x] <==> v in xs || v == x;
    var s := e[VStr("source")];
    var t := e[VStr("target")];
    assert m[VStr("source")] == Moved(s, xs, base) && m[VStr("target")] == Moved(t, xs, base);
    var m' := m[VStr("source") := if m[VStr("source")] == x then base else m[VStr("source")]]
               [VStr("target") := if m[VStr("target")] == x then base else m[VStr("target")]];
    assert m' == MovedEdge(e, xs + [x], base);
  }

  /** The intended updates keep each edge's keys. */
  lemma {:induction false} RedirectEachKeys(es: seq<Fields>, xs: seq<Value>, base: Value)
    ensures var r := RedirectEach(es, xs, base);
            r.Ok? ==> |r.value| == |es| && forall i :: 0 <= i < |es| ==> r.value[i].Keys == es[i].Keys
  {
    if xs != [] {
      RedirectEachKeys(es, xs[..|xs| - 1], base);
    }
  }

  /** One more merged node moves its endpoints on top of the earlier ones. */
  lemma RedirectEachStep(es: seq<Fields>, xs: seq<Value>, x: Value, base: Value)
    requires base !in xs + [x] && HasEnds(es)
    requires RedirectEach(es, xs, base) == Ok(MovedAll(es, xs, base))
    ensures RedirectEach(es, xs + [x], base) == Ok(MovedAll(es, xs + [x], base))
  {
    assert (xs + [x])[..|xs|] == xs;
    var prev := MovedAll(es, xs, base);
    forall i | 0 <= i < |es|
      ensures Redirect(prev[i], x, base) == Ok(MovedAll(es, xs + [x], base)[i])
    {
      MoveOneMore(es[i], xs, x, base);
    }
    var r := RedirectAll(prev, x, base);
    assert r.Ok?;
    assert r.value == MovedAll(es, xs + [x], base);
  }

  /** On edges with both endpoints, the intended updates move every
   *  endpoint at a merged node to the base. */
  lemma {:induction false} RedirectEachMovedAll(es: seq<Fields>, xs: seq<Value>, base: Value)
    requires base !in xs && HasEnds(es)
    ensures RedirectEach(es, xs, base) == Ok(MovedAll(es, xs, base))
  {
    if xs == [] {
      forall i | 0 <= i < |es| ensures MovedAll(es, xs, base)[i] == es[i] {
        assert es[i][VStr("source") := es[i][VStr("source")]][VStr("target") := es[i][VStr("target")]] == es[i];
      }
      assert MovedAll(es, xs, base) == es;
    } else {
      var n := |xs| - 1;
      assert xs == xs[..n] + [xs[n]];
      assert forall v :: v in xs[..n] ==> v in xs;
      RedirectEachMovedAll(es, xs[..n], base);
      RedirectEachStep(es, xs[..n], xs[n], base);
    }
  }

  /** After the edge updates for merged nodes other than the base, each
   *  endpoint that was at a merged node is at the base and every other
   *  endpoint and field is as it was, so no edge touches a merged node; the
   *  updates fail only on an edge lacking an endpoint. */
  lemma {:induction false} RedirectEachMoves(es: seq<Fields>, xs: seq<Value>, base: Value)
    requires base !in xs && xs != []
    ensures var r := RedirectEach(es, xs, base);
            r.Ok? ==> (|r.value| == |es| &&
              forall i :: 0 <= i < |es| ==>
                VStr("source") in es[i] && VStr("target") in es[i] && r.value[i] == MovedEdge(es[i], xs, base) &&
                r.value[i][VStr("source")] !in xs && r.value[i][VStr("target")] !in xs)
    ensures RedirectEach(es, xs, base).Ok? <==> forall i :: 0 <= i < |es| ==> VStr("source") in es[i] && VStr("target") in es[i]
  {
    if HasEnds(es) {
      RedirectEachMovedAll(es, xs, base);
    } else {
      var i :| 0 <= i < |es| && !(VStr("source") in es[i] && VStr("target") in es[i]);
      var n := |xs| - 1;
      var prev := RedirectEach(es, xs[..n], base);
      RedirectEachKeys(es, xs[..n], base);
      if prev.Ok? {
        assert Redirect(prev.value[i], xs[n], base).Err?;
      }
    }
  }

  /** An edge whose source is not the merged node lacks no target: what
   *  the as-written scan for `x` reads without raising. */
  predicate ScanReadable(es: seq<Fields>, x: Value) {
    forall i :: 0 <= i < |es| ==> VStr("source") in es[i] && (es[i][VStr("source")] != x ==> VStr("target") in es[i])
  }

  /** Every edge updated as written for one merged node, or the KeyError
   *  the scan raises (the scan runs before any edge changes). */
  function RedirectAllAsWritten(es: seq<Fields>, x: Value, base: Value): (r: Result<seq<Fields>>)
    ensures r.Ok? <==> ScanReadable(es, x)
    ensures r.Ok? ==> |r.value| == |es| && forall i :: 0 <= i < |es| ==> RedirectAsWritten(es[i], x, base) == Ok(r.value[i])
    ensures r.Err? ==> r.error == KeyError
  {
    if es == [] then Ok([])
    else
      var n := |es| - 1;
      assert forall i :: 0 <= i < n ==> es[..n][i] == es[i];
      var prev :- RedirectAllAsWritten(es[..n], x, base);
      var e :- RedirectAsWritten(es[n], x, base);
      Ok(prev + [e])
  }

  /** The edges after the as-written updates for each merged node in turn. */
  function RedirectEachAsWritten(es: seq<Fields>, xs: seq<Value>, base: Value): Result<seq<Fields>> {
    if xs == [] then Ok(es)
    else
      var prev :- RedirectEachAsWritten(es, xs[..|xs| - 1], base);
      RedirectAllAsWritten(prev, xs[|xs| - 1], base)
  }

  /** As written, an edge with the merged node as source and no target at
   *  all is moved instead of raising. */
  lemma MissingTargetMoved()
    ensures var e := map[VStr("source") := VStr("x")];
            RedirectAsWritten(e, VStr("x"), VStr("b")) == Ok(map[VStr("source") := VStr("b")]) &&
            Redirect(e, VStr("x"), VStr("b")) == Err(KeyError)
  {
    var e := map[VStr("source") := VStr("x")];
    assert e[VStr("source") := VStr("b")] == map[VStr("source") := VStr("b")];
  }

  /** No edge is a loop on one of `xs`. */
  predicate NoLoopOn(es: seq<Fields>, xs: seq<Value>) {
    forall i :: 0 <= i < |es| && VStr("source") in es[i] && VStr("target") in es[i] && es[i][VStr("source")] in xs ==>
      es[i][VStr("target")] != es[i][VStr("source")]
  }

  /** Off a loop on the merged node, the as-written update of an edge with
   *  both endpoints is the intended one. */
  lemma AsWrittenOffLoops(e: Fields, x: Value, base: Value)
    requires VStr("source") in e && VStr("target") in e
    requires !(e[VStr("source")] == x && e[VStr("target")] == x)
    ensures RedirectAsWritten(e, x, base) == Redirect(e, x, base)
  {
    var s := e[VStr("source")];
    var t := e[VStr("target")];
    if s == x {
      assert e[VStr("source") := base][VStr("target") := t] == e[VStr("source") := base];
    } else {
      assert e[VStr("source") := s] == e;
      if t != x {
        assert e[VStr("target") := t] == e;
      }
    }
  }

  lemma MoveOneMoreAsWritten(e: Fields, xs: seq<Value>, x: Value, base: Value)
    requires VStr("source") in e && VStr("target") in e && base !in xs + [x]
    requires !(e[VStr("source")] == e[VStr("target")] && e[VStr("source")] in xs + [x])
    ensures RedirectAsWritten(MovedEdge(e, xs, base), x, base) == Ok(MovedEdge(e, xs + [x], base))
  {
    var m := MovedEdge(e, xs, base);
    assert base in xs + [x] <==> base in xs || base == x;
    assert e[VStr("source")] in xs + [x] <==> e[VStr("source")] in xs || e[VStr("source")] == x;
    MoveOneMore(e, xs, x, base);
    AsWrittenOffLoops(m, x, base);
  }

  /** Every edge with both endpoints moved off the merged nodes. */
  function MovedAll(es: seq<Fields>, xs: seq<Value>, base: Value): (r: seq<Fields>)
    requires HasEnds(es)
    ensures |r| == |es| && forall i :: 0 <= i < |es| ==> r[i] == MovedEdge(es[i], xs, base)
  {
    seq(|es|, i requires 0 <= i < |es| => MovedEdge(es[i], xs, base))
  }

  /** When every edge has both endpoints and none is a loop on a merged
   *  node, the as-written updates move every endpoint at a merged node to
   *  the base. */
  lemma {:induction false} RedirectEachAsWrittenMoves(es: seq<Fields>, xs: seq<Value>, base: Value)
    requires base !in xs && HasEnds(es) && NoLoopOn(es, xs)
    ensures RedirectEachAsWritten(es, xs, base) == Ok(MovedAll(es, xs, base))
  {
    if xs == [] {
      forall i | 0 <= i < |es| ensures MovedAll(es, xs, base)[i] == es[i] {
        assert es[i][VStr("source") := es[i][VStr("source")]][VStr("target") := es[i][VStr("target")]] == es[i];
      }
      assert MovedAll(es, xs, base) == es;
    } else {
      var n := |xs| - 1;
      var x := xs[n];
      assert xs == xs[..n] + [x];
      assert forall v :: v in xs[..n] ==> v in xs;
      RedirectEachAsWrittenMoves(es, xs[..n], base);
      var prev := MovedAll(es, xs[..n], base);
      forall i | 0 <= i < |es|
        ensures RedirectAsWritten(prev[i], x, base) == Ok(MovedAll(es, xs, base)[i])
      {
        MoveOneMoreAsWritten(es[i], xs[..n], x, base);
      }
      var r := RedirectAllAsWritten(prev, x, base);
      assert r.Ok?;
      assert r.value == MovedAll(es, xs, base);
    }
  }

  /** Under the same conditions the as-written and the intended updates
   *  agree. */
  lemma AsWrittenAgrees(es: seq<Fields>, xs: seq<Value>, base: Value)
    requires base !in xs && xs != [] && HasEnds(es) && NoLoopOn(es, xs)
    ensures RedirectEachAsWritten(es, xs, base) == RedirectEach(es, xs, base)
  {
    RedirectEachAsWrittenMoves(es, xs, base);
    RedirectEachMoves(es, xs, base);
    var R := RedirectEach(es, xs, base);
    assert R.value == MovedAll(es, xs, base);
  }

  /** `edge["properties"].get("weight", 0) < threshold` */
  function IsWeak(f: Fields, threshold: Value): Result<bool> {
    var p :- Index(f, "properties");
    var w :- DictGet(p, VStr("weight"), VInt(0));
    LessThan(w, threshold)
  }

  /** The test `prune_weak_connections` applies to each edge. */
  function WeakTest(threshold: Value): Fields -> Result<bool> {
    f => IsWeak(f, threshold)
  }

  /** A list comprehension whose step may raise: the result for each
   *  element in order, or the error of the first element that raises. For
   *  `prune_weak_connections` it gives the weak flag of each edge. */
  function MapAll<F, B>(fs: seq<F>, test: F -> Result<B>): (r: Result<seq<B>>)
    ensures r.Ok? ==> |r.value| == |fs|
  {
    if fs == [] then Ok([])
    else
      var n := |fs| - 1;
      var prev :- MapAll(fs[..n], test);
      var w :- test(fs[n]);
      Ok(prev + [w])
  }

  /** The results exist exactly when no step raises, and then they hold
   *  each element's result; otherwise the error is one a step raises. */
  lemma {:induction false} MapAllMeans<F, B>(fs: seq<F>, test: F -> Result<B>)
    ensures MapAll(fs, test).Ok? <==> forall i :: 0 <= i < |fs| ==> test(fs[i]).Ok?
    ensures MapAll(fs, test).Ok? ==> forall i :: 0 <= i < |fs| ==> test(fs[i]) == Ok(MapAll(fs, test).value[i])
    ensures MapAll(fs, test).Err? ==>
              exists i :: 0 <= i < |fs| && test(fs[i]).Err? && MapAll(fs, test) == Err(test(fs[i]).error)
  {
    if fs != [] {
      var n := |fs| - 1;
      MapAllMeans(fs[..n], test);
      assert forall i :: 0 <= i < n ==> fs[..n][i] == fs[i];
      if MapAll(fs[..n], test).Err? {
        var i :| 0 <= i < n && test(fs[..n][i]).Err? && MapAll(fs[..n], test) == Err(test(fs[..n][i]).error);
        assert fs[..n][i] == fs[i];
      }
    }
  }

  /** The elements whose flag is `flag`, in order. */
  function Select<T>(xs: seq<T>, mask: seq<bool>, flag: bool): seq<T>
    requires |xs| == |mask|
  {
    if xs == [] then []
    else (if mask[0] == flag then [xs[0]] else []) + Select(xs[1..], mask[1..], flag)
  }

  lemma {:induction false} SelectSnoc<T>(xs: seq<T>, mask: seq<bool>, flag: bool, x: T, b: bool)
    requires |xs| == |mask|
    ensures Select(xs + [x], mask + [b], flag) == Select(xs, mask, flag) + (if b == flag then [x] else [])
  {
    if xs == [] {
      assert (xs + [x])[1..] == [] && (mask + [b])[1..] == [];
    } else {
      assert (xs + [x])[0] == xs[0] && (mask + [b])[0] == mask[0];
      assert (xs + [x])[1..] == xs[1..] + [x] && (mask + [b])[1..] == mask[1..] + [b];
      SelectSnoc(xs[1..], mask[1..], flag, x, b);
    }
  }

  /** A list entry with the fields it holds. */
  type Tagged<R, F> = seq<(R, F)>

  /** `list.remove(f)`: drops the first entry equal to `f`. */
  function RemoveFirst<R, F(==)>(xs: Tagged<R, F>, f: F): Tagged<R, F> {
    if xs == [] then []
    else if xs[0].1 == f then xs[1..]
    else [xs[0]] + RemoveFirst(xs[1..], f)
  }

  ghost predicate Weak<F>(f: F, test: F -> Result<bool>) {
    test(f) == Ok(true)
  }

  /** The entries that are not weak, in order. */
  ghost function Strong<R, F>(xs: Tagged<R, F>, test: F -> Result<bool>): Tagged<R, F> {
    if xs == [] then []
    else (if Weak(xs[0].1, test) then [] else [xs[0]]) + Strong(xs[1..], test)
  }

  /** The fields of the weak entries. */
  ghost function WeakFields<R, F>(xs: Tagged<R, F>, test: F -> Result<bool>): multiset<F> {
    if xs == [] then multiset{}
    else (if Weak(xs[0].1, test) then multiset{xs[0].1} else multiset{}) + WeakFields(xs[1..], test)
  }

  /** Removing the fields of a weak entry drops one weak entry and keeps
   *  every other entry. */
  lemma {:induction false} RemoveWeak<R, F>(xs: Tagged<R, F>, f: F, test: F -> Result<bool>)
    requires Weak(f, test) && f in WeakFields(xs, test)
    ensures Strong(RemoveFirst(xs, f), test) == Strong(xs, test)
    ensures WeakFields(RemoveFirst(xs, f), test) == WeakFields(xs, test) - multiset{f}
  {
    if xs[0].1 != f {
      RemoveWeak(xs[1..], f, test);
      assert RemoveFirst(xs, f)[1..] == RemoveFirst(xs[1..], f);
    }
  }

  /** With no weak entry left, every entry is kept. */
  lemma {:induction false} NoWeakLeft<R, F>(xs: Tagged<R, F>, test: F -> Result<bool>)
    requires WeakFields(xs, test) == multiset{}
    ensures Strong(xs, test) == xs
  {
    if xs != [] {
      NoWeakLeft(xs[1..], test);
      assert xs == [xs[0]] + xs[1..];
    }
  }

  function Entries<R, F>(xs: Tagged<R, F>): (r: seq<R>)
    ensures |r| == |xs| && forall i :: 0 <= i < |xs| ==> r[i] == xs[i].0
  {
    if xs == [] then [] else [xs[0].0] + Entries(xs[1..])
  }

  function Tags<R, F(==)>(xs: Tagged<R, F>): (r: seq<F>)
    ensures |r| == |xs| && forall i :: 0 <= i < |xs| ==> r[i] == xs[i].1
  {
    if xs == [] then [] else [xs[0].1] + Tags(xs[1..])
  }

  /** Entries and flags read off the same edges agree. */
  lemma {:induction false} SelectTagged<R, F>(xs: Tagged<R, F>, mask: seq<bool>, test: F -> Result<bool>)
    requires |mask| == |xs| && forall i :: 0 <= i < |xs| ==> test(xs[i].1) == Ok(mask[i])
    ensures Entries(Strong(xs, test)) == Select(Entries(xs), mask, false)
    ensures WeakFields(xs, test) == multiset(Select(Tags(xs), mask, true))
  {
    if xs != [] {
      SelectTagged(xs[1..], mask[1..], test);
      assert Entries(xs)[1..] == Entries(xs[1..]);
      assert Tags(xs)[1..] == Tags(xs[1..]);
      var head := if Weak(xs[0].1, test) then [] else [xs[0]];
      assert Entries(head + Strong(xs[1..], test)) == Entries(head) + Entries(Strong(xs[1..], test)) by {
        EntriesAppend(head, Strong(xs[1..], test));
      }
    }
  }

  lemma EntriesAppend<R, F>(a: Tagged<R, F>, b: Tagged<R, F>)
    ensures Entries(a + b) == Entries(a) + Entries(b)
  {
  }

  lemma {:induction false} RemoveFirstAt<R, F>(xs: Tagged<R, F>, f: F, j: nat)
    requires j < |xs| && xs[j].1 == f && forall i :: 0 <= i < j ==> xs[i].1 != f
    ensures RemoveFirst(xs, f) == xs[..j] + xs[j + 1..]
  {
    if j > 0 {
      RemoveFirstAt(xs[1..], f, j - 1);
      assert xs[1..][..j - 1] == xs[1..j] && xs[1..][j..] == xs[j + 1..];
      assert xs[..j] == [xs[0]] + xs[1..j];
    }
  }

  lemma {:induction false} RemoveFirstKeeps<R, F>(xs: Tagged<R, F>, f: F)
    ensures forall p :: p in RemoveFirst(xs, f) ==> p in xs
  {
    if xs != [] && xs[0].1 != f {
      RemoveFirstKeeps(xs[1..], f);
    }
  }

  /** Each record with the fields it holds now. */
  function Tag(rs: seq<Record>): (ts: Tagged<Record, Fields>)
    reads rs
    ensures |ts| == |rs| && forall i :: 0 <= i < |rs| ==> ts[i] == (rs[i], rs[i].fields)
  {
    if rs == [] then [] else [(rs[0], rs[0].fields)] + Tag(rs[1..])
  }

  /** `list.remove(edge)`: the first entry whose dict equals the given one
   *  leaves the list. */
  method RemoveEqual<R, F(==)>(ts: Tagged<R, F>, f: F) returns (ts': Tagged<R, F>)
    requires exists p :: p in ts && p.1 == f
    ensures ts' == RemoveFirst(ts, f)
  {
    ghost var w :| 0 <= w < |ts| && ts[w].1 == f;
    var j := 0;
    while ts[j].1 != f
      invariant 0 <= j <= w
      invariant forall i :: 0 <= i < j ==> ts[i].1 != f
      decreases w - j
    {
      j := j + 1;
    }
    RemoveFirstAt(ts, f, j);
    ts' := ts[..j] + ts[j + 1..];
  }

  lemma MapAllSnoc<F, B>(fs: seq<F>, i: nat, test: F -> Result<B>)
    requires i < |fs| && MapAll(fs[..i], test).Ok?
    ensures test(fs[i]).Err? ==> MapAll(fs[..i + 1], test) == Err(test(fs[i]).error)
    ensures test(fs[i]).Ok? ==>
              MapAll(fs[..i + 1], test) == Ok(MapAll(fs[..i], test).value + [test(fs[i]).value])
  {
    assert fs[..i + 1][..i] == fs[..i];
  }

  lemma {:induction false} MapAllStops<F, B>(fs: seq<F>, i: nat, test: F -> Result<B>)
    requires i <= |fs| && MapAll(fs[..i], test).Err?
    ensures MapAll(fs, test) == MapAll(fs[..i], test)
    decreases |fs| - i
  {
    if i < |fs| {
      assert fs[..i + 1][..i] == fs[..i];
      MapAllStops(fs, i + 1, test);
    } else {
      assert fs[..i] == fs;
    }
  }

  /** `builder.get_node(id)` on the node dicts: TypeError for an unhashable
   *  ID, ValueError for an unknown one. */
  function LookupIn(view: map<Value, Fields>): Value -> Result<Fields> {
    id => if !Hashable(id) then Err(TypeError) else if id !in view then Err(ValueError) else Ok(view[id])
  }

  /** Every node dict is stored under its own "id", as `add_node` does. */
  predicate KeyedById(view: map<Value, Fields>) {
    forall k :: k in view ==> VStr("id") in view[k] && view[k][VStr("id")] == k
  }

  /** What `merge_duplicate_nodes` returns, or raises before it changes
   *  anything: "" for no IDs; otherwise the nodes are looked up in order,
   *  `max` picks one by importance, and its "id" is the base. */
  function BaseOf(view: map<Value, Fields>, ids: seq<Value>): Result<Value> {
    if ids == [] then Ok(VStr(""))
    else
      var fs :- MapAll(ids, LookupIn(view));
      var m :- Heaviest(fs);
      Index(fs[m], "id")
  }

  /** The base is one of the given nodes, and when every given node is
   *  known and has a numeric importance it is the first node of greatest
   *  importance. What is raised comes from the lookups or from reading and
   *  comparing importances. */
  lemma BaseOfMeans(view: map<Value, Fields>, ids: seq<Value>)
    requires ids != [] && KeyedById(view)
    ensures BaseOf(view, ids).Ok? ==> BaseOf(view, ids).value in ids && BaseOf(view, ids).value in view
    ensures (forall i :: 0 <= i < |ids| ==>
               Hashable(ids[i]) && ids[i] in view && Importance(view[ids[i]]).Ok? && IsNumber(Importance(view[ids[i]]).value)) ==>
              BaseOf(view, ids).Ok? &&
              exists m :: 0 <= m < |ids| && BaseOf(view, ids).value == ids[m] &&
                forall j :: 0 <= j < |ids| ==>
                  NumberOf(Importance(view[ids[j]]).value) <= NumberOf(Importance(view[ids[m]]).value) &&
                  (j < m ==> NumberOf(Importance(view[ids[j]]).value) < NumberOf(Importance(view[ids[m]]).value))
  {
    var L := MapAll(ids, LookupIn(view));
    MapAllMeans(ids, LookupIn(view));
    if L.Ok? {
      var fs := L.value;
      assert forall i :: 0 <= i < |ids| ==> ids[i] in view && fs[i] == view[ids[i]];
      if forall i :: 0 <= i < |ids| ==> Importance(view[ids[i]]).Ok? && IsNumber(Importance(view[ids[i]]).value) {
        HeaviestIsFirstMax(fs);
      }
      if Heaviest(fs).Ok? {
        var m := Heaviest(fs).value;
        assert BaseOf(view, ids) == Ok(ids[m]);
      }
    }
  }

  /** What `merge_duplicate_nodes` raises before any change: TypeError or
   *  ValueError from a lookup, KeyError, AttributeError or TypeError from
   *  reading and comparing importances, KeyError for a base without "id".
   *  When a base is found, every given node was known and had a
   *  properties dict. */
  lemma BaseOfErrors(view: map<Value, Fields>, ids: seq<Value>)
    ensures BaseOf(view, ids).Err? ==> BaseOf(view, ids).error in {TypeError, ValueError, KeyError, AttributeError}
    ensures BaseOf(view, ids).Ok? ==> forall i :: 0 <= i < |ids| ==> ids[i] in view && HasPropDict(view[ids[i]])
  {
    if ids != [] {
      var L := MapAll(ids, LookupIn(view));
      MapAllMeans(ids, LookupIn(view));
      if L.Ok? {
        HeaviestErrors(L.value);
      }
    }
  }

  /** What picking the heaviest node raises: KeyError without properties,
   *  AttributeError when they are not a dict, TypeError for importances
   *  that do not compare. */
  lemma {:induction false} HeaviestErrors(fs: seq<Fields>)
    requires fs != []
    ensures Heaviest(fs).Err? ==> Heaviest(fs).error in {TypeError, KeyError, AttributeError}
    ensures Heaviest(fs).Ok? ==> forall i :: 0 <= i < |fs| ==> HasPropDict(fs[i])
  {
    if |fs| > 1 {
      var n := |fs| - 1;
      assert forall i :: 0 <= i < n ==> fs[..n][i] == fs[i];
      HeaviestErrors(fs[..n]);
      var prev := Heaviest(fs[..n]);
      if prev.Ok? && Importance(fs[prev.value]).Ok? && Importance(fs[n]).Ok? {
        LessThanRaisesTypeError(Importance(fs[prev.value]).value, Importance(fs[n]).value);
      }
    }
  }

  /** The merged IDs: the given ones other than the base, in order. */
  function Others(ids: seq<Value>, base: Value): (r: seq<Value>)
    ensures forall x :: x in r <==> x in ids && x != base
  {
    if ids == [] then []
    else
      var n := |ids| - 1;
      assert forall x :: x in ids <==> x in ids[..n] || x == ids[n] by {
        assert ids == ids[..n] + [ids[n]];
      }
      Others(ids[..n], base) + (if ids[n] == base then [] else [ids[n]])
  }

  /** The properties of each listed node, in order. */
  function PropsList(view: map<Value, Fields>, xs: seq<Value>): (r: seq<map<Value, Value>>)
    ensures |r| == |xs| && forall i :: 0 <= i < |xs| && xs[i] in view ==> r[i] == PropsOf(view[xs[i]])
  {
    seq(|xs|, i requires 0 <= i < |xs| => if xs[i] in view then PropsOf(view[xs[i]]) else map[])
  }

  /** No edge dict is also a node dict. */
  predicate EdgesApart(b: GraphBuilder)
    reads b
  {
    forall k :: k in b.nodes ==> b.nodes[k] !in b.edgeList
  }

  /** Every edge has both endpoints. */
  predicate HasEnds(es: seq<Fields>) {
    forall i :: 0 <= i < |es| ==> VStr("source") in es[i] && VStr("target") in es[i]
  }

  /** The inner loop of the property merge: each key of the other node's
   *  properties that the base lacks is added. */
  method AddMissing(acc: map<Value, Value>, other: map<Value, Value>) returns (r: map<Value, Value>)
    ensures r == other + acc
  {
    r := acc;
    var pending := other.Keys;
    while pending != {}
      invariant pending <= other.Keys
      invariant r == Restrict(other, other.Keys - pending) + acc
      decreases pending
    {
      var k :| k in pending;
      if k !in r {
        r := r[k := other[k]];
      }
      pending := pending - {k};
    }
    assert Restrict(other, other.Keys - pending) == other;
  }

  lemma PropsListSnoc(view: map<Value, Fields>, xs: seq<Value>, x: Value)
    requires x in view
    ensures PropsList(view, xs + [x]) == PropsList(view, xs) + [PropsOf(view[x])]
  {
  }

  lemma OthersSnoc(ids: seq<Value>, i: nat, base: Value)
    requires i < |ids|
    ensures Others(ids[..i + 1], base) == Others(ids[..i], base) + (if ids[i] == base then [] else [ids[i]])
  {
    assert ids[..i + 1][..i] == ids[..i];
  }

  /** The first other node among a prefix of the IDs is the first among
   *  them all. */
  lemma {:induction false} OthersHead(ids: seq<Value>, i: nat, base: Value)
    requires i <= |ids|
    ensures Others(ids[..i], base) != [] ==> Others(ids, base) != [] && Others(ids, base)[0] == Others(ids[..i], base)[0]
    decreases |ids| - i
  {
    if i < |ids| {
      OthersSnoc(ids, i, base);
      OthersHead(ids, i + 1, base);
    } else {
      assert ids[..i] == ids;
    }
  }

  /** The property loop of `merge_duplicate_nodes`: the base node takes
   *  each merged node's properties that it lacks. */
  method MergeInto(b: GraphBuilder, base: Record, ids: seq<Value>, baseId: Value)
    requires baseId in b.nodes && b.nodes[baseId] == base && HasPropDict(base.fields)
    requires forall i :: 0 <= i < |ids| ==> ids[i] in b.nodes && HasPropDict(b.nodes[ids[i]].fields)
    requires forall k :: k in b.nodes && k != baseId ==> b.nodes[k] != base
    modifies base
    ensures base.fields ==
              old(base.fields)[VStr("properties") :=
                VDict(MergeProps(PropsOf(old(base.fields)), PropsList(old(b.NodeView()), Others(ids, baseId))))]
  {
    ghost var view := b.NodeView();
    ghost var props0 := PropsOf(base.fields);
    ghost var fields0 := base.fields;
    assert fields0 == fields0[VStr("properties") := VDict(MergeProps(props0, PropsList(view, Others(ids[..0], baseId))))];
    for i := 0 to |ids|
      invariant base.fields == fields0[VStr("properties") := VDict(MergeProps(props0, PropsList(view, Others(ids[..i], baseId))))]
      invariant forall k :: k in b.nodes && k != baseId ==> b.nodes[k].fields == view[k]
    {
      OthersSnoc(ids, i, baseId);
      if ids[i] == baseId {
        assert Others(ids[..i + 1], baseId) == Others(ids[..i], baseId);
        continue;
      }
      ghost var prevOthers := PropsList(view, Others(ids[..i], baseId));
      var node := b.nodes[ids[i]];
      assert node.fields == view[ids[i]];
      var merged := AddMissing(base.fields[VStr("properties")].entries, node.fields[VStr("properties")].entries);
      assert merged == PropsOf(view[ids[i]]) + MergeProps(props0, prevOthers);
      PropsListSnoc(view, Others(ids[..i], baseId), ids[i]);
      ghost var others := PropsList(view, Others(ids[..i + 1], baseId));
      assert others == prevOthers + [PropsOf(view[ids[i]])];
      assert others[..|others| - 1] == prevOthers;
      assert MergeProps(props0, others) == merged;
      base.fields := base.fields[VStr("properties") := VDict(merged)];
      assert base.fields == fields0[VStr("properties") := VDict(MergeProps(props0, others))];
    }
    assert ids[..|ids|] == ids;
  }

  /** The intended edge updates for one merged node succeed exactly when
   *  every edge has both endpoints. */
  lemma RedirectAllEnds(es: seq<Fields>, x: Value, base: Value)
    ensures RedirectAll(es, x, base).Ok? <==> HasEnds(es)
  {
    if !HasEnds(es) {
      var i :| 0 <= i < |es| && !(VStr("source") in es[i] && VStr("target") in es[i]);
      assert Redirect(es[i], x, base).Err?;
    }
  }

  /** The endpoint the scan notes for an edge and a merged node: the
   *  source when it is the merged node, otherwise the target when that is,
   *  otherwise none. */
  function Direction(f: Fields, x: Value): (d: Option<Value>)
    requires VStr("source") in f && (f[VStr("source")] != x ==> VStr("target") in f)
    ensures d.Some? ==> d.value in f && f[d.value] == x
    ensures d == None <==> f[VStr("source")] != x && f[VStr("target")] != x
  {
    if f[VStr("source")] == x then Some(VStr("source"))
    else if f[VStr("target")] == x then Some(VStr("target"))
    else None
  }

  /** An edge with its noted endpoint set to the base. */
  function Rewritten(f: Fields, x: Value, base: Value): Fields
    requires VStr("source") in f && (f[VStr("source")] != x ==> VStr("target") in f)
  {
    var d := Direction(f, x);
    if d.Some? then f[d.value := base] else f
  }

  /** Writing the noted endpoint is the update as written, and writing it a
   *  second time changes nothing. */
  lemma RewrittenAsWritten(f: Fields, x: Value, base: Value)
    requires VStr("source") in f && (f[VStr("source")] != x ==> VStr("target") in f)
    ensures RedirectAsWritten(f, x, base) == Ok(Rewritten(f, x, base))
    ensures var d := Direction(f, x); d.Some? ==> Rewritten(f, x, base)[d.value := base] == Rewritten(f, x, base)
  {
  }

  /** The scan for one merged node: the source of every edge is read, and
   *  its target only when the source is not the merged node; the endpoint
   *  to update is noted for each edge before any is written. */
  method CheckEnds(es: seq<Record>, x: Value) returns (ok: bool, dirs: seq<Option<Value>>)
    ensures ok <==> ScanReadable(FieldsOf(es), x)
    ensures ok ==> |dirs| == |es| && forall j :: 0 <= j < |es| ==> dirs[j] == Direction(es[j].fields, x)
  {
    dirs := [];
    for i := 0 to |es|
      invariant |dirs| == i
      invariant forall j :: 0 <= j < i ==>
                  VStr("source") in es[j].fields && (es[j].fields[VStr("source")] != x ==> VStr("target") in es[j].fields) &&
                  dirs[j] == Direction(es[j].fields, x)
    {
      var f := es[i].fields;
      if VStr("source") !in f {
        return false, dirs;
      }
      if f[VStr("source")] == x {
        dirs := dirs + [Some(VStr("source"))];
      } else if VStr("target") !in f {
        return false, dirs;
      } else if f[VStr("target")] == x {
        dirs := dirs + [Some(VStr("target"))];
      } else {
        dirs := dirs + [None];
      }
    }
    return true, dirs;
  }

  /** The update for one merged node as written: each noted endpoint is set
   *  to the base. An edge dict listed twice is noted twice with the same
   *  endpoint, and its second write changes nothing. */
  method ApplyRedirect(es: seq<Record>, dirs: seq<Option<Value>>, x: Value, base: Value)
    requires ScanReadable(FieldsOf(es), x)
    requires |dirs| == |es| && forall j :: 0 <= j < |es| ==> dirs[j] == Direction(es[j].fields, x)
    modifies es
    ensures forall j :: 0 <= j < |es| ==> RedirectAsWritten(old(es[j].fields), x, base) == Ok(es[j].fields)
  {
    ghost var fs0 := FieldsOf(es);
    assert forall j, k :: 0 <= j < |es| && 0 <= k < |es| && es[j] == es[k] ==> fs0[j] == fs0[k];
    assert forall j :: 0 <= j < |es| ==> dirs[j] == Direction(fs0[j], x);
    for i := 0 to |es|
      invariant forall j :: 0 <= j < |es| ==>
                  es[j].fields == if es[j] in es[..i] then Rewritten(fs0[j], x, base) else fs0[j]
    {
      var e := es[i];
      RewrittenAsWritten(fs0[i], x, base);
      if dirs[i].Some? {
        e.fields := e.fields[dirs[i].value := base];
      }
      assert e.fields == Rewritten(fs0[i], x, base);
      assert forall j :: 0 <= j < |es| ==> (es[j] in es[..i + 1] <==> es[j] in es[..i] || es[j] == e);
    }
    forall j | 0 <= j < |es|
      ensures RedirectAsWritten(fs0[j], x, base) == Ok(es[j].fields)
    {
      RewrittenAsWritten(fs0[j], x, base);
      assert es[j] in es[..|es|];
    }
  }

  /** Edges updated one by one make up the updated edge list. */
  lemma RedirectAllPointwise(fs0: seq<Fields>, fs: seq<Fields>, x: Value, base: Value)
    requires |fs| == |fs0| && forall j :: 0 <= j < |fs0| ==> RedirectAsWritten(fs0[j], x, base) == Ok(fs[j])
    ensures RedirectAllAsWritten(fs0, x, base) == Ok(fs)
  {
    var r := RedirectAllAsWritten(fs0, x, base);
    assert r.Ok?;
    assert r.value == fs;
  }

  /** The scan and update of the edges for one merged node: an edge the
   *  scan cannot read raises KeyError before anything changes. */
  method RedirectEdges(es: seq<Record>, x: Value, base: Value) returns (o: Outcome)
    modifies es
    ensures var R := RedirectAllAsWritten(old(FieldsOf(es)), x, base);
            (R.Err? ==> o == Fail(KeyError) && FieldsOf(es) == old(FieldsOf(es))) &&
            (R.Ok? ==> o == Pass && FieldsOf(es) == R.value)
  {
    var ok, dirs := CheckEnds(es, x);
    if !ok {
      return Fail(KeyError);
    }
    ApplyRedirect(es, dirs, x, base);
    RedirectAllPointwise(old(FieldsOf(es)), FieldsOf(es), x, base);
    return Pass;
  }

  lemma RedirectEachSnoc(es: seq<Fields>, xs: seq<Value>, x: Value, base: Value)
    ensures RedirectEachAsWritten(es, xs + [x], base) ==
              (var prev :- RedirectEachAsWritten(es, xs, base); RedirectAllAsWritten(prev, x, base))
  {
    assert (xs + [x])[..|xs|] == xs;
  }

  /** Every key left in `m` was in `m0`, with the same value. */
  ghost predicate Shrunk<K, V>(m0: map<K, V>, m: map<K, V>) {
    forall k :: k in m ==> k in m0 && m[k] == m0[k]
  }

  /** Exactly the keys of `m0` listed in `gone` have left. */
  ghost predicate RemovedExactly<K, V>(m0: map<K, V>, m: map<K, V>, gone: seq<K>) {
    forall k :: k in m0 ==> (k in m <==> k !in gone)
  }

  lemma RemoveOneMore<K, V>(m0: map<K, V>, m: map<K, V>, m': map<K, V>, gone: seq<K>, x: K)
    requires Shrunk(m0, m) && RemovedExactly(m0, m, gone) && m' == m - {x}
    ensures Shrunk(m0, m') && RemovedExactly(m0, m', gone + [x])
  {
    forall k | k in m0
      ensures k in m' <==> k !in gone + [x]
    {
      assert k in gone + [x] <==> k in gone || k == x;
    }
  }

  lemma ShrunkTwice<K, V>(m0: map<K, V>, m: map<K, V>, m': map<K, V>)
    requires Shrunk(m0, m) && Shrunk(m, m')
    ensures Shrunk(m0, m')
  {
  }

  /** The state the edge loop keeps after its first `i` IDs: the edge
   *  dicts, the node lookup dict and the edge lookup dict. */
  ghost predicate MoveState(ids: seq<Value>, i: nat, baseId: Value, es0: seq<Fields>,
                            nodes0: map<Value, Record>, edges0: map<string, Record>,
                            fs: seq<Fields>, nodes: map<Value, Record>, edges: map<string, Record>)
    requires i <= |ids|
  {
    var done := Others(ids[..i], baseId);
    RedirectEachAsWritten(es0, done, baseId) == Ok(fs) &&
    Shrunk(nodes0, nodes) && RemovedExactly(nodes0, nodes, done) && Shrunk(edges0, edges) &&
    (done != [] ==> ScanReadable(es0, done[0])) &&
    (done == [] ==> fs == es0 && nodes == nodes0)
  }

  /** The base among the IDs changes nothing. */
  lemma MoveSkip(ids: seq<Value>, i: nat, baseId: Value, es0: seq<Fields>,
                 nodes0: map<Value, Record>, edges0: map<string, Record>,
                 fs: seq<Fields>, nodes: map<Value, Record>, edges: map<string, Record>)
    requires i < |ids| && ids[i] == baseId
    requires MoveState(ids, i, baseId, es0, nodes0, edges0, fs, nodes, edges)
    ensures MoveState(ids, i + 1, baseId, es0, nodes0, edges0, fs, nodes, edges)
  {
    OthersSnoc(ids, i, baseId);
    assert Others(ids[..i + 1], baseId) == Others(ids[..i], baseId);
  }

  /** A merged node whose edges moved and which was removed. */
  lemma MoveStep(ids: seq<Value>, i: nat, baseId: Value, es0: seq<Fields>,
                 nodes0: map<Value, Record>, edges0: map<string, Record>,
                 fs: seq<Fields>, nodes: map<Value, Record>, edges: map<string, Record>,
                 fs': seq<Fields>, nodes': map<Value, Record>, edges': map<string, Record>)
    requires i < |ids| && ids[i] != baseId
    requires MoveState(ids, i, baseId, es0, nodes0, edges0, fs, nodes, edges)
    requires RedirectAllAsWritten(fs, ids[i], baseId) == Ok(fs')
    requires nodes' == nodes - {ids[i]} && Shrunk(edges, edges')
    ensures MoveState(ids, i + 1, baseId, es0, nodes0, edges0, fs', nodes', edges')
  {
    var done := Others(ids[..i], baseId);
    var x := ids[i];
    OthersSnoc(ids, i, baseId);
    assert Others(ids[..i + 1], baseId) == done + [x];
    RedirectEachSnoc(es0, done, x, baseId);
    MoveEnds(ids, i, baseId, es0, nodes0, edges0, fs, nodes, edges);
    RemoveOneMore(nodes0, nodes, nodes', done, x);
    ShrunkTwice(edges0, edges, edges');
  }

  /** Once the first edge update has succeeded, the scan for the first
   *  merged node read every edge. */
  lemma MoveEnds(ids: seq<Value>, i: nat, baseId: Value, es0: seq<Fields>,
                 nodes0: map<Value, Record>, edges0: map<string, Record>,
                 fs: seq<Fields>, nodes: map<Value, Record>, edges: map<string, Record>)
    requires i < |ids| && ids[i] != baseId
    requires MoveState(ids, i, baseId, es0, nodes0, edges0, fs, nodes, edges)
    requires RedirectAllAsWritten(fs, ids[i], baseId).Ok?
    ensures var done := Others(ids[..i], baseId) + [ids[i]];
            ScanReadable(es0, done[0])
  {
  }

  /** `self.builder.remove_node(node_id)`, as the edge loop needs it: the
   *  node leaves the lookup dict, some edges may leave theirs, and the
   *  lists stay as they are. */
  method RemoveMerged(b: GraphBuilder, x: Value) returns (o: Outcome)
    modifies b
    ensures o.Pass? ==> b.nodes == old(b.nodes) - {x}
    ensures o.Fail? ==> b.nodes == old(b.nodes) && o.error in {TypeError, ValueError, KeyError}
    ensures Shrunk(old(b.edges), b.edges)
    ensures b.edgeList == old(b.edgeList) && b.nodeList == old(b.nodeList)
    ensures FieldsOf(b.edgeList) == old(FieldsOf(b.edgeList))
  {
    o := b.RemoveNode(x);
  }

  /** The edge loop of `merge_duplicate_nodes`: for each merged node, its
   *  edges move to the base and then the node is removed. */
  method MoveEdges(b: GraphBuilder, ids: seq<Value>, baseId: Value) returns (o: Outcome)
    requires EdgesApart(b)
    modifies b, b.edgeList
    ensures b.edgeList == old(b.edgeList) && b.nodeList == old(b.nodeList)
    ensures forall k :: k in b.nodes ==> k in old(b.nodes) && b.nodes[k] == old(b.nodes)[k]
    ensures forall k :: k in b.edges ==> k in old(b.edges) && b.edges[k] == old(b.edges)[k]
    ensures o.Pass? ==>
              RedirectEachAsWritten(old(FieldsOf(b.edgeList)), Others(ids, baseId), baseId) == Ok(FieldsOf(b.edgeList)) &&
              forall k :: k in old(b.nodes) ==> (k in b.nodes <==> k !in Others(ids, baseId))
    ensures Others(ids, baseId) != [] && !ScanReadable(old(FieldsOf(b.edgeList)), Others(ids, baseId)[0]) ==>
              o == Fail(KeyError) && FieldsOf(b.edgeList) == old(FieldsOf(b.edgeList)) && b.nodes == old(b.nodes)
    ensures o.Fail? ==> o.error in {TypeError, ValueError, KeyError}
  {
    ghost var es0 := FieldsOf(b.edgeList);
    ghost var nodes0 := b.nodes;
    ghost var edges0 := b.edges;
    for i := 0 to |ids|
      invariant b.edgeList == old(b.edgeList) && b.nodeList == old(b.nodeList)
      invariant MoveState(ids, i, baseId, es0, nodes0, edges0, FieldsOf(b.edgeList), b.nodes, b.edges)
    {
      ghost var fs := FieldsOf(b.edgeList);
      ghost var nodes := b.nodes;
      ghost var edges := b.edges;
      o := MoveOne(b, ids[i], baseId);
      MoveAfter(ids, i, baseId, es0, nodes0, edges0, fs, nodes, edges, FieldsOf(b.edgeList), b.nodes, b.edges, o);
      if o.Fail? {
        OthersHead(ids, i + 1, baseId);
        return;
      }
    }
    assert ids[..|ids|] == ids;
    return Pass;
  }

  /** What one turn of the edge loop does to the edge dicts, the node
   *  lookup dict and the edge lookup dict: the base is skipped; for
   *  another node a missing endpoint raises KeyError before any change,
   *  otherwise its edges move and the node is removed. */
  ghost predicate MoveOneSpec(x: Value, base: Value, fs: seq<Fields>, nodes: map<Value, Record>, edges: map<string, Record>,
                              fs': seq<Fields>, nodes': map<Value, Record>, edges': map<string, Record>, o: Outcome)
  {
    if x == base then o == Pass && fs' == fs && nodes' == nodes && edges' == edges
    else
      var R := RedirectAllAsWritten(fs, x, base);
      (R.Err? ==> o == Fail(KeyError) && fs' == fs && nodes' == nodes && edges' == edges) &&
      (R.Ok? ==> fs' == R.value && Shrunk(edges, edges') &&
                 (o.Pass? ==> nodes' == nodes - {x}) &&
                 (o.Fail? ==> nodes' == nodes && o.error in {TypeError, ValueError, KeyError}))
  }

  /** One turn of the edge loop. */
  method MoveOne(b: GraphBuilder, x: Value, baseId: Value) returns (o: Outcome)
    modifies b, b.edgeList
    ensures b.edgeList == old(b.edgeList) && b.nodeList == old(b.nodeList)
    ensures MoveOneSpec(x, baseId, old(FieldsOf(b.edgeList)), old(b.nodes), old(b.edges),
                        FieldsOf(b.edgeList), b.nodes, b.edges, o)
  {
    if x == baseId {
      return Pass;
    }
    ghost var R := RedirectAllAsWritten(FieldsOf(b.edgeList), x, baseId);
    o := RedirectEdges(b.edgeList, x, baseId);
    if o.Fail? {
      assert R.Err? && FieldsOf(b.edgeList) == old(FieldsOf(b.edgeList));
      return;
    }
    assert R.Ok? && FieldsOf(b.edgeList) == R.value;
    o := RemoveMerged(b, x);
    assert FieldsOf(b.edgeList) == R.value;
  }

  /** The loop state after one more turn, or what a failing turn leaves. */
  lemma MoveAfter(ids: seq<Value>, i: nat, baseId: Value, es0: seq<Fields>,
                  nodes0: map<Value, Record>, edges0: map<string, Record>,
                  fs: seq<Fields>, nodes: map<Value, Record>, edges: map<string, Record>,
                  fs': seq<Fields>, nodes': map<Value, Record>, edges': map<string, Record>, o: Outcome)
    requires i < |ids| && MoveState(ids, i, baseId, es0, nodes0, edges0, fs, nodes, edges)
    requires MoveOneSpec(ids[i], baseId, fs, nodes, edges, fs', nodes', edges', o)
    ensures o.Pass? ==> MoveState(ids, i + 1, baseId, es0, nodes0, edges0, fs', nodes', edges')
    ensures Shrunk(nodes0, nodes') && Shrunk(edges0, edges')
    ensures o.Fail? ==> o.error in {TypeError, ValueError, KeyError}
    ensures o.Fail? ==>
              Others(ids[..i + 1], baseId) != [] &&
              (!ScanReadable(es0, Others(ids[..i + 1], baseId)[0]) ==> o == Fail(KeyError) && fs' == es0 && nodes' == nodes0)
  {
    OthersSnoc(ids, i, baseId);
    if ids[i] == baseId {
      MoveSkip(ids, i, baseId, es0, nodes0, edges0, fs, nodes, edges);
    } else if RedirectAllAsWritten(fs, ids[i], baseId).Ok? {
      MoveEnds(ids, i, baseId, es0, nodes0, edges0, fs, nodes, edges);
      ShrunkTwice(edges0, edges, edges');
      if o.Pass? {
        MoveStep(ids, i, baseId, es0, nodes0, edges0, fs, nodes, edges, fs', nodes', edges');
      }
    }
  }

  /** The lookups, `max` and `base_node["id"]` of `merge_duplicate_nodes`:
   *  the base node and its ID, or what these raise. */
  method ChooseBase(b: GraphBuilder, ids: seq<Value>) returns (r: Result<(Record, Value)>)
    requires ids != [] && KeyedById(b.NodeView())
    ensures var B := BaseOf(b.NodeView(), ids);
            (B.Err? ==> r == Err(B.error) && B.error in {TypeError, ValueError, KeyError, AttributeError}) &&
            (B.Ok? ==> r.Ok? && B.value == r.value.1)
    ensures r.Ok? ==>
              r.value.1 in b.nodes && b.nodes[r.value.1] == r.value.0 && HasPropDict(r.value.0.fields) &&
              (forall i :: 0 <= i < |ids| ==> ids[i] in b.nodes && HasPropDict(b.nodes[ids[i]].fields)) &&
              forall k :: k in b.nodes && k != r.value.1 ==> b.nodes[k] != r.value.0
  {
    var view := b.NodeView();
    var base := BaseOf(view, ids);
    BaseOfErrors(view, ids);
    if base.Err? {
      return Err(base.error);
    }
    BaseOfMeans(view, ids);
    var baseId := base.value;
    KeyedApart(b, baseId);
    return Ok((b.nodes[baseId], baseId));
  }

  /** Node dicts stored under different IDs are different dicts. */
  lemma KeyedApart(b: GraphBuilder, id: Value)
    requires KeyedById(b.NodeView()) && id in b.nodes
    ensures forall k :: k in b.nodes && k != id ==> b.nodes[k] != b.nodes[id]
  {
    var view := b.NodeView();
    forall k | k in b.nodes && k != id
      ensures b.nodes[k] != b.nodes[id]
    {
      assert view[k][VStr("id")] == k && view[id][VStr("id")] == id;
    }
  }

  /** The two loops of `merge_duplicate_nodes` once the base is known: the
   *  property merge, then the edge moves and removals. */
  method MergeAndMove(b: GraphBuilder, base: Record, ids: seq<Value>, baseId: Value) returns (r: Result<Value>)
    requires baseId in b.nodes && b.nodes[baseId] == base && HasPropDict(base.fields)
    requires forall i :: 0 <= i < |ids| ==> ids[i] in b.nodes && HasPropDict(b.nodes[ids[i]].fields)
    requires forall k :: k in b.nodes && k != baseId ==> b.nodes[k] != base
    requires EdgesApart(b)
    modifies b, base, b.edgeList
    ensures r.Ok? ==> r == Ok(baseId)
    ensures r.Err? ==> r.error in {TypeError, ValueError, KeyError}
    ensures base.fields ==
              old(base.fields)[VStr("properties") :=
                VDict(MergeProps(PropsOf(old(base.fields)), PropsList(old(b.NodeView()), Others(ids, baseId))))]
    ensures forall k :: k in old(b.nodes) && k != baseId ==> old(b.nodes)[k].fields == old(b.nodes[k].fields)
    ensures b.edgeList == old(b.edgeList) && b.nodeList == old(b.nodeList)
    ensures forall k :: k in b.nodes ==> k in old(b.nodes) && b.nodes[k] == old(b.nodes)[k]
    ensures forall k :: k in b.edges ==> k in old(b.edges) && b.edges[k] == old(b.edges)[k]
    ensures r.Ok? ==>
              RedirectEachAsWritten(old(FieldsOf(b.edgeList)), Others(ids, baseId), baseId) == Ok(FieldsOf(b.edgeList)) &&
              forall k :: k in old(b.nodes) ==> (k in b.nodes <==> k !in Others(ids, baseId))
    ensures Others(ids, baseId) != [] && !ScanReadable(old(FieldsOf(b.edgeList)), Others(ids, baseId)[0]) ==>
              r == Err(KeyError) && FieldsOf(b.edgeList) == old(FieldsOf(b.edgeList)) && b.nodes == old(b.nodes)
  {
    MergeInto(b, base, ids, baseId);
    var moved := MoveEdges(b, ids, baseId);
    if moved.Fail? {
      return Err(moved.error);
    }
    return Ok(baseId);
  }

  class KnowledgeGraphOptimizer {
    const builder: GraphBuilder

    constructor (builder: GraphBuilder)
      ensures this.builder == builder
    {
      this.builder := builder;
    }

    /** `prune_weak_connections`: the weak edges are collected first (a
     *  weight that cannot be read or compared raises before anything
     *  goes), then each is removed from the edge list with `list.remove`.
     *  The lookup dicts are left as they are. */
    method PruneWeakConnections(threshold: Value) returns (r: Result<seq<Record>>)
      modifies builder
      ensures var mask := MapAll(FieldsOf(old(builder.edgeList)), WeakTest(threshold));
              (mask.Err? ==> r == Err(mask.error) && builder.edgeList == old(builder.edgeList)) &&
              (mask.Ok? ==> r == Ok(Select(old(builder.edgeList), mask.value, true)) &&
                            builder.edgeList == Select(old(builder.edgeList), mask.value, false))
      ensures builder.nodes == old(builder.nodes) && builder.edges == old(builder.edges) && builder.nodeList == old(builder.nodeList)
    {
      var edges := builder.edgeList;
      var toRemove, mask := CollectWeak(edges, FieldsOf(edges), WeakTest(threshold));
      if toRemove.Err? {
        return toRemove;
      }
      var rest := DropWeak(edges, toRemove.value, WeakTest(threshold), mask);
      builder.edgeList := rest;
      return toRemove;
    }

    /** `merge_duplicate_nodes`: no IDs give "". Otherwise the nodes are
     *  looked up and `max` picks the base by importance (whatever these
     *  raise leaves the graph as it was); the base takes the properties it
     *  lacks from the other nodes in turn; then, for each other node, its
     *  edges move to the base as `RedirectAsWritten` says (only the source
     *  of a loop moves) and the node is removed. */
    method MergeDuplicateNodes(ids: seq<Value>) returns (r: Result<Value>)
      requires KeyedById(builder.NodeView()) && EdgesApart(builder)
      modifies builder, builder.nodes.Values, builder.edgeList
      ensures r.Err? ==> r.error in {TypeError, ValueError, KeyError, AttributeError}
      ensures builder.edgeList == old(builder.edgeList) && builder.nodeList == old(builder.nodeList)
      ensures forall k :: k in builder.nodes ==> k in old(builder.nodes) && builder.nodes[k] == old(builder.nodes)[k]
      ensures forall k :: k in builder.edges ==> k in old(builder.edges) && builder.edges[k] == old(builder.edges)[k]
      ensures ids == [] ==> r == Ok(VStr(""))
      ensures var B := BaseOf(old(builder.NodeView()), ids);
              (ids == [] || B.Err?) ==>
                r == B && builder.nodes == old(builder.nodes) &&
                (forall k :: k in old(builder.nodes) ==> old(builder.nodes)[k].fields == old(builder.nodes[k].fields)) &&
                FieldsOf(builder.edgeList) == old(FieldsOf(builder.edgeList))
      ensures var view := old(builder.NodeView());
              var B := BaseOf(view, ids);
              ids != [] && B.Ok? ==>
                var base := B.value;
                base in view &&
                old(builder.nodes)[base].fields ==
                  view[base][VStr("properties") := VDict(MergeProps(PropsOf(view[base]), PropsList(view, Others(ids, base))))] &&
                (forall k :: k in view && k != base ==> old(builder.nodes)[k].fields == view[k]) &&
                (r.Ok? ==>
                   r == B &&
                   RedirectEachAsWritten(old(FieldsOf(builder.edgeList)), Others(ids, base), base) == Ok(FieldsOf(builder.edgeList)) &&
                   forall k :: k in view ==> (k in builder.nodes <==> k !in Others(ids, base))) &&
                (Others(ids, base) != [] && !ScanReadable(old(FieldsOf(builder.edgeList)), Others(ids, base)[0]) ==>
                   r == Err(KeyError) && builder.nodes == old(builder.nodes) &&
                   FieldsOf(builder.edgeList) == old(FieldsOf(builder.edgeList)))
    {
      if ids == [] {
        return Ok(VStr(""));
      }
      var chosen := ChooseBase(builder, ids);
      if chosen.Err? {
        return Err(chosen.error);
      }
      var (base, baseId) := chosen.value;
      r := MergeAndMove(builder, base, ids, baseId);
    }
  }

  /** The first loop of `prune_weak_connections`: the weak edges in order,
   *  or the error of the first weight that cannot be read or compared
   *  (`fs` holds each edge's fields, in the same order). */
  method CollectWeak<R, F>(edges: seq<R>, fs: seq<F>, test: F -> Result<bool>) returns (r: Result<seq<R>>, ghost mask: seq<bool>)
    requires |fs| == |edges|
    ensures MapAll(fs, test).Err? ==> r == Err(MapAll(fs, test).error)
    ensures MapAll(fs, test).Ok? ==> MapAll(fs, test) == Ok(mask) && r == Ok(Select(edges, mask, true))
  {
    var toRemove: seq<R> := [];
    mask := [];
    for i := 0 to |edges|
      invariant MapAll(fs[..i], test) == Ok(mask) && |mask| == i
      invariant toRemove == Select(edges[..i], mask, true)
    {
      var w := test(fs[i]);
      if w.Err? {
        MapAllFails(fs, i, test);
        return Err(w.error), mask;
      }
      CollectStep(edges, fs, i, test, mask, toRemove);
      if w.value {
        toRemove := toRemove + [edges[i]];
      }
      mask := mask + [w.value];
    }
    assert fs[..|edges|] == fs && edges[..|edges|] == edges;
    return Ok(toRemove), mask;
  }

  /** The comprehension stops at the first element that raises. */
  lemma MapAllFails<F, B>(fs: seq<F>, i: nat, test: F -> Result<B>)
    requires i < |fs| && test(fs[i]).Err? && MapAll(fs[..i], test).Ok?
    ensures MapAll(fs, test) == Err(test(fs[i]).error)
  {
    MapAllSnoc(fs, i, test);
    MapAllStops(fs, i + 1, test);
  }

  /** One step of the collecting loop. */
  lemma CollectStep<R, F>(edges: seq<R>, fs: seq<F>, i: nat, test: F -> Result<bool>, mask: seq<bool>, toRemove: seq<R>)
    requires i < |edges| == |fs| && test(fs[i]).Ok?
    requires MapAll(fs[..i], test) == Ok(mask) && |mask| == i
    requires toRemove == Select(edges[..i], mask, true)
    ensures var w := test(fs[i]).value;
            MapAll(fs[..i + 1], test) == Ok(mask + [w]) &&
            (if w then toRemove + [edges[i]] else toRemove) == Select(edges[..i + 1], mask + [w], true)
  {
    var w := test(fs[i]).value;
    MapAllSnoc(fs, i, test);
    assert edges[..i + 1] == edges[..i] + [edges[i]];
    SelectSnoc(edges[..i], mask, true, edges[i], w);
  }

  lemma {:induction false} SelectFields(rs: seq<Record>, mask: seq<bool>, flag: bool)
    requires |mask| == |rs|
    ensures FieldsOf(Select(rs, mask, flag)) == Select(FieldsOf(rs), mask, flag)
  {
    if rs != [] {
      var n := |rs| - 1;
      SelectFields(rs[..n], mask[..n], flag);
      assert rs == rs[..n] + [rs[n]] && mask == mask[..n] + [mask[n]];
      SelectSnoc(rs[..n], mask[..n], flag, rs[n], mask[n]);
      SelectSnoc(FieldsOf(rs[..n]), mask[..n], flag, rs[n].fields, mask[n]);
      FieldsAppend(Select(rs[..n], mask[..n], flag), if mask[n] == flag then [rs[n]] else []);
    }
  }

  lemma FieldsAppend(a: seq<Record>, b: seq<Record>)
    ensures FieldsOf(a + b) == FieldsOf(a) + FieldsOf(b)
  {
    assert |FieldsOf(a + b)| == |FieldsOf(a) + FieldsOf(b)|;
  }

  lemma {:induction false} SelectedAreWeak<F>(fs: seq<F>, mask: seq<bool>, test: F -> Result<bool>)
    requires |mask| == |fs| && forall i :: 0 <= i < |fs| ==> test(fs[i]) == Ok(mask[i])
    ensures forall f :: f in Select(fs, mask, true) ==> Weak(f, test)
  {
    if fs != [] {
      SelectedAreWeak(fs[1..], mask[1..], test);
    }
  }

  lemma DropSetup(edges: seq<Record>, doomed: seq<Record>, test: Fields -> Result<bool>, mask: seq<bool>)
    requires MapAll(FieldsOf(edges), test) == Ok(mask)
    requires doomed == Select(edges, mask, true)
    ensures Entries(Tag(edges)) == edges && forall p :: p in Tag(edges) ==> p.1 == p.0.fields
    ensures WeakFields(Tag(edges), test) == multiset(FieldsOf(doomed))
    ensures Entries(Strong(Tag(edges), test)) == Select(edges, mask, false)
    ensures forall f :: f in FieldsOf(doomed) ==> Weak(f, test)
  {
    var ts := Tag(edges);
    MapAllMeans(FieldsOf(edges), test);
    SelectFields(edges, mask, true);
    SelectedAreWeak(FieldsOf(edges), mask, test);
    assert Tags(ts) == FieldsOf(edges) && Entries(ts) == edges;
    SelectTagged(ts, mask, test);
  }

  /** One `list.remove` of a collected edge, on the records with their
   *  fields. */
  lemma DropOne<R, F>(cur: Tagged<R, F>, weakFields: seq<F>, k: nat, test: F -> Result<bool>) returns (cur': Tagged<R, F>)
    requires k < |weakFields| && WeakFields(cur, test) == multiset(weakFields[k..])
    requires forall f :: f in weakFields ==> Weak(f, test)
    ensures cur' == RemoveFirst(cur, weakFields[k]) && exists p :: p in cur && p.1 == weakFields[k]
    ensures forall p :: p in cur' ==> p in cur
    ensures Strong(cur', test) == Strong(cur, test)
    ensures WeakFields(cur', test) == multiset(weakFields[k + 1..])
  {
    var f := weakFields[k];
    assert weakFields[k..] == [f] + weakFields[k + 1..];
    WeakFieldsHold(cur, f, test);
    RemoveWeak(cur, f, test);
    RemoveFirstKeeps(cur, f);
    cur' := RemoveFirst(cur, f);
  }

  /** The second loop of `prune_weak_connections`: `list.remove` of each
   *  collected edge leaves exactly the edges that are not weak. Removal
   *  goes by dict equality, so it may take an equal twin of the collected
   *  edge; the twin is weak as well, so the outcome is the same. */
  method DropWeak(edges: seq<Record>, doomed: seq<Record>, test: Fields -> Result<bool>, ghost mask: seq<bool>) returns (rest: seq<Record>)
    requires MapAll(FieldsOf(edges), test) == Ok(mask)
    requires doomed == Select(edges, mask, true)
    ensures rest == Select(edges, mask, false)
  {
    ghost var weakFields := FieldsOf(doomed);
    DropSetup(edges, doomed, test, mask);
    var cur := Tag(edges);
    ghost var ts := cur;
    for k := 0 to |doomed|
      invariant Strong(cur, test) == Strong(ts, test)
      invariant WeakFields(cur, test) == multiset(weakFields[k..])
    {
      var f := doomed[k].fields;
      ghost var cur' := DropOne(cur, weakFields, k, test);
      cur := RemoveEqual(cur, f);
    }
    assert weakFields[|doomed|..] == [];
    NoWeakLeft(cur, test);
    rest := Entries(cur);
  }

  lemma {:induction false} WeakFieldsHold<R, F>(xs: Tagged<R, F>, f: F, test: F -> Result<bool>)
    requires f in WeakFields(xs, test)
    ensures exists p :: p in xs && p.1 == f
  {
    if Weak(xs[0].1, test) && xs[0].1 == f {
      assert xs[0] in xs;
    } else {
      WeakFieldsHold(xs[1..], f, test);
      var p :| p in xs[1..] && p.1 == f;
      assert p in xs;
    }
  }
}
