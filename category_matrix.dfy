/** `ResearchCategoryMatrix`: categories with attribute dicts and typed
 *  relations between them. The numpy matrices it wraps are not part of this
 *  model. */
module ResearchCategory {
  import opened Wrappers
  import opened PyValue
  import opened RelationMaps

  type Attrs = map<Value, Value>

  /** The state of a `ResearchCategoryMatrix`: its `categories` and
   *  `relations` dicts. */
  datatype Registry = Registry(categories: map<string, Attrs>, relations: Relations)

  /** Every relation joins two categories. */
  predicate Linked(g: Registry) {
    forall s :: s in g.relations ==> s in g.categories && forall t :: t in g.relations[s] ==> t in g.categories
  }

  /** `add_category`: an empty or existing ID raises ValueError. */
  function AddCategoryStep(g: Registry, id: string, attrs: Attrs): (Outcome, Registry) {
    if id == "" || id in g.categories then (Fail(ValueError), g)
    else (Pass, g.(categories := g.categories[id := attrs]))
  }

  /** `remove_category`: ValueError for an unknown category; otherwise the
   *  category, its own relations and every relation into it go. A source
   *  whose only target was the category keeps an empty dict. */
  function RemoveCategoryStep(g: Registry, id: string): (Outcome, Registry) {
    if id !in g.categories then (Fail(ValueError), g)
    else (Pass, Registry(g.categories - {id}, Detach(g.relations - {id}, id)))
  }

  /** `update_category`: `dict.update` of the category's attributes. */
  function UpdateCategoryStep(g: Registry, id: string, attrs: Attrs): (Outcome, Registry) {
    if id !in g.categories then (Fail(ValueError), g)
    else (Pass, g.(categories := g.categories[id := g.categories[id] + attrs]))
  }

  /** `add_relation`: empty arguments, then an unknown source or target
   *  category, raise ValueError; otherwise the relation is set. */
  function AddRelationStep(g: Registry, source: string, target: string, relType: string): (Outcome, Registry) {
    if source == "" || target == "" || relType == "" then (Fail(ValueError), g)
    else if source !in g.categories || target !in g.categories then (Fail(ValueError), g)
    else (Pass, g.(relations := Add(g.relations, source, target, relType).value))
  }

  /** `add_category` accepts exactly a new non-empty ID and stores its
   *  attributes. */
  lemma AddCategoryChecks(g: Registry, id: string, attrs: Attrs)
    ensures AddCategoryStep(g, id, attrs).0.Pass? <==> id != "" && id !in g.categories
    ensures AddCategoryStep(g, id, attrs).0.Pass? ==>
              AddCategoryStep(g, id, attrs).1.categories == g.categories[id := attrs] &&
              AddCategoryStep(g, id, attrs).1.relations == g.relations
  {
  }

  /** `add_relation` succeeds exactly for non-empty arguments naming two
   *  categories, and then records the relation with its type. */
  lemma AddRelationChecks(g: Registry, source: string, target: string, relType: string)
    ensures AddRelationStep(g, source, target, relType).0.Pass? <==>
              source != "" && target != "" && relType != "" && source in g.categories && target in g.categories
    ensures AddRelationStep(g, source, target, relType).0.Pass? ==>
              var g' := AddRelationStep(g, source, target, relType).1;
              Related(g'.relations, source, target) && g'.relations[source][target] == relType &&
              SameElsewhere(g.relations, g'.relations, source, target) && g'.categories == g.categories
  {
    AddSetsOne(g.relations, source, target, relType);
  }

  /** `remove_category` of a known category leaves no relation from or to
   *  it, keeps every relation between other categories, and keeps every
   *  relation between categories. */
  lemma RemoveCategoryCascades(g: Registry, id: string)
    ensures RemoveCategoryStep(g, id).0.Pass? <==> id in g.categories
    ensures RemoveCategoryStep(g, id).0.Fail? ==> RemoveCategoryStep(g, id).1 == g
    ensures var (o, g') := RemoveCategoryStep(g, id);
            o.Pass? ==> id !in g'.categories && id !in g'.relations && forall s :: s in g'.relations ==> id !in g'.relations[s]
    ensures var g' := RemoveCategoryStep(g, id).1;
            forall s, t :: s != id && t != id ==>
              (Related(g'.relations, s, t) <==> Related(g.relations, s, t)) &&
              (Related(g.relations, s, t) ==> g'.relations[s][t] == g.relations[s][t])
    ensures Linked(g) ==> Linked(RemoveCategoryStep(g, id).1)
  {
  }

  /** Unlike `remove_relation`, the cascade can leave a source with an
   *  empty dict. */
  lemma CascadeKeepsEmptyRow()
    ensures var g := Registry(map["a" := map[], "b" := map[]], map["a" := map["b" := "part-of"]]);
            NoEmptyRows(g.relations) &&
            RemoveCategoryStep(g, "b") == (Pass, Registry(map["a" := map[]], map["a" := map[]])) &&
            !NoEmptyRows(RemoveCategoryStep(g, "b").1.relations)
  {
    var g := Registry(map["a" := map[], "b" := map[]], map["a" := map["b" := "part-of"]]);
    assert g.categories - {"b"} == map["a" := map[]];
    assert g.relations - {"b"} == g.relations;
    assert map["b" := "part-of"] - {"b"} == map[];
    assert Detach(g.relations, "b") == map["a" := map[]];
    var r' := RemoveCategoryStep(g, "b").1.relations;
    assert "a" in r' && r'["a"] == map[];
  }

  /** Each operation keeps every relation between categories. */
  lemma StepsKeepLinked(g: Registry, id: string, attrs: Attrs, source: string, target: string, relType: string)
    requires Linked(g)
    ensures Linked(AddCategoryStep(g, id, attrs).1)
    ensures Linked(UpdateCategoryStep(g, id, attrs).1)
    ensures Linked(AddRelationStep(g, source, target, relType).1)
    ensures Remove(g.relations, source, target).Ok? ==> Linked(g.(relations := Remove(g.relations, source, target).value))
    ensures Update(g.relations, source, target, relType).Ok? ==> Linked(g.(relations := Update(g.relations, source, target, relType).value))
  {
    if Remove(g.relations, source, target).Ok? {
      DropRemovesOne(g.relations, source, target);
    }
  }

  class CategoryMatrix {
    var categories: map<string, Attrs>
    var relations: Relations

    constructor ()
      ensures categories == map[] && relations == map[]
    {
      categories := map[];
      relations := map[];
    }

    method AddCategory(id: string, attrs: Attrs) returns (o: Outcome)
      modifies this
      ensures (o, Registry(categories, relations)) == AddCategoryStep(Registry(old(categories), old(relations)), id, attrs)
    {
      if id == "" || id in categories {
        return Fail(ValueError);
      }
      categories := categories[id := attrs];
      return Pass;
    }

    /** Deletes the category and its own relations, then walks the other
     *  sources and deletes the relation into it from each. */
    method RemoveCategory(id: string) returns (o: Outcome)
      modifies this
      ensures (o, Registry(categories, relations)) == RemoveCategoryStep(Registry(old(categories), old(relations)), id)
    {
      if id !in categories {
        return Fail(ValueError);
      }
      categories := categories - {id};
      if id in relations {
        relations := relations - {id};
      }
      ghost var start := relations;
      var pending := relations.Keys;
      while pending != {}
        invariant categories == old(categories) - {id} && start == old(relations) - {id}
        invariant pending <= start.Keys && relations.Keys == start.Keys
        invariant forall s :: s in relations ==> relations[s] == if s in pending then start[s] else start[s] - {id}
        decreases pending
      {
        var s :| s in pending;
        if id in relations[s] {
          relations := relations[s := relations[s] - {id}];
        }
        pending := pending - {s};
      }
      assert relations == Detach(start, id);
      return Pass;
    }

    method UpdateCategory(id: string, attrs: Attrs) returns (o: Outcome)
      modifies this
      ensures (o, Registry(categories, relations)) == UpdateCategoryStep(Registry(old(categories), old(relations)), id, attrs)
    {
      if id !in categories {
        return Fail(ValueError);
      }
      categories := categories[id := categories[id] + attrs];
      return Pass;
    }

    method AddRelation(source: string, target: string, relType: string) returns (o: Outcome)
      modifies this
      ensures (o, Registry(categories, relations)) ==
              AddRelationStep(Registry(old(categories), old(relations)), source, target, relType)
    {
      if source == "" || target == "" || relType == "" {
        return Fail(ValueError);
      }
      if source !in categories || target !in categories {
        return Fail(ValueError);
      }
      var row := if source in relations then relations[source] else map[];
      relations := relations[source := row[target := relType]];
      return Pass;
    }

    method RemoveRelation(source: string, target: string) returns (o: Outcome)
      modifies this
      ensures (o, relations) == Apply(old(relations), Remove(old(relations), source, target))
      ensures categories == old(categories)
    {
      if source !in relations {
        return Fail(ValueError);
      }
      if target !in relations[source] {
        return Fail(ValueError);
      }
      var row := relations[source] - {target};
      if row == map[] {
        relations := relations - {source};
      } else {
        relations := relations[source := row];
      }
      return Pass;
    }

    method UpdateRelation(source: string, target: string, relType: string) returns (o: Outcome)
      modifies this
      ensures (o, relations) == Apply(old(relations), Update(old(relations), source, target, relType))
      ensures categories == old(categories)
    {
      if source !in relations || target !in relations[source] {
        return Fail(ValueError);
      }
      if relType == "" {
        return Fail(ValueError);
      }
      relations := relations[source := relations[source][target := relType]];
      return Pass;
    }

    /** `get_category`: `dict.get`, None for an unknown category. */
    function GetCategory(id: string): (a: Option<Attrs>)
      reads this
      ensures a.None? <==> id !in categories
      ensures a.Some? ==> a.value == categories[id]
    {
      if id in categories then Some(categories[id]) else None
    }

    function GetRelations(source: string): (rels: map<string, string>)
      reads this
      ensures source in relations ==> rels == relations[source]
      ensures source !in relations ==> rels == map[]
    {
      Row(relations, source)
    }

    /** `analyze`: the number of categories and the number of related
     *  (source, target) pairs, summed source by source. */
    method Analyze() returns (categoryCount: nat, relationCount: nat)
      ensures categoryCount == |categories|
      ensures relationCount == |Pairs(relations)|
    {
      categoryCount := |categories|;
      relationCount := 0;
      var pending := relations.Keys;
      while pending != {}
        invariant pending <= relations.Keys
        invariant relationCount == |Pairs(Restrict(relations, relations.Keys - pending))|
        decreases pending
      {
        var s :| s in pending;
        PairsGrow(relations, relations.Keys - pending, s);
        assert relations.Keys - pending + {s} == relations.Keys - (pending - {s});
        relationCount := relationCount + |relations[s]|;
        pending := pending - {s};
      }
      assert relations.Keys - pending == relations.Keys;
      assert Restrict(relations, relations.Keys) == relations;
    }
  }
}
