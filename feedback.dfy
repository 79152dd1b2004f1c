/** `TemplateFeedbackManager`: feedback items for templates, their listing
 *  with filters, responses, deletion, bulk import and the counting analysis.
 *  The one-JSON-file-per-item directory is modelled as a map from feedback
 *  ID to item; the directory listing order is a parameter. */
module Feedback {
  import opened Wrappers
  import opened PyValue
  import Tally

  /** The categories `submit_feedback` accepts. */
  const Categories: seq<string> := ["usability", "content", "structure", "format", "other", "bug"]

  /** One stored feedback file. `status`, `response` and `response_time` are
   *  only written by `respond_to_feedback`. */
  datatype Item = Item(
    feedbackId: string,
    templateId: string,
    category: string,
    rating: int,
    content: string,
    tags: seq<string>,
    metadata: Value,
    submissionTime: string,
    response: Option<string>,
    responseTime: Option<string>,
    status: Option<string>)

  type Store = map<string, Item>

  /** Every item sits under its own ID and carries an accepted category and
   *  rating. */
  predicate Valid(store: Store) {
    forall id :: id in store ==>
      store[id].feedbackId == id && store[id].category in Categories && 1 <= store[id].rating <= 5
  }

  /** `isinstance(rating, int) and 1 <= rating <= 5`; a bool is an int, and
   *  `True` counts as 1 wherever the item is used. */
  function RatingOf(v: Value): (r: Option<int>)
    ensures r.Some? <==> (v.VInt? && 1 <= v.i <= 5) || v == VBool(true)
    ensures r.Some? ==> 1 <= r.value <= 5 && (v.VInt? ==> r.value == v.i)
  {
    match v
    case VInt(n) => if 1 <= n <= 5 then Some(n) else None
    case VBool(b) => if b then Some(1) else None
    case _ => None
  }

  /** The input checks of `submit_feedback`, in the source's order. */
  function CheckSubmission(templateId: string, category: string, rating: Value): (r: Result<int>)
    ensures r.Ok? <==> templateId != "" && category in Categories && RatingOf(rating).Some?
    ensures r.Ok? ==> 1 <= r.value <= 5
    ensures r.Err? ==> r.error == ValueError
  {
    if templateId == "" then Err(ValueError)
    else if category !in Categories then Err(ValueError)
    else match RatingOf(rating)
      case None => Err(ValueError)
      case Some(n) => Ok(n)
  }

  /** `submit_feedback`: a valid submission is stored under the fresh ID
   *  `feedbackId` (the uuid) with submission time `now`. */
  function SubmitStep(store: Store, feedbackId: string, now: string, templateId: string, category: string,
                      rating: Value, comment: string, tags: seq<string>, metadata: Value): (Result<string>, Store)
  {
    match CheckSubmission(templateId, category, rating)
    case Err(e) => (Err(e), store)
    case Ok(n) =>
      var stored := if Truthy(metadata) then metadata else VDict(map[]);
      (Ok(feedbackId), store[feedbackId := Item(feedbackId, templateId, category, n, comment, tags, stored, now, None, None, None)])
  }

  /** `get_feedback`: an empty or unknown ID raises ValueError. */
  function GetStep(store: Store, feedbackId: string): (r: Result<Item>)
    ensures r.Ok? <==> feedbackId != "" && feedbackId in store
    ensures r.Ok? ==> r.value == store[feedbackId]
    ensures r.Err? ==> r.error == ValueError
  {
    if feedbackId == "" || feedbackId !in store then Err(ValueError) else Ok(store[feedbackId])
  }

  /** `respond_to_feedback`: an empty ID or response raises ValueError, an
   *  unknown ID KeyError; otherwise the response, its time and the status
   *  "responded" are recorded. */
  function RespondStep(store: Store, feedbackId: string, response: string, now: string): (Outcome, Store) {
    if feedbackId == "" || response == "" then (Fail(ValueError), store)
    else if feedbackId !in store then (Fail(KeyError), store)
    else
      var item := store[feedbackId];
      (Pass, store[feedbackId := item.(response := Some(response), responseTime := Some(now), status := Some("responded"))])
  }

  /** `delete_feedback`: an empty or unknown ID raises ValueError. */
  function DeleteStep(store: Store, feedbackId: string): (Outcome, Store) {
    if feedbackId == "" || feedbackId !in store then (Fail(ValueError), store)
    else (Pass, store - {feedbackId})
  }

  /** A submission is stored exactly when it passes the checks, under the
   *  returned ID, and every other item is kept. */
  lemma SubmitThenGet(store: Store, feedbackId: string, now: string, templateId: string, category: string,
                      rating: Value, comment: string, tags: seq<string>, metadata: Value, other: string)
    requires feedbackId != ""
    ensures var (r, after) := SubmitStep(store, feedbackId, now, templateId, category, rating, comment, tags, metadata);
            (r.Ok? <==> templateId != "" && category in Categories && RatingOf(rating).Some?) &&
            (r.Ok? ==> r.value == feedbackId && GetStep(after, feedbackId).Ok? &&
                       GetStep(after, feedbackId).value.rating == RatingOf(rating).value &&
                       GetStep(after, feedbackId).value.templateId == templateId) &&
            (r.Err? ==> after == store) &&
            (other != feedbackId ==> GetStep(after, other) == GetStep(store, other))
  {
  }

  /** A response changes only the response fields of that one item. */
  lemma RespondTouchesOnlyResponse(store: Store, feedbackId: string, response: string, now: string, other: string)
    ensures var (r, after) := RespondStep(store, feedbackId, response, now);
            (r.Pass? <==> feedbackId != "" && response != "" && feedbackId in store) &&
            after.Keys == store.Keys &&
            (r.Pass? ==> after[feedbackId].(response := None, responseTime := None, status := None) ==
                         store[feedbackId].(response := None, responseTime := None, status := None) &&
                         after[feedbackId].status == Some("responded")) &&
            (other != feedbackId && other in store ==> after[other] == store[other])
  {
  }

  /** Every store operation keeps the store valid. */
  lemma StepsKeepValid(store: Store, feedbackId: string, now: string, templateId: string, category: string,
                       rating: Value, comment: string, tags: seq<string>, metadata: Value, response: string)
    requires Valid(store)
    ensures Valid(SubmitStep(store, feedbackId, now, templateId, category, rating, comment, tags, metadata).1)
    ensures Valid(RespondStep(store, feedbackId, response, now).1)
    ensures Valid(DeleteStep(store, feedbackId).1)
  {
  }

  /** The filters of `list_feedback`; an empty template ID or category and an
   *  empty tag list filter nothing. */
  predicate Matches(item: Item, templateId: string, category: string, tags: seq<string>) {
    (templateId == "" || item.templateId == templateId) &&
    (category == "" || item.category == category) &&
    (forall t :: t in tags ==> t in item.tags)
  }

  /** `list_feedback` over the directory listing `order`: the matching items
   *  in listing order. A name without a stored item is skipped. */
  function Select(store: Store, order: seq<string>, templateId: string, category: string, tags: seq<string>): seq<Item> {
    if order == [] then []
    else
      var init := Select(store, order[..|order| - 1], templateId, category, tags);
      var id := order[|order| - 1];
      if id in store && Matches(store[id], templateId, category, tags) then init + [store[id]] else init
  }

  /** An item is listed exactly when it matches and is stored under a name
   *  of the listing. */
  lemma {:induction false} SelectMembers(store: Store, order: seq<string>, templateId: string, category: string,
                                         tags: seq<string>, x: Item)
    ensures x in Select(store, order, templateId, category, tags) <==>
            Matches(x, templateId, category, tags) && exists id :: id in order && id in store && store[id] == x
  {
    if order != [] {
      var init := order[..|order| - 1];
      SelectMembers(store, init, templateId, category, tags, x);
      assert order == init + [order[|order| - 1]];
    }
  }

  /** With a listing of the whole store, `list_feedback` returns exactly the
   *  stored items that pass the filters. */
  lemma ListingSelectsMatching(store: Store, order: seq<string>, templateId: string, category: string,
                               tags: seq<string>, x: Item)
    requires forall id :: id in store <==> id in order
    ensures x in Select(store, order, templateId, category, tags) <==> x in store.Values && Matches(x, templateId, category, tags)
  {
    SelectMembers(store, order, templateId, category, tags, x);
    if x in store.Values {
      var id :| id in store && store[id] == x;
      assert id in order;
    }
  }

  /** The time filter of `analyze_feedback` on ISO strings; an empty bound
   *  is no bound. */
  predicate InWindow(item: Item, startTime: string, endTime: string) {
    !(startTime != "" && StrLess(item.submissionTime, startTime)) &&
    !(endTime != "" && StrLess(endTime, item.submissionTime))
  }

  /** The items inside the time window, in order. */
  function Window(items: seq<Item>, startTime: string, endTime: string): (r: seq<Item>)
    ensures forall x :: x in r <==> x in items && InWindow(x, startTime, endTime)
    ensures |r| <= |items|
  {
    if items == [] then []
    else
      var init := Window(items[..|items| - 1], startTime, endTime);
      var last := items[|items| - 1];
      assert items == items[..|items| - 1] + [last];
      if InWindow(last, startTime, endTime) then init + [last] else init
  }

  /** What `analyze_feedback` returns apart from the float averages:
   *  `category_ratings` is kept as a rating total and a count per category. */
  datatype Analysis = Analysis(
    totalFeedback: nat,
    totalRating: int,
    categoryTotals: map<string, int>,
    categoryCounts: map<string, nat>,
    categoryDistribution: Tally.Counter<string>,
    ratingDistribution: Tally.Counter<int>,
    tagFrequency: Tally.Counter<string>)

  const ZeroRatings: Tally.Counter<int> := [(1, 0), (2, 0), (3, 0), (4, 0), (5, 0)]

  /** The result for no feedback at all. */
  const NoFeedback: Analysis := Analysis(0, 0, map[], map[], [], ZeroRatings, [])

  /** `d[k] += 1` for each tag in turn. */
  function BumpAll(c: Tally.Counter<string>, tags: seq<string>): Tally.Counter<string>
    decreases tags
  {
    if tags == [] then c else BumpAll(Tally.Bump(c, tags[0]), tags[1..])
  }

  /** One pass of the counting loop; a rating outside 1..5 is not a key of
   *  the rating distribution and raises KeyError. */
  function AddItem(a: Analysis, item: Item): Result<Analysis> {
    var c := item.category;
    if !Tally.HasKey(a.ratingDistribution, item.rating) then Err(KeyError)
    else Ok(a.(totalRating := a.totalRating + item.rating,
               categoryTotals := a.categoryTotals[c := (if c in a.categoryTotals then a.categoryTotals[c] else 0) + item.rating],
               categoryCounts := a.categoryCounts[c := (if c in a.categoryCounts then a.categoryCounts[c] else 0) + 1],
               categoryDistribution := Tally.Bump(a.categoryDistribution, c),
               ratingDistribution := Tally.Bump(a.ratingDistribution, item.rating),
               tagFrequency := BumpAll(a.tagFrequency, item.tags)))
  }

  /** An accumulator updated field by field as the loop body does is the
   *  result of `AddItem`. */
  lemma AddItemIs(a: Analysis, item: Item, total: int, count: nat, tags: Tally.Counter<string>)
    requires Tally.HasKey(a.ratingDistribution, item.rating)
    requires total == if item.category in a.categoryTotals then a.categoryTotals[item.category] else 0
    requires count == if item.category in a.categoryCounts then a.categoryCounts[item.category] else 0
    requires tags == BumpAll(a.tagFrequency, item.tags)
    ensures AddItem(a, item) ==
            Ok(Analysis(a.totalFeedback, a.totalRating + item.rating,
                        a.categoryTotals[item.category := total + item.rating],
                        a.categoryCounts[item.category := count + 1],
                        Tally.Bump(a.categoryDistribution, item.category),
                        Tally.Bump(a.ratingDistribution, item.rating), tags))
  {
  }

  /** The counting loop from accumulator `a` over `items`. */
  function AccumulateFrom(a: Analysis, items: seq<Item>): Result<Analysis>
    decreases items
  {
    if items == [] then Ok(a)
    else
      var next :- AddItem(a, items[0]);
      AccumulateFrom(next, items[1..])
  }

  /** `analyze_feedback` with the listing `order`: an empty template ID
   *  raises ValueError; no feedback in the window gives `NoFeedback`. */
  function AnalyzeSpec(store: Store, order: seq<string>, templateId: string, startTime: string, endTime: string): Result<Analysis> {
    if templateId == "" then Err(ValueError)
    else
      var listed := Select(store, order, templateId, "", []);
      var items := if startTime != "" || endTime != "" then Window(listed, startTime, endTime) else listed;
      if items == [] then Ok(NoFeedback)
      else
        var a :- AccumulateFrom(NoFeedback, items);
        Ok(a.(totalFeedback := |items|))
  }

  function CategoriesOf(items: seq<Item>): seq<string> {
    seq(|items|, i requires 0 <= i < |items| => items[i].category)
  }

  function RatingsOf(items: seq<Item>): seq<int> {
    seq(|items|, i requires 0 <= i < |items| => items[i].rating)
  }

  /** The number of tags over all items, repeats included. */
  function TagCount(items: seq<Item>): nat {
    if items == [] then 0 else |items[0].tags| + TagCount(items[1..])
  }

  /** Each `d[k] += 1` adds one to the total. */
  lemma {:induction false} BumpAllTotal(c: Tally.Counter<string>, tags: seq<string>)
    ensures Tally.Total(BumpAll(c, tags)) == Tally.Total(c) + |tags|
    ensures Tally.KeysDistinct(c) ==> Tally.KeysDistinct(BumpAll(c, tags))
    decreases tags
  {
    if tags != [] {
      Tally.BumpTotal(c, tags[0]);
      if Tally.KeysDistinct(c) {
        Tally.BumpDistinct(c, tags[0]);
      }
      BumpAllTotal(Tally.Bump(c, tags[0]), tags[1..]);
    }
  }

  /** The counting loop succeeds exactly when every rating is in 1..5 (given
   *  a rating distribution with exactly those keys). */
  lemma {:induction false} AccumulateSucceeds(a: Analysis, items: seq<Item>)
    requires forall r :: Tally.HasKey(a.ratingDistribution, r) <==> 1 <= r <= 5
    ensures AccumulateFrom(a, items).Ok? <==> forall i :: 0 <= i < |items| ==> 1 <= items[i].rating <= 5
    decreases items
  {
    if items != [] {
      var n := AddItem(a, items[0]);
      if n.Ok? {
        forall r ensures Tally.HasKey(n.value.ratingDistribution, r) <==> 1 <= r <= 5 {
          Tally.BumpKeys(a.ratingDistribution, items[0].rating, r);
        }
        AccumulateSucceeds(n.value, items[1..]);
        assert forall i :: 1 <= i < |items| ==> items[i] == items[1..][i - 1];
      }
    }
  }

  /** A key the counter does not hold counts zero. */
  lemma {:induction false} AbsentCountsZero<K>(c: Tally.Counter<K>, k: K)
    requires !Tally.HasKey(c, k)
    ensures Tally.Get(c, k) == 0
  {
    if c != [] {
      AbsentCountsZero(c[1..], k);
    }
  }

  /** One pass of the counting loop adds one to each distribution, at the
   *  item's category and rating, and one tag frequency per tag. */
  lemma AddItemCounts(a: Analysis, item: Item)
    requires AddItem(a, item).Ok?
    ensures var n := AddItem(a, item).value;
            Tally.Total(n.categoryDistribution) == Tally.Total(a.categoryDistribution) + 1 &&
            Tally.Total(n.ratingDistribution) == Tally.Total(a.ratingDistribution) + 1 &&
            Tally.Total(n.tagFrequency) == Tally.Total(a.tagFrequency) + |item.tags| &&
            (Tally.KeysDistinct(a.categoryDistribution) ==> Tally.KeysDistinct(n.categoryDistribution)) &&
            (Tally.KeysDistinct(a.tagFrequency) ==> Tally.KeysDistinct(n.tagFrequency)) &&
            (forall c :: Tally.HasKey(n.categoryDistribution, c) <==> Tally.HasKey(a.categoryDistribution, c) || c == item.category) &&
            (forall c :: Tally.Get(n.categoryDistribution, c) == Tally.Get(a.categoryDistribution, c) + (if c == item.category then 1 else 0)) &&
            (forall r :: Tally.Get(n.ratingDistribution, r) == Tally.Get(a.ratingDistribution, r) + (if r == item.rating then 1 else 0))
  {
    Tally.BumpTotal(a.categoryDistribution, item.category);
    Tally.BumpTotal(a.ratingDistribution, item.rating);
    if Tally.KeysDistinct(a.categoryDistribution) {
      Tally.BumpDistinct(a.categoryDistribution, item.category);
    }
    BumpAllTotal(a.tagFrequency, item.tags);
    forall c ensures Tally.HasKey(Tally.Bump(a.categoryDistribution, item.category), c) <==> Tally.HasKey(a.categoryDistribution, c) || c == item.category
             ensures Tally.Get(Tally.Bump(a.categoryDistribution, item.category), c) == Tally.Get(a.categoryDistribution, c) + (if c == item.category then 1 else 0)
    {
      Tally.BumpKeys(a.categoryDistribution, item.category, c);
      Tally.BumpGet(a.categoryDistribution, item.category, c);
    }
    forall r ensures Tally.Get(Tally.Bump(a.ratingDistribution, item.rating), r) == Tally.Get(a.ratingDistribution, r) + (if r == item.rating then 1 else 0) {
      Tally.BumpGet(a.ratingDistribution, item.rating, r);
    }
  }

  /** Each category's count in `category_ratings` is its entry in
   *  `category_distribution`, and both know the same categories. */
  ghost predicate CountsAgree(a: Analysis) {
    Tally.KeysDistinct(a.categoryDistribution) &&
    a.categoryTotals.Keys == a.categoryCounts.Keys &&
    (forall c :: c in a.categoryCounts <==> Tally.HasKey(a.categoryDistribution, c)) &&
    (forall c :: c in a.categoryCounts ==> a.categoryCounts[c] == Tally.Get(a.categoryDistribution, c))
  }

  /** The counting loop keeps the category counts and the category
   *  distribution in step. */
  lemma {:induction false} AccumulateKeepsCountsAgree(a: Analysis, items: seq<Item>)
    requires AccumulateFrom(a, items).Ok? && CountsAgree(a)
    ensures CountsAgree(AccumulateFrom(a, items).value)
    decreases items
  {
    if items != [] {
      var item := items[0];
      var n := AddItem(a, item).value;
      AddItemCounts(a, item);
      if !Tally.HasKey(a.categoryDistribution, item.category) {
        AbsentCountsZero(a.categoryDistribution, item.category);
      }
      assert CountsAgree(n);
      AccumulateKeepsCountsAgree(n, items[1..]);
    }
  }

  /** The counting loop adds one per item to each distribution and one per
   *  tag to the tag frequencies. */
  lemma {:induction false} AccumulateTotals(a: Analysis, items: seq<Item>)
    requires AccumulateFrom(a, items).Ok?
    ensures var r := AccumulateFrom(a, items).value;
            Tally.Total(r.categoryDistribution) == Tally.Total(a.categoryDistribution) + |items| &&
            Tally.Total(r.ratingDistribution) == Tally.Total(a.ratingDistribution) + |items| &&
            Tally.Total(r.tagFrequency) == Tally.Total(a.tagFrequency) + TagCount(items)
    decreases items
  {
    if items != [] {
      AddItemCounts(a, items[0]);
      AccumulateTotals(AddItem(a, items[0]).value, items[1..]);
    }
  }

  /** Each distribution entry grows by the number of items with that
   *  category or rating. */
  lemma {:induction false} AccumulateOccurrences(a: Analysis, items: seq<Item>)
    requires AccumulateFrom(a, items).Ok?
    ensures var r := AccumulateFrom(a, items).value;
            (forall c :: Tally.Get(r.categoryDistribution, c) == Tally.Get(a.categoryDistribution, c) + Tally.Occurrences(CategoriesOf(items), c)) &&
            (forall n :: Tally.Get(r.ratingDistribution, n) == Tally.Get(a.ratingDistribution, n) + Tally.Occurrences(RatingsOf(items), n))
    decreases items
  {
    if items != [] {
      var item, rest := items[0], items[1..];
      AddItemCounts(a, item);
      AccumulateOccurrences(AddItem(a, item).value, rest);
      assert CategoriesOf(items) == [item.category] + CategoriesOf(rest);
      assert RatingsOf(items) == [item.rating] + RatingsOf(rest);
    }
  }

  /** `analyze_feedback` on a valid store succeeds for a non-empty template
   *  ID; both distributions add up to `total_feedback`, the tag frequencies
   *  to the number of tags, and each category's count is its distribution
   *  entry, which counts the items of that category. */
  lemma AnalysisAddsUp(store: Store, order: seq<string>, templateId: string, startTime: string, endTime: string)
    requires Valid(store)
    ensures AnalyzeSpec(store, order, templateId, startTime, endTime).Ok? <==> templateId != ""
    ensures var r := AnalyzeSpec(store, order, templateId, startTime, endTime);
            r.Ok? ==>
              var a := r.value;
              Tally.Total(a.categoryDistribution) == a.totalFeedback &&
              Tally.Total(a.ratingDistribution) == a.totalFeedback &&
              (forall c :: c in a.categoryCounts ==> a.categoryCounts[c] == Tally.Get(a.categoryDistribution, c)) &&
              (forall c :: c in a.categoryCounts <==> Tally.HasKey(a.categoryDistribution, c))
  {
    if templateId != "" {
      var listed := Select(store, order, templateId, "", []);
      var items := if startTime != "" || endTime != "" then Window(listed, startTime, endTime) else listed;
      if items != [] {
        forall i | 0 <= i < |items| ensures 1 <= items[i].rating <= 5 {
          SelectMembers(store, order, templateId, "", [], items[i]);
        }
        AccumulateSucceeds(NoFeedback, items);
        AccumulateTotals(NoFeedback, items);
        AccumulateKeepsCountsAgree(NoFeedback, items);
      }
    }
  }

  /** With no feedback for the template, the analysis is all zeros: no
   *  categories, no tags, and a zero count for each rating 1..5. */
  lemma NoFeedbackIsZero(store: Store, order: seq<string>, templateId: string)
    requires templateId != ""
    requires forall id :: id in order && id in store ==> store[id].templateId != templateId
    ensures AnalyzeSpec(store, order, templateId, "", "") == Ok(NoFeedback)
    ensures NoFeedback.totalFeedback == 0 && NoFeedback.categoryDistribution == [] && NoFeedback.tagFrequency == []
    ensures forall n :: 1 <= n <= 5 ==> Tally.HasKey(NoFeedback.ratingDistribution, n) && Tally.Get(NoFeedback.ratingDistribution, n) == 0
  {
    var listed := Select(store, order, templateId, "", []);
    if listed != [] {
      SelectMembers(store, order, templateId, "", [], listed[0]);
    }
  }

  /** The fields of an imported item as `submit_feedback` is given them. A
   *  falsy template ID or a non-string category fail its checks. */
  function TextOf(v: Value): Result<string> {
    if v.VStr? then Ok(v.s) else if !Truthy(v) then Ok("") else Err(TypeError)
  }

  function TagsOf(v: Value): Result<seq<string>> {
    if !Truthy(v) then Ok([])
    else if v.VList? && forall i :: 0 <= i < |v.items| ==> v.items[i].VStr? then
      Ok(seq(|v.items|, i requires 0 <= i < |v.items| && v.items[i].VStr? => v.items[i].s))
    else Err(TypeError)
  }

  /** One pass of the `import_feedback` loop: the item must be a dict with
   *  `template_id`, `category` and `rating`; then it is submitted. */
  function ImportOne(store: Store, item: Value, feedbackId: string, now: string): (Result<string>, Store) {
    if !item.VDict? then (Err(ValueError), store)
    else
      var d := item.entries;
      if VStr("template_id") !in d || VStr("category") !in d || VStr("rating") !in d then (Err(ValueError), store)
      else
        var content := Get(d, "content", Get(d, "comment", VStr("")));
        var category := d[VStr("category")];
        match (TextOf(d[VStr("template_id")]), TextOf(content), TagsOf(Get(d, "tags", VList([]))))
        case (Ok(templateId), Ok(comment), Ok(tags)) =>
          SubmitStep(store, feedbackId, now, templateId, if category.VStr? then category.s else "",
                     d[VStr("rating")], comment, tags, Get(d, "metadata", VDict(map[])))
        case _ => (Err(TypeError), store)
  }

  /** `import_feedback` from item `i` on; the items before a failing one stay
   *  stored. */
  function ImportFrom(store: Store, items: seq<Value>, ids: seq<string>, now: string): (Result<seq<string>>, Store)
    requires |ids| == |items|
    decreases items
  {
    if items == [] then (Ok([]), store)
    else
      var (r, next) := ImportOne(store, items[0], ids[0], now);
      if r.Err? then (Err(r.error), next)
      else
        var (rest, last) := ImportFrom(next, items[1..], ids[1..], now);
        (if rest.Ok? then Ok([r.value] + rest.value) else rest, last)
  }

  /** The outcome of the rest of an import once the IDs `done` are in. */
  function After(done: seq<string>, rest: (Result<seq<string>>, Store)): (Result<seq<string>>, Store) {
    (if rest.0.Ok? then Ok(done + rest.0.value) else rest.0, rest.1)
  }

  /** The first pass of the import loop, then the rest. */
  lemma ImportUnfold(store: Store, items: seq<Value>, ids: seq<string>, now: string)
    requires |ids| == |items| && items != []
    ensures ImportFrom(store, items, ids, now) ==
            var (one, next) := ImportOne(store, items[0], ids[0], now);
            if one.Err? then (Err(one.error), next) else After([one.value], ImportFrom(next, items[1..], ids[1..], now))
  {
  }

  lemma AfterAfter(done: seq<string>, id: string, rest: (Result<seq<string>>, Store))
    ensures After(done, After([id], rest)) == After(done + [id], rest)
  {
    if rest.0.Ok? {
      assert done + ([id] + rest.0.value) == (done + [id]) + rest.0.value;
    }
  }

  /** `import_feedback`: anything but a list raises ValueError. */
  function ImportStep(store: Store, data: Value, ids: seq<string>, now: string): (Result<seq<string>>, Store)
    requires data.VList? ==> |ids| == |data.items|
  {
    if !data.VList? then (Err(ValueError), store) else ImportFrom(store, data.items, ids, now)
  }

  /** An item lacking a required field is refused with ValueError and
   *  stores nothing. */
  lemma ImportNeedsRequiredFields(store: Store, d: map<Value, Value>, feedbackId: string, now: string, field: string)
    requires field in ["template_id", "category", "rating"] && VStr(field) !in d
    ensures ImportOne(store, VDict(d), feedbackId, now) == (Err(ValueError), store)
  {
  }

  /** One imported item, when accepted, is stored under its ID and nothing
   *  else is added; a refused one changes nothing. */
  lemma ImportOneKeys(store: Store, item: Value, feedbackId: string, now: string)
    ensures var (r, next) := ImportOne(store, item, feedbackId, now);
            next.Keys == store.Keys + (if r.Ok? then {feedbackId} else {}) &&
            (r.Ok? ==> r.value == feedbackId && next[feedbackId].feedbackId == feedbackId) &&
            (r.Err? ==> next == store)
  {
  }

  /** One imported item keeps the store valid. */
  lemma ImportOneKeepsValid(store: Store, item: Value, feedbackId: string, now: string)
    requires Valid(store)
    ensures Valid(ImportOne(store, item, feedbackId, now).1)
  {
    if item.VDict? {
      var d := item.entries;
      if VStr("template_id") in d && VStr("category") in d && VStr("rating") in d {
        var content := Get(d, "content", Get(d, "comment", VStr("")));
        var category := d[VStr("category")];
        match (TextOf(d[VStr("template_id")]), TextOf(content), TagsOf(Get(d, "tags", VList([]))))
        case (Ok(templateId), Ok(comment), Ok(tags)) =>
          StepsKeepValid(store, feedbackId, now, templateId, if category.VStr? then category.s else "",
                         d[VStr("rating")], comment, tags, Get(d, "metadata", VDict(map[])), "");
        case _ =>
      }
    }
  }

  /** Importing keeps the store valid and never removes an item. */
  lemma {:induction false} ImportKeepsValid(store: Store, items: seq<Value>, ids: seq<string>, now: string)
    requires |ids| == |items| && Valid(store)
    ensures Valid(ImportFrom(store, items, ids, now).1)
    decreases items
  {
    if items != [] {
      ImportOneKeepsValid(store, items[0], ids[0], now);
      var one := ImportOne(store, items[0], ids[0], now);
      if one.0.Ok? {
        ImportKeepsValid(one.1, items[1..], ids[1..], now);
      }
    }
  }

  /** A successful import returns the IDs it was given and stores an item
   *  under each. */
  lemma {:induction false} ImportReturnsIds(store: Store, items: seq<Value>, ids: seq<string>, now: string)
    requires |ids| == |items|
    ensures var (r, after) := ImportFrom(store, items, ids, now);
            r.Ok? ==> r.value == ids && forall i :: 0 <= i < |ids| ==> ids[i] in after
    decreases items
  {
    if items != [] {
      ImportOneKeys(store, items[0], ids[0], now);
      var one := ImportOne(store, items[0], ids[0], now);
      if one.0.Ok? {
        var rest := ImportFrom(one.1, items[1..], ids[1..], now);
        ImportReturnsIds(one.1, items[1..], ids[1..], now);
        if rest.0.Ok? {
          assert ids == [ids[0]] + ids[1..];
          ImportKeepsKeys(one.1, items[1..], ids[1..], now, ids[0]);
          forall i | 0 <= i < |ids|
            ensures ids[i] in rest.1
          {
            if i > 0 {
              assert ids[i] == ids[1..][i - 1];
            }
          }
        }
      }
    }
  }

  /** A successful import returns the IDs it was given, stores an item under
   *  each, and keeps the store valid either way. */
  lemma ImportStoresAll(store: Store, items: seq<Value>, ids: seq<string>, now: string)
    requires |ids| == |items| && Valid(store)
    ensures var (r, after) := ImportFrom(store, items, ids, now);
            Valid(after) && store.Keys <= after.Keys &&
            (r.Ok? ==> r.value == ids && forall i :: 0 <= i < |ids| ==> ids[i] in after)
  {
    ImportKeepsValid(store, items, ids, now);
    ImportReturnsIds(store, items, ids, now);
    forall id | id in store
      ensures id in ImportFrom(store, items, ids, now).1
    {
      ImportKeepsKeys(store, items, ids, now, id);
    }
  }

  /** Importing never removes an item. */
  lemma {:induction false} ImportKeepsKeys(store: Store, items: seq<Value>, ids: seq<string>, now: string, id: string)
    requires |ids| == |items|
    requires id in store
    ensures id in ImportFrom(store, items, ids, now).1
    decreases items
  {
    if items != [] {
      var (r, next) := ImportOne(store, items[0], ids[0], now);
      if r.Ok? {
        ImportKeepsKeys(next, items[1..], ids[1..], now, id);
      }
    }
  }

  class FeedbackManager {
    var store: Store

    constructor ()
      ensures store == map[]
    {
      store := map[];
    }

    method SubmitFeedback(feedbackId: string, now: string, templateId: string, category: string, rating: Value,
                          comment: string, tags: seq<string>, metadata: Value) returns (r: Result<string>)
      modifies this
      ensures (r, store) == SubmitStep(old(store), feedbackId, now, templateId, category, rating, comment, tags, metadata)
    {
      var checked := CheckSubmission(templateId, category, rating);
      if checked.Err? {
        return Err(checked.error);
      }
      var stored := if Truthy(metadata) then metadata else VDict(map[]);
      store := store[feedbackId := Item(feedbackId, templateId, category, checked.value, comment, tags, stored, now, None, None, None)];
      return Ok(feedbackId);
    }

    function GetFeedback(feedbackId: string): (r: Result<Item>)
      reads this
      ensures r == GetStep(store, feedbackId)
    {
      GetStep(store, feedbackId)
    }

    /** `list_feedback`, walking the directory listing `order`. */
    method ListFeedback(order: seq<string>, templateId: string, category: string, tags: seq<string>)
      returns (items: seq<Item>)
      ensures items == Select(store, order, templateId, category, tags)
    {
      items := [];
      var i := 0;
      while i < |order|
        invariant i <= |order|
        invariant items == Select(store, order[..i], templateId, category, tags)
      {
        assert order[..i + 1][..i] == order[..i];
        var id := order[i];
        if id in store && Matches(store[id], templateId, category, tags) {
          items := items + [store[id]];
        }
        i := i + 1;
      }
      assert order[..i] == order;
    }

    method RespondToFeedback(feedbackId: string, response: string, now: string) returns (r: Outcome)
      modifies this
      ensures (r, store) == RespondStep(old(store), feedbackId, response, now)
    {
      if feedbackId == "" || response == "" {
        return Fail(ValueError);
      }
      if feedbackId !in store {
        return Fail(KeyError);
      }
      var item := store[feedbackId];
      store := store[feedbackId := item.(response := Some(response), responseTime := Some(now), status := Some("responded"))];
      return Pass;
    }

    method DeleteFeedback(feedbackId: string) returns (r: Outcome)
      modifies this
      ensures (r, store) == DeleteStep(old(store), feedbackId)
    {
      if feedbackId == "" || feedbackId !in store {
        return Fail(ValueError);
      }
      store := store - {feedbackId};
      return Pass;
    }

    /** `analyze_feedback`: list, filter by time, then count. */
    method AnalyzeFeedback(order: seq<string>, templateId: string, startTime: string, endTime: string)
      returns (r: Result<Analysis>)
      ensures r == AnalyzeSpec(store, order, templateId, startTime, endTime)
    {
      if templateId == "" {
        return Err(ValueError);
      }
      var items := ListFeedback(order, templateId, "", []);
      if startTime != "" || endTime != "" {
        items := FilterWindow(items, startTime, endTime);
      }
      if items == [] {
        return Ok(NoFeedback);
      }
      var counted := Count(items);
      if counted.Err? {
        return Err(counted.error);
      }
      return Ok(counted.value.(totalFeedback := |items|));
    }

    method ImportFeedback(data: Value, ids: seq<string>, now: string) returns (r: Result<seq<string>>)
      requires data.VList? ==> |ids| == |data.items|
      modifies this
      ensures (r, store) == ImportStep(old(store), data, ids, now)
    {
      if !data.VList? {
        return Err(ValueError);
      }
      var items := data.items;
      var done: seq<string> := [];
      var i := 0;
      assert items[0..] == items && ids[0..] == ids;
      var whole := ImportFrom(store, items, ids, now);
      if whole.0.Ok? {
        assert [] + whole.0.value == whole.0.value;
      }
      while i < |items|
        invariant i <= |items| && done == ids[..i]
        invariant ImportFrom(old(store), items, ids, now) == After(done, ImportFrom(store, items[i..], ids[i..], now))
      {
        var (one, next) := ImportOne(store, items[i], ids[i], now);
        ImportUnfold(store, items[i..], ids[i..], now);
        assert items[i..][1..] == items[i + 1..] && ids[i..][1..] == ids[i + 1..];
        store := next;
        if one.Err? {
          return Err(one.error);
        }
        assert ids[..i + 1] == ids[..i] + [one.value];
        AfterAfter(done, one.value, ImportFrom(store, items[i + 1..], ids[i + 1..], now));
        done := done + [one.value];
        i := i + 1;
      }
      assert ids[..i] == ids && items[i..] == [] && ids[i..] == [];
      assert done + [] == done;
      return Ok(done);
    }
  }

  /** The time-window loop of `analyze_feedback`. */
  method FilterWindow(items: seq<Item>, startTime: string, endTime: string) returns (kept: seq<Item>)
    ensures kept == Window(items, startTime, endTime)
  {
    kept := [];
    var i := 0;
    while i < |items|
      invariant i <= |items|
      invariant kept == Window(items[..i], startTime, endTime)
    {
      assert items[..i + 1][..i] == items[..i];
      if InWindow(items[i], startTime, endTime) {
        kept := kept + [items[i]];
      }
      i := i + 1;
    }
    assert items[..i] == items;
  }

  /** The counting loop of `analyze_feedback`. */
  method Count(items: seq<Item>) returns (r: Result<Analysis>)
    ensures r == AccumulateFrom(NoFeedback, items)
  {
    var a := NoFeedback;
    var i := 0;
    while i < |items|
      invariant i <= |items|
      invariant AccumulateFrom(NoFeedback, items) == AccumulateFrom(a, items[i..])
    {
      var item := items[i];
      assert items[i..][1..] == items[i + 1..];
      if !Tally.HasKey(a.ratingDistribution, item.rating) {
        return Err(KeyError);
      }
      var c := item.category;
      var total := if c in a.categoryTotals then a.categoryTotals[c] else 0;
      var count := if c in a.categoryCounts then a.categoryCounts[c] else 0;
      var tags := CountTags(a.tagFrequency, item.tags);
      var next := Analysis(a.totalFeedback, a.totalRating + item.rating,
                           a.categoryTotals[c := total + item.rating], a.categoryCounts[c := count + 1],
                           Tally.Bump(a.categoryDistribution, c), Tally.Bump(a.ratingDistribution, item.rating), tags);
      AddItemIs(a, item, total, count, tags);
      a := next;
      i := i + 1;
    }
    return Ok(a);
  }

  /** The tag loop inside the counting loop. */
  method CountTags(frequency: Tally.Counter<string>, tags: seq<string>) returns (r: Tally.Counter<string>)
    ensures r == BumpAll(frequency, tags)
  {
    r := frequency;
    var j := 0;
    while j < |tags|
      invariant j <= |tags|
      invariant BumpAll(r, tags[j..]) == BumpAll(frequency, tags)
    {
      assert tags[j..][1..] == tags[j + 1..];
      r := Tally.Bump(r, tags[j]);
      j := j + 1;
    }
  }
}
