/** `LiteratureCollector`: papers gathered from named literature sources as
 *  metadata dicts, filtered by citation count, stored per query and
 *  summarised as year and citation distributions. */
module LiteratureCollectors {
  import opened Wrappers
  import opened PyValue
  import Tally

  /** `LiteratureMetadata`. A dataclass does not check its field types, so
   *  each field holds whatever value it was given. */
  datatype Metadata = Metadata(
    title: Value, authors: Value, year: Value,
    journal: Value, doi: Value, url: Value, abstractText: Value, keywords: Value,
    citations: Value, references: Value, pdfPath: Value, source: Value, venue: Value)

  /** A paper: a metadata dict. */
  type Paper = map<string, Value>

  const FieldNames: set<string> :=
    {"title", "authors", "year", "journal", "doi", "url", "abstract", "keywords",
     "citations", "references", "pdf_path", "source", "venue"}

  /** The metadata field a dict key names. */
  function Field(m: Metadata, key: string): Value {
    if key == "title" then m.title
    else if key == "authors" then m.authors
    else if key == "year" then m.year
    else if key == "journal" then m.journal
    else if key == "doi" then m.doi
    else if key == "url" then m.url
    else if key == "abstract" then m.abstractText
    else if key == "keywords" then m.keywords
    else if key == "citations" then m.citations
    else if key == "references" then m.references
    else if key == "pdf_path" then m.pdfPath
    else if key == "source" then m.source
    else m.venue
  }

  /** `_metadata_to_dict`: one key per field. */
  function MetadataToDict(m: Metadata): Paper {
    map key | key in FieldNames :: Field(m, key)
  }

  /** `data.get(key)` */
  function GetOrNone(d: Paper, key: string): Value {
    if key in d then d[key] else VNone
  }

  /** `_dict_to_metadata`: title, authors and year are indexed (KeyError
   *  when missing), the other fields default to None. */
  function DictToMetadata(d: Paper): Result<Metadata> {
    if "title" !in d || "authors" !in d || "year" !in d then Err(KeyError)
    else Ok(Metadata(d["title"], d["authors"], d["year"],
                     GetOrNone(d, "journal"), GetOrNone(d, "doi"), GetOrNone(d, "url"),
                     GetOrNone(d, "abstract"), GetOrNone(d, "keywords"), GetOrNone(d, "citations"),
                     GetOrNone(d, "references"), GetOrNone(d, "pdf_path"), GetOrNone(d, "source"),
                     GetOrNone(d, "venue")))
  }

  /** Converting metadata to a dict and back gives the same metadata. */
  lemma MetadataRoundTrip(m: Metadata)
    ensures MetadataToDict(m).Keys == FieldNames
    ensures DictToMetadata(MetadataToDict(m)) == Ok(m)
  {
  }

  /** Converting a dict to metadata fails exactly when title, authors or
   *  year is missing; converting back keeps every field the dict has, sets
   *  the missing ones to None and drops every other key. */
  lemma DictRoundTrip(d: Paper)
    ensures DictToMetadata(d).Ok? <==> "title" in d && "authors" in d && "year" in d
    ensures DictToMetadata(d).Err? ==> DictToMetadata(d).error == KeyError
    ensures DictToMetadata(d).Ok? ==>
              var back := MetadataToDict(DictToMetadata(d).value);
              back.Keys == FieldNames && forall f :: f in FieldNames ==> back[f] == GetOrNone(d, f)
  {
    if DictToMetadata(d).Ok? {
      var m := DictToMetadata(d).value;
      assert m == Metadata(GetOrNone(d, "title"), GetOrNone(d, "authors"), GetOrNone(d, "year"),
                           GetOrNone(d, "journal"), GetOrNone(d, "doi"), GetOrNone(d, "url"),
                           GetOrNone(d, "abstract"), GetOrNone(d, "keywords"), GetOrNone(d, "citations"),
                           GetOrNone(d, "references"), GetOrNone(d, "pdf_path"), GetOrNone(d, "source"),
                           GetOrNone(d, "venue"));
      forall f | f in FieldNames
        ensures Field(m, f) == GetOrNone(d, f)
      {
        if f != "title" && f != "authors" && f != "year" && f != "journal" && f != "doi" && f != "url" &&
           f != "abstract" && f != "keywords" && f != "citations" && f != "references" && f != "pdf_path" &&
           f != "source" {
          assert f == "venue";
        }
      }
    }
  }

  /** A dict with exactly the metadata fields survives the round trip. */
  lemma DictRoundTripExact(d: Paper)
    requires d.Keys == FieldNames
    ensures DictToMetadata(d).Ok? && MetadataToDict(DictToMetadata(d).value) == d
  {
    DictRoundTrip(d);
    var back := MetadataToDict(DictToMetadata(d).value);
    assert forall f :: f in d ==> back[f] == d[f];
  }

  // ---------------------------------------------------------------- filter

  /** `p.get("citations", 0) >= min_citations` */
  function MeetsMinimumAsWritten(p: Paper, minimum: int): Result<bool> {
    AtLeast(if "citations" in p then p["citations"] else VInt(0), VInt(minimum))
  }

  /** `filter_papers` as written: the first comparison that raises ends the
   *  comprehension with its error. */
  function FilterPapersAsWritten(papers: seq<Paper>, minimum: Option<int>): (r: Result<seq<Paper>>)
    ensures minimum.None? ==> r == Ok(papers)
    ensures r.Ok? ==> |r.value| <= |papers| && forall p :: p in r.value ==> p in papers
  {
    if minimum.None? || papers == [] then Ok(papers)
    else
      var keep :- MeetsMinimumAsWritten(papers[0], minimum.value);
      var rest :- FilterPapersAsWritten(papers[1..], minimum);
      Ok(if keep then [papers[0]] + rest else rest)
  }

  /** Metadata without a citation count gives a dict whose "citations" is
   *  None, and filtering such a paper by any minimum raises TypeError. */
  lemma UncountedPaperBreaksFilter(m: Metadata, minimum: int)
    requires m.citations == VNone
    ensures FilterPapersAsWritten([MetadataToDict(m)], Some(minimum)) == Err(TypeError)
  {
  }

  /** The citation count of a paper: missing or None count as 0. */
  function CitationsOf(p: Paper): (c: Value)
    ensures CountedOrNot(p) ==> IsNumber(c)
  {
    if "citations" !in p || p["citations"] == VNone then VInt(0) else p["citations"]
  }

  /** `filter_papers`, with a missing or None citation count read as 0. */
  function FilterPapers(papers: seq<Paper>, minimum: Option<int>): (r: Result<seq<Paper>>)
    ensures minimum.None? ==> r == Ok(papers)
    ensures r.Ok? ==> |r.value| <= |papers| && forall p :: p in r.value ==> p in papers
  {
    if minimum.None? || papers == [] then Ok(papers)
    else
      var keep :- AtLeast(CitationsOf(papers[0]), VInt(minimum.value));
      var rest :- FilterPapers(papers[1..], minimum);
      Ok(if keep then [papers[0]] + rest else rest)
  }

  /** When no paper's "citations" is None, the filter as written and the
   *  corrected one agree, results and errors alike. */
  lemma {:induction false} FilterAgreesWithoutNone(papers: seq<Paper>, minimum: Option<int>)
    requires forall k :: 0 <= k < |papers| && "citations" in papers[k] ==> papers[k]["citations"] != VNone
    ensures FilterPapersAsWritten(papers, minimum) == FilterPapers(papers, minimum)
  {
    if minimum.Some? && papers != [] {
      assert forall k :: 0 <= k < |papers[1..]| ==> papers[1..][k] == papers[k + 1];
      FilterAgreesWithoutNone(papers[1..], minimum);
      assert MeetsMinimumAsWritten(papers[0], minimum.value) == AtLeast(CitationsOf(papers[0]), VInt(minimum.value));
    }
  }

  /** The citation count is a number, or a missing or None one. */
  predicate CountedOrNot(p: Paper) {
    "citations" !in p || p["citations"] == VNone || IsNumber(p["citations"])
  }

  /** Without a minimum every paper is kept. With one, when every citation
   *  count is a number, missing or None, the filter does not raise and keeps
   *  exactly, in order, the papers whose count (0 when missing) reaches the
   *  minimum. */
  lemma {:induction false} FilterKeepsReached(papers: seq<Paper>, minimum: Option<int>)
    ensures minimum.None? ==> FilterPapers(papers, minimum) == Ok(papers)
    ensures minimum.Some? && (forall k :: 0 <= k < |papers| ==> CountedOrNot(papers[k])) ==>
              FilterPapers(papers, minimum).Ok? &&
              FilterPapers(papers, minimum).value ==
                Kept(papers, minimum.value)
  {
    if minimum.Some? && papers != [] {
      FilterKeepsReached(papers[1..], minimum);
      if forall k :: 0 <= k < |papers| ==> CountedOrNot(papers[k]) {
        assert forall k :: 0 <= k < |papers[1..]| ==> papers[1..][k] == papers[k + 1];
        assert CountedOrNot(papers[0]);
        AtLeastOnNumbers(CitationsOf(papers[0]), minimum.value);
      }
    }
  }

  /** The papers whose citation count, read as a number, reaches `minimum`. */
  function Kept(papers: seq<Paper>, minimum: int): (r: seq<Paper>)
    requires forall k :: 0 <= k < |papers| ==> CountedOrNot(papers[k])
    ensures |r| <= |papers|
    ensures forall p :: p in r ==> p in papers && NumberOf(CitationsOf(p)) >= minimum as real
  {
    if papers == [] then []
    else
      assert forall k :: 0 <= k < |papers[1..]| ==> papers[1..][k] == papers[k + 1];
      var rest := Kept(papers[1..], minimum);
      if NumberOf(CitationsOf(papers[0])) >= minimum as real then [papers[0]] + rest else rest
  }

  /** `a >= b` between a number and an int compares them numerically. */
  lemma AtLeastOnNumbers(a: Value, minimum: int)
    requires IsNumber(a)
    ensures AtLeast(a, VInt(minimum)) == Ok(NumberOf(a) >= minimum as real)
  {
  }

  // ------------------------------------------------------------ statistics

  /** `paper.get("citations", 0)` */
  function CitationKey(p: Paper): Value {
    if "citations" in p then p["citations"] else VInt(0)
  }

  /** `paper.get("year")` */
  function YearKey(p: Paper): Value {
    GetOrNone(p, "year")
  }

  /** The year loop of `get_collection_statistics` over `papers`: papers
   *  with a falsy year are skipped, and a year that cannot be a dict key
   *  raises TypeError. */
  function YearCounts(papers: seq<Paper>): Result<Tally.Counter<Value>> {
    if papers == [] then Ok([])
    else
      var init :- YearCounts(papers[..|papers| - 1]);
      var year := YearKey(papers[|papers| - 1]);
      if !Truthy(year) then Ok(init)
      else if !Hashable(year) then Err(TypeError)
      else Ok(Tally.Bump(init, year))
  }

  /** The citation loop of `get_collection_statistics` over `papers`. */
  function CitationCounts(papers: seq<Paper>): Result<Tally.Counter<Value>> {
    if papers == [] then Ok([])
    else
      var init :- CitationCounts(papers[..|papers| - 1]);
      var c := CitationKey(papers[|papers| - 1]);
      if !Hashable(c) then Err(TypeError) else Ok(Tally.Bump(init, c))
  }

  /** How many of `papers` have year `y`, counting truthy years only. */
  function YearCount(papers: seq<Paper>, y: Value): nat {
    if papers == [] then 0
    else
      var year := YearKey(papers[|papers| - 1]);
      YearCount(papers[..|papers| - 1], y) + (if Truthy(year) && year == y then 1 else 0)
  }

  /** How many of `papers` have a truthy year. */
  function Dated(papers: seq<Paper>): nat {
    if papers == [] then 0
    else Dated(papers[..|papers| - 1]) + (if Truthy(YearKey(papers[|papers| - 1])) then 1 else 0)
  }

  /** How many of `papers` have citation key `c`. */
  function CitationCount(papers: seq<Paper>, c: Value): nat {
    if papers == [] then 0
    else CitationCount(papers[..|papers| - 1], c) + (if CitationKey(papers[|papers| - 1]) == c then 1 else 0)
  }

  /** The year counts fail exactly when some truthy year is unhashable;
   *  otherwise they give each year's number of papers and add up to the
   *  number of dated papers. */
  lemma {:induction false} YearCountsAddUp(papers: seq<Paper>)
    ensures YearCounts(papers).Ok? <==>
            forall k :: 0 <= k < |papers| && Truthy(YearKey(papers[k])) ==> Hashable(YearKey(papers[k]))
    ensures YearCounts(papers).Ok? ==>
              Tally.Total(YearCounts(papers).value) == Dated(papers) &&
              forall y :: Tally.Get(YearCounts(papers).value, y) == YearCount(papers, y)
  {
    if papers != [] {
      var init := papers[..|papers| - 1];
      var last := papers[|papers| - 1];
      YearCountsAddUp(init);
      assert forall k :: 0 <= k < |init| ==> init[k] == papers[k];
      var c := YearCounts(init);
      var year := YearKey(last);
      if c.Ok? && Truthy(year) && Hashable(year) {
        Tally.BumpTotal(c.value, year);
        forall u
          ensures Tally.Get(Tally.Bump(c.value, year), u) == YearCount(papers, u)
        {
          Tally.BumpGet(c.value, year, u);
        }
      }
    }
  }

  /** The citation counts fail exactly when some citation key is
   *  unhashable; otherwise they give each key's number of papers and add up
   *  to the number of papers. */
  lemma {:induction false} CitationCountsAddUp(papers: seq<Paper>)
    ensures CitationCounts(papers).Ok? <==> forall k :: 0 <= k < |papers| ==> Hashable(CitationKey(papers[k]))
    ensures CitationCounts(papers).Ok? ==>
              Tally.Total(CitationCounts(papers).value) == |papers| &&
              forall c :: Tally.Get(CitationCounts(papers).value, c) == CitationCount(papers, c)
  {
    if papers != [] {
      var init := papers[..|papers| - 1];
      var last := papers[|papers| - 1];
      CitationCountsAddUp(init);
      assert forall k :: 0 <= k < |init| ==> init[k] == papers[k];
      var c := CitationCounts(init);
      var key := CitationKey(last);
      if c.Ok? && Hashable(key) {
        Tally.BumpTotal(c.value, key);
        forall u
          ensures Tally.Get(Tally.Bump(c.value, key), u) == CitationCount(papers, u)
        {
          Tally.BumpGet(c.value, key, u);
        }
      }
    }
  }

  /** What `get_collection_statistics` returns: `{}` for an unknown query,
   *  else the paper count and the two distributions. */
  datatype Statistics =
    | NoStatistics
    | Statistics(totalPapers: nat, yearDistribution: Tally.Counter<Value>, citationDistribution: Tally.Counter<Value>)

  function StatisticsOf(collected: map<string, seq<Paper>>, query: string): Result<Statistics> {
    if query !in collected then Ok(NoStatistics)
    else
      var papers := collected[query];
      var years :- YearCounts(papers);
      var citations :- CitationCounts(papers);
      Ok(Statistics(|papers|, years, citations))
  }

  /** The citation distribution sums to `total_papers`, the year
   *  distribution to the number of dated papers; an unknown query gives
   *  `{}`. */
  lemma StatisticsAddUp(collected: map<string, seq<Paper>>, query: string)
    ensures query !in collected ==> StatisticsOf(collected, query) == Ok(NoStatistics)
    ensures var s := StatisticsOf(collected, query);
            s.Ok? && s.value.Statistics? ==>
              query in collected && s.value.totalPapers == |collected[query]| &&
              Tally.Total(s.value.citationDistribution) == s.value.totalPapers &&
              Tally.Total(s.value.yearDistribution) == Dated(collected[query])
  {
    if query in collected {
      YearCountsAddUp(collected[query]);
      CitationCountsAddUp(collected[query]);
    }
  }

  // ------------------------------------------------------------ collection

  /** A `LiteratureSource` object, known by identity; what its `search`
   *  returns is a parameter of the operations that call it. */
  type Source = nat

  type SearchFn = (Source, string, (int, int)) -> seq<Metadata>

  /** The dicts of the metadata `search` returns for `query` and `years`
   *  from each name in `names` that is a registered source, in order. */
  function Collected(sources: map<string, Source>, names: seq<string>, search: SearchFn,
                     query: string, years: (int, int)): seq<Paper>
  {
    if names == [] then []
    else
      var init := Collected(sources, names[..|names| - 1], search, query, years);
      var name := names[|names| - 1];
      if name !in sources then init
      else init + seq(|search(sources[name], query, years)|, k requires 0 <= k < |search(sources[name], query, years)| =>
                        MetadataToDict(search(sources[name], query, years)[k]))
  }

  /** Every collected paper is the dict of a result that a listed,
   *  registered source returned. */
  lemma {:induction false} CollectedFromSources(sources: map<string, Source>, names: seq<string>, search: SearchFn,
                                                 query: string, years: (int, int), p: Paper)
    requires p in Collected(sources, names, search, query, years)
    ensures exists n, m :: n in names && n in sources && m in search(sources[n], query, years) && p == MetadataToDict(m)
  {
    var init := names[..|names| - 1];
    var name := names[|names| - 1];
    assert name in names;
    if p in Collected(sources, init, search, query, years) {
      CollectedFromSources(sources, init, search, query, years, p);
      var n, m :| n in init && n in sources && m in search(sources[n], query, years) && p == MetadataToDict(m);
      assert n in names;
    } else {
      var found := search(sources[name], query, years);
      var k :| 0 <= k < |found| && p == MetadataToDict(found[k]);
      assert found[k] in found;
    }
  }

  /** `collect_papers`: an empty query or a range whose start is after its
   *  end raises ValueError; without a (non-empty) list of names, every
   *  registered source is searched in registration order. */
  function CollectPapersStep(sources: map<string, Source>, order: seq<string>, search: SearchFn,
                             query: string, years: (int, int), names: Option<seq<string>>): Result<seq<Paper>>
  {
    if query == "" || years.0 > years.1 then Err(ValueError)
    else
      var list := if names.Some? && names.value != [] then names.value else order;
      Ok(Collected(sources, list, search, query, years))
  }

  /** The collection refuses an empty query and an inverted range, and
   *  otherwise takes every paper from a registered source. */
  lemma CollectPapersChecks(sources: map<string, Source>, order: seq<string>, search: SearchFn,
                            query: string, years: (int, int), names: Option<seq<string>>)
    ensures CollectPapersStep(sources, order, search, query, years, names).Ok? <==> query != "" && years.0 <= years.1
    ensures var r := CollectPapersStep(sources, order, search, query, years, names);
            r.Err? ==> r.error == ValueError
    ensures var r := CollectPapersStep(sources, order, search, query, years, names);
            r.Ok? ==> forall p :: p in r.value ==>
              exists n, m :: n in sources && m in search(sources[n], query, years) && p == MetadataToDict(m)
  {
    var r := CollectPapersStep(sources, order, search, query, years, names);
    if r.Ok? {
      var list := if names.Some? && names.value != [] then names.value else order;
      forall p | p in r.value
        ensures exists n, m :: n in sources && m in search(sources[n], query, years) && p == MetadataToDict(m)
      {
        CollectedFromSources(sources, list, search, query, years, p);
      }
    }
  }

  /** The source names are the registry's keys, each once. */
  predicate Registered(sources: map<string, Source>, order: seq<string>) {
    (forall i, j :: 0 <= i < j < |order| ==> order[i] != order[j]) &&
    (forall n :: n in order ==> n in sources) && (forall n :: n in sources ==> n in order)
  }

  class LiteratureCollector {
    var sources: map<string, Source>
    /** the keys of `sources` in insertion order */
    var order: seq<string>
    var collected: map<string, seq<Paper>>

    ghost predicate Valid()
      reads this
    {
      Registered(sources, order)
    }

    constructor ()
      ensures Valid() && sources == map[] && collected == map[]
    {
      sources := map[];
      order := [];
      collected := map[];
    }

    /** `add_source`: a new name goes last, an existing one keeps its
     *  place and gets the new source. */
    method AddSource(name: string, source: Source)
      requires Valid()
      modifies this
      ensures Valid()
      ensures sources == old(sources)[name := source] && collected == old(collected)
      ensures order == if name in old(sources) then old(order) else old(order) + [name]
    {
      if name !in sources {
        order := order + [name];
      }
      sources := sources[name := source];
    }

    method CollectPapers(search: SearchFn, query: string, years: (int, int), names: Option<seq<string>>)
      returns (r: Result<seq<Paper>>)
      ensures r == CollectPapersStep(sources, order, search, query, years, names)
    {
      if query == "" {
        return Err(ValueError);
      }
      if years.0 > years.1 {
        return Err(ValueError);
      }
      var list := if names.Some? && names.value != [] then names.value else order;
      var papers: seq<Paper> := [];
      for i := 0 to |list|
        invariant papers == Collected(sources, list[..i], search, query, years)
      {
        assert list[..i + 1][..i] == list[..i];
        var name := list[i];
        if name in sources {
          var found := search(sources[name], query, years);
          var dicts := seq(|found|, k requires 0 <= k < |found| => MetadataToDict(found[k]));
          papers := papers + dicts;
        }
      }
      assert list[..|list|] == list;
      return Ok(papers);
    }

    method SavePapers(query: string, papers: seq<Paper>)
      modifies this
      ensures collected == old(collected)[query := papers]
      ensures sources == old(sources) && order == old(order)
    {
      collected := collected[query := papers];
    }

    method LoadPapers(query: string) returns (r: Result<seq<Paper>>)
      ensures r.Ok? <==> query in collected
      ensures r.Ok? ==> r.value == collected[query]
      ensures r.Err? ==> r.error == ValueError
    {
      if query !in collected {
        return Err(ValueError);
      }
      return Ok(collected[query]);
    }

    method GetCollectionStatistics(query: string) returns (r: Result<Statistics>)
      ensures r == StatisticsOf(collected, query)
    {
      if query !in collected {
        return Ok(NoStatistics);
      }
      var papers := collected[query];
      var years: Tally.Counter<Value> := [];
      for i := 0 to |papers|
        invariant YearCounts(papers[..i]) == Ok(years)
      {
        assert papers[..i + 1][..i] == papers[..i];
        var year := YearKey(papers[i]);
        if Truthy(year) {
          if !Hashable(year) {
            YearCountsFail(papers, i + 1);
            return Err(TypeError);
          }
          years := Tally.Bump(years, year);
        }
      }
      assert papers[..|papers|] == papers;
      var citations: Tally.Counter<Value> := [];
      for i := 0 to |papers|
        invariant CitationCounts(papers[..i]) == Ok(citations)
      {
        assert papers[..i + 1][..i] == papers[..i];
        var c := CitationKey(papers[i]);
        if !Hashable(c) {
          CitationCountsFail(papers, i + 1);
          return Err(TypeError);
        }
        citations := Tally.Bump(citations, c);
      }
      return Ok(Statistics(|papers|, years, citations));
    }
  }

  /** Once the year loop fails on a prefix it fails on the whole list. */
  lemma {:induction false} YearCountsFail(papers: seq<Paper>, i: nat)
    requires 0 < i <= |papers| && YearCounts(papers[..i]).Err?
    ensures YearCounts(papers) == Err(TypeError)
    decreases |papers| - i
  {
    if i == |papers| {
      assert papers[..i] == papers;
      YearCountsErrIsType(papers);
    } else {
      assert papers[..i + 1][..i] == papers[..i];
      YearCountsFail(papers, i + 1);
    }
  }

  lemma {:induction false} YearCountsErrIsType(papers: seq<Paper>)
    ensures YearCounts(papers).Err? ==> YearCounts(papers).error == TypeError
  {
    if papers != [] {
      YearCountsErrIsType(papers[..|papers| - 1]);
    }
  }

  /** Once the citation loop fails on a prefix it fails on the whole list. */
  lemma {:induction false} CitationCountsFail(papers: seq<Paper>, i: nat)
    requires 0 < i <= |papers| && CitationCounts(papers[..i]).Err?
    ensures CitationCounts(papers) == Err(TypeError)
    decreases |papers| - i
  {
    if i == |papers| {
      assert papers[..i] == papers;
      CitationCountsErrIsType(papers);
    } else {
      assert papers[..i + 1][..i] == papers[..i];
      CitationCountsFail(papers, i + 1);
    }
  }

  lemma {:induction false} CitationCountsErrIsType(papers: seq<Paper>)
    ensures CitationCounts(papers).Err? ==> CitationCounts(papers).error == TypeError
  {
    if papers != [] {
      CitationCountsErrIsType(papers[..|papers| - 1]);
    }
  }
}
