/** `LiteratureParser`: the validity check for raw paper dicts, the parse of
 *  a valid paper into metadata, content, citations and keywords, the cache
 *  of parsed papers, and the keyword frequencies. */
module LiteratureParsers {
  import opened Wrappers
  import opened PyValue
  import Tally

  /** `ParsedPaper` */
  datatype ParsedPaper = ParsedPaper(metadata: map<string, Value>, content: map<string, Value>,
                                     citations: Value, keywords: Value)

  // ------------------------------------------------------------ validity

  const RequiredFields: seq<string> := ["title", "authors", "year", "abstract"]

  /** Every required field is present and truthy (`paper_data.get(field)`). */
  predicate HasRequired(d: map<Value, Value>) {
    forall f :: f in RequiredFields ==> Truthy(Get(d, f, VNone))
  }

  /** `"一" <= s <= "鿿"` for a string `s`. */
  predicate StrInRange(s: string) {
    !StrLess(s, "一") && !StrLess("鿿", s)
  }

  /** The chained comparison on one item of the abstract: it raises
   *  TypeError for an item that is not a string. */
  function InRange(item: Value): Result<bool> {
    if item.VStr? then Ok(StrInRange(item.s)) else Err(TypeError)
  }

  /** `any(... for char in items)`: the first comparison that raises ends the
   *  scan with its error. */
  function AnyInRange(items: seq<Value>): Result<bool> {
    if items == [] then Ok(false)
    else
      var hit :- InRange(items[0]);
      if hit then Ok(true) else AnyInRange(items[1..])
  }

  /** The one-character strings that iterating a string yields. */
  function Chars(s: string): (r: seq<Value>)
    ensures |r| == |s| && forall k :: 0 <= k < |s| ==> r[k] == VStr([s[k]])
  {
    seq(|s|, k requires 0 <= k < |s| => VStr([s[k]]))
  }

  /** Whether the abstract contains a CJK unified ideograph, iterating a
   *  string by character and a list by item. */
  function HasChinese(summary: Value): Result<bool> {
    match summary
    case VStr(s) => AnyInRange(Chars(s))
    case VList(items) => AnyInRange(items)
    case _ => Err(TypeError)
  }

  predicate IsCjk(c: char) {
    '一' <= c <= '鿿'
  }

  /** `_is_valid_paper`. None and non-dicts are invalid, and so is a paper
   *  with a missing or falsy required field, a year before `minYear`, no
   *  authors, or an abstract that is too short: under 50 characters when it
   *  contains Chinese, under 30 words otherwise. A year that does not
   *  compare with an int, authors without a length, or an abstract that
   *  cannot be scanned raise. */
  function IsValidPaper(paper: Option<Value>, minYear: int): (r: Result<bool>)
    ensures paper.None? || !paper.value.VDict? ==> r == Ok(false)
    ensures r == Ok(true) ==> paper.Some? && paper.value.VDict? && HasRequired(paper.value.entries) &&
                              Truthy(Get(paper.value.entries, "abstract", VStr("")))
  {
    if paper.None? || !paper.value.VDict? then Ok(false)
    else
      var d := paper.value.entries;
      if !HasRequired(d) then Ok(false)
      else
        var early :- LessThan(Get(d, "year", VInt(0)), VInt(minYear));
        if early then Ok(false)
        else
          var authors :- Len(Get(d, "authors", VList([])));
          if authors == 0 then Ok(false)
          else
            var summary := Get(d, "abstract", VStr(""));
            if !Truthy(summary) then Ok(false)
            else
              var chinese :- HasChinese(summary);
              if chinese then
                var length :- Len(summary);
                Ok(length >= 50)
              else if !summary.VStr? then Err(AttributeError)
              else Ok(|Words(summary.s)| >= 30)
  }

  /** A one-character string lies between the bounds exactly when its
   *  character does. */
  lemma CharInRange(c: char)
    ensures StrInRange([c]) <==> IsCjk(c)
  {
    assert "一" == ['一'] && "鿿" == ['鿿'];
    assert [c][1..] == [];
  }

  /** Scanning a string finds a CJK character exactly when it has one. */
  lemma {:induction false} AnyCharInRange(s: string)
    ensures AnyInRange(Chars(s)) == Ok(exists k :: 0 <= k < |s| && IsCjk(s[k]))
  {
    if s != [] {
      AnyCharInRange(s[1..]);
      CharInRange(s[0]);
      assert Chars(s)[1..] == Chars(s[1..]);
      if !IsCjk(s[0]) {
        assert (exists k :: 0 <= k < |s| && IsCjk(s[k])) <==> (exists k :: 0 <= k < |s[1..]| && IsCjk(s[1..][k])) by {
          forall k | 0 <= k < |s| && IsCjk(s[k])
            ensures 0 <= k - 1 < |s[1..]| && IsCjk(s[1..][k - 1])
          {
          }
        }
      }
    }
  }

  /** A truthy string, list or dict has a non-zero length. */
  lemma TruthyHasLength(v: Value)
    requires Truthy(v) && (v.VStr? || v.VList? || v.VDict?)
    ensures Len(v).Ok? && Len(v).value > 0
  {
  }

  /** None, a non-dict, or a paper missing a required field is invalid. */
  lemma InvalidShapes(paper: Option<Value>, minYear: int)
    ensures paper.None? ==> IsValidPaper(paper, minYear) == Ok(false)
    ensures paper.Some? && !paper.value.VDict? ==> IsValidPaper(paper, minYear) == Ok(false)
    ensures paper.Some? && paper.value.VDict? && !HasRequired(paper.value.entries) ==>
              IsValidPaper(paper, minYear) == Ok(false)
  {
  }

  /** A paper with every required field and a numeric year before
   *  `minYear` is invalid. */
  lemma EarlyYearInvalid(d: map<Value, Value>, minYear: int)
    requires HasRequired(d) && IsNumber(Get(d, "year", VInt(0)))
    requires NumberOf(Get(d, "year", VInt(0))) < minYear as real
    ensures IsValidPaper(Some(VDict(d)), minYear) == Ok(false)
  {
  }

  /** For a paper with every required field, a numeric year from `minYear`
   *  on, authors that have a length and a string abstract, validity is the
   *  length rule alone: at least 50 characters when the abstract contains a
   *  Chinese character, else at least 30 words. The "no authors" and "empty
   *  abstract" checks never reject such a paper. */
  lemma AbstractLengthRule(d: map<Value, Value>, minYear: int)
    requires HasRequired(d)
    requires IsNumber(Get(d, "year", VInt(0))) && NumberOf(Get(d, "year", VInt(0))) >= minYear as real
    requires Len(Get(d, "authors", VList([]))).Ok?
    requires Get(d, "abstract", VStr("")).VStr?
    ensures var s := Get(d, "abstract", VStr("")).s;
            IsValidPaper(Some(VDict(d)), minYear) ==
            Ok(if exists k :: 0 <= k < |s| && IsCjk(s[k]) then |s| >= 50 else |Words(s)| >= 30)
  {
    assert "authors" in RequiredFields && "abstract" in RequiredFields;
    assert Get(d, "authors", VList([])) == Get(d, "authors", VNone);
    assert Get(d, "abstract", VStr("")) == Get(d, "abstract", VNone);
    TruthyHasLength(Get(d, "authors", VList([])));
    AnyCharInRange(Get(d, "abstract", VStr("")).s);
  }

  // ------------------------------------------------------------- parsing

  /** `parse_metadata` */
  function ParseMetadata(d: map<Value, Value>): map<string, Value> {
    map["title" := Get(d, "title", VStr("")), "authors" := Get(d, "authors", VList([])),
        "year" := Get(d, "year", VInt(0)), "journal" := Get(d, "journal", VStr("")),
        "doi" := Get(d, "doi", VStr("")), "url" := Get(d, "url", VStr("")),
        "abstract" := Get(d, "abstract", VStr("")), "keywords" := Get(d, "keywords", VList([])),
        "citations" := Get(d, "citations", VInt(0)), "references" := Get(d, "references", VList([])),
        "pdf_path" := Get(d, "pdf_path", VStr("")), "source" := Get(d, "source", VStr("")),
        "venue" := Get(d, "venue", VStr(""))]
  }

  /** `parse_content` */
  function ParseContent(d: map<Value, Value>): map<string, Value> {
    map["abstract" := Get(d, "abstract", VStr("")), "full_text" := Get(d, "content", VStr("")),
        "sections" := Get(d, "sections", VList([])), "figures" := Get(d, "figures", VList([])),
        "tables" := Get(d, "tables", VList([])), "equations" := Get(d, "equations", VList([]))]
  }

  /** `parse_citations`: the references when truthy; otherwise, when the
   *  paper has "citations", that value if it is a list and `[]` if not;
   *  otherwise the falsy references themselves (`[]` when absent). */
  function ParseCitations(d: map<Value, Value>): (r: Value)
    ensures VStr("references") !in d && VStr("citations") !in d ==> r == VList([])
    ensures r == Get(d, "references", VList([])) || (VStr("citations") in d && r.VList?)
    ensures r != Get(d, "references", VList([])) ==> !Truthy(Get(d, "references", VList([])))
  {
    var citations := Get(d, "references", VList([]));
    if !Truthy(citations) && VStr("citations") in d then
      if d[VStr("citations")].VList? then d[VStr("citations")] else VList([])
    else citations
  }

  /** `parse_keywords` */
  function ParseKeywords(d: map<Value, Value>): Value {
    Get(d, "keywords", VList([]))
  }

  /** `parse_citations` prefers truthy references, then a "citations" list,
   *  and never returns a truthy non-list taken from "citations". */
  lemma CitationsPreference(d: map<Value, Value>)
    ensures VStr("references") in d && Truthy(d[VStr("references")]) ==> ParseCitations(d) == d[VStr("references")]
    ensures !(VStr("references") in d && Truthy(d[VStr("references")])) ==>
              ParseCitations(d) ==
                if VStr("citations") in d && d[VStr("citations")].VList? then d[VStr("citations")]
                else if VStr("citations") in d || VStr("references") !in d then VList([])
                else d[VStr("references")]
  {
  }

  /** `parse_paper`: an invalid paper gives None; a valid one is parsed and
   *  cached under its title. A title that cannot be a dict key raises
   *  TypeError, which is caught and also gives None. Errors of the validity
   *  check itself are not caught. */
  function ParseStep(cache: map<Value, ParsedPaper>, paper: Option<Value>, minYear: int)
    : (Result<Option<ParsedPaper>>, map<Value, ParsedPaper>)
  {
    match IsValidPaper(paper, minYear)
    case Err(e) => (Err(e), cache)
    case Ok(valid) =>
      if !valid then (Ok(None), cache)
      else
        var d := paper.value.entries;
        var parsed := ParsedPaper(ParseMetadata(d), ParseContent(d), ParseCitations(d), ParseKeywords(d));
        var title := Get(d, "title", VNone);
        if !Hashable(title) then (Ok(None), cache) else (Ok(Some(parsed)), cache[title := parsed])
  }

  /** A paper is parsed exactly when it is valid and its title hashable;
   *  it is then cached under its title, its metadata keeps the title, and
   *  nothing else in the cache changes. Otherwise the cache is unchanged. */
  lemma ParseCaches(cache: map<Value, ParsedPaper>, paper: Option<Value>, minYear: int)
    ensures var (r, cache') := ParseStep(cache, paper, minYear);
            (r.Ok? <==> IsValidPaper(paper, minYear).Ok?) &&
            (r.Ok? && r.value.Some? <==>
               IsValidPaper(paper, minYear) == Ok(true) && Hashable(Get(paper.value.entries, "title", VNone))) &&
            (r.Ok? && r.value.Some? ==>
               var title := Get(paper.value.entries, "title", VNone);
               cache'.Keys == cache.Keys + {title} && cache'[title] == r.value.value &&
               r.value.value.metadata["title"] == title &&
               r.value.value.citations == ParseCitations(paper.value.entries) &&
               forall t :: t in cache && t != title ==> cache'[t] == cache[t]) &&
            (!(r.Ok? && r.value.Some?) ==> cache' == cache)
  {
  }

  // ------------------------------------------------------------ keywords

  /** `{keyword: keywords.count(keyword) for keyword in set(keywords)}` */
  function KeywordFrequency(keywords: seq<string>): (f: map<string, nat>)
    ensures f.Keys == set k | k in keywords
  {
    map k | k in keywords :: Tally.Occurrences(keywords, k)
  }

  /** The frequencies of the keys `ks`, added up. */
  function SumOver(f: map<string, nat>, ks: seq<string>): nat
    requires forall k :: k in ks ==> k in f
  {
    if ks == [] then 0 else f[ks[0]] + SumOver(f, ks[1..])
  }

  lemma {:induction false} SumOverIsOccurrences(keywords: seq<string>, ks: seq<string>)
    requires forall k :: k in ks ==> k in keywords
    ensures SumOver(KeywordFrequency(keywords), ks) == Tally.SumOccurrences(keywords, ks)
  {
    if ks != [] {
      SumOverIsOccurrences(keywords, ks[1..]);
    }
  }

  /** The keyword frequencies add up to the number of keywords, listed in
   *  any order without repeats. */
  lemma KeywordFrequenciesAddUp(keywords: seq<string>, ks: seq<string>)
    requires forall i, j :: 0 <= i < j < |ks| ==> ks[i] != ks[j]
    requires forall k :: k in ks <==> k in keywords
    ensures SumOver(KeywordFrequency(keywords), ks) == |keywords|
    ensures forall k :: k in KeywordFrequency(keywords) ==> KeywordFrequency(keywords)[k] > 0
  {
    SumOverIsOccurrences(keywords, ks);
    Tally.FrequenciesSumToLength(keywords, ks);
    forall k | k in keywords
      ensures Tally.Occurrences(keywords, k) > 0
    {
      OccursCounted(keywords, k);
    }
  }

  lemma {:induction false} OccursCounted(xs: seq<string>, k: string)
    requires k in xs
    ensures Tally.Occurrences(xs, k) > 0
  {
    if xs[0] != k {
      OccursCounted(xs[1..], k);
    }
  }

  /** What `_analyze_keywords` returns. */
  datatype KeywordAnalysis = KeywordAnalysis(totalKeywords: nat, keywordFrequency: map<string, nat>)

  function AnalyzeKeywords(keywords: seq<string>): (r: KeywordAnalysis)
    ensures r.totalKeywords == |keywords|
    ensures forall k :: k in keywords <==> k in r.keywordFrequency
    ensures forall k :: k in r.keywordFrequency ==> r.keywordFrequency[k] == Tally.Occurrences(keywords, k)
  {
    KeywordAnalysis(|keywords|, KeywordFrequency(keywords))
  }

  // ------------------------------------------------------------- parser

  class LiteratureParser {
    var parsedPapers: map<Value, ParsedPaper>
    const minYear: int

    constructor (minYear: int)
      ensures this.minYear == minYear && parsedPapers == map[]
    {
      this.minYear := minYear;
      parsedPapers := map[];
    }

    method ParsePaper(paper: Option<Value>) returns (r: Result<Option<ParsedPaper>>)
      modifies this
      ensures (r, parsedPapers) == ParseStep(old(parsedPapers), paper, minYear)
    {
      var valid :- IsValidPaper(paper, minYear);
      if !valid {
        return Ok(None);
      }
      var d := paper.value.entries;
      var parsed := ParsedPaper(ParseMetadata(d), ParseContent(d), ParseCitations(d), ParseKeywords(d));
      var title := Get(d, "title", VNone);
      if !Hashable(title) {
        return Ok(None);
      }
      parsedPapers := parsedPapers[title := parsed];
      return Ok(Some(parsed));
    }

    /** `save_parsed_paper`: the ID must be a non-empty string and the paper
     *  present. */
    method SaveParsedPaper(id: Value, paper: Option<ParsedPaper>) returns (o: Outcome)
      modifies this
      ensures o.Pass? <==> id.VStr? && id.s != "" && paper.Some?
      ensures o.Fail? ==> o.error == ValueError && parsedPapers == old(parsedPapers)
      ensures o.Pass? ==> parsedPapers == old(parsedPapers)[id := paper.value]
    {
      if !id.VStr? || id.s == "" {
        return Fail(ValueError);
      }
      if paper.None? {
        return Fail(ValueError);
      }
      parsedPapers := parsedPapers[id := paper.value];
      return Pass;
    }

    /** `load_parsed_paper` */
    function LoadParsedPaper(id: Value): (r: Result<Option<ParsedPaper>>)
      reads this
      ensures r.Err? <==> !id.VStr? || id.s == ""
      ensures r.Ok? ==> (r.value.Some? <==> id in parsedPapers) &&
                        (r.value.Some? ==> r.value.value == parsedPapers[id])
    {
      if !id.VStr? || id.s == "" then Err(ValueError)
      else if id in parsedPapers then Ok(Some(parsedPapers[id]))
      else Ok(None)
    }
  }
}
