/** `LiteratureClassifier`: keyword classifiers that label a paper's
 *  discipline, topic and type, and a confidence derived from the discipline. */
module LiteratureClassifiers {
  import opened Wrappers
  import opened PyValue

  const CsKeywords: seq<string> := ["computer science", "machine learning", "artificial intelligence",
                                    "deep learning", "neural networks", "computer vision"]

  const DlKeywords: seq<string> := ["deep learning", "neural networks", "cnn", "rnn", "lstm"]

  const ReviewKeywords: seq<string> := ["review", "survey", "overview"]

  /** The result of `classify_paper`: the three labels. */
  datatype Classification = Classification(discipline: string, topic: string, paperType: string)

  /** The guard `not paper_data or not isinstance(paper_data, dict)`. */
  predicate IsPaperData(paper: Value) {
    paper.VDict? && paper.entries != map[]
  }

  /** `paper_data.get(key, "").lower()`: a value that is not a string has no
   *  `lower` and raises AttributeError. */
  function LowerField(d: map<Value, Value>, key: string): Result<string> {
    match Get(d, key, VStr(""))
    case VStr(s) => Ok(Lower(s))
    case _ => Err(AttributeError)
  }

  /** `keyword in keywords or keyword in title or keyword in abstract`, when
   *  it does not raise. */
  predicate Mentions(keywords: Value, title: string, summary: string, keyword: string) {
    Contains(keywords, VStr(keyword)) == Ok(true) || IsSubstring(keyword, title) || IsSubstring(keyword, summary)
  }

  /** The keyword loop of `classify_by_discipline` and `classify_by_topic`:
   *  whether some keyword of `kws` is mentioned. The test against `keywords`
   *  comes first and raises TypeError when `keywords` cannot be searched. */
  function Scan(keywords: Value, title: string, summary: string, kws: seq<string>): Result<bool> {
    if kws == [] then Ok(false)
    else
      var listed :- Contains(keywords, VStr(kws[0]));
      if listed || IsSubstring(kws[0], title) || IsSubstring(kws[0], summary) then Ok(true)
      else Scan(keywords, title, summary, kws[1..])
  }

  /** A value that `in` can search for a string. */
  predicate Searchable(v: Value) {
    v.VStr? || v.VList? || v.VDict?
  }

  /** The scan finds a keyword exactly when one is mentioned, and raises
   *  TypeError at once when `keywords` cannot be searched. */
  lemma {:induction false} ScanMeaning(keywords: Value, title: string, summary: string, kws: seq<string>)
    ensures Searchable(keywords) ==>
              Scan(keywords, title, summary, kws) == Ok(exists k :: k in kws && Mentions(keywords, title, summary, k))
    ensures !Searchable(keywords) && kws != [] ==> Scan(keywords, title, summary, kws) == Err(TypeError)
  {
    if kws != [] && Searchable(keywords) {
      ScanMeaning(keywords, title, summary, kws[1..]);
      if Mentions(keywords, title, summary, kws[0]) {
        assert kws[0] in kws;
      } else {
        assert Contains(keywords, VStr(kws[0])) == Ok(false);
        assert forall k :: k in kws <==> k == kws[0] || k in kws[1..];
      }
    }
  }

  /** The shared body of the two keyword classifiers: `tag` when some
   *  keyword of `kws` is mentioned, else "Unknown". */
  function KeywordLabel(paper: Value, kws: seq<string>, tag: string): Result<string> {
    if !IsPaperData(paper) then Err(ValueError)
    else
      var keywords := Get(paper.entries, "keywords", VList([]));
      var title :- LowerField(paper.entries, "title");
      var summary :- LowerField(paper.entries, "abstract");
      var hit :- Scan(keywords, title, summary, kws);
      Ok(if hit then tag else "Unknown")
  }

  /** `classify_by_discipline` */
  function Discipline(paper: Value): (r: Result<string>)
    ensures !IsPaperData(paper) ==> r == Err(ValueError)
    ensures r.Ok? ==> r.value == "Computer Science" || r.value == "Unknown"
  {
    KeywordLabel(paper, CsKeywords, "Computer Science")
  }

  /** `classify_by_topic` */
  function Topic(paper: Value): (r: Result<string>)
    ensures !IsPaperData(paper) ==> r == Err(ValueError)
    ensures r.Ok? ==> r.value == "Deep Learning" || r.value == "Unknown"
  {
    KeywordLabel(paper, DlKeywords, "Deep Learning")
  }

  /** A paper whose keywords can be searched and whose title and abstract
   *  are strings (or absent): the keyword classifiers raise nothing on it. */
  predicate WellFormed(paper: Value) {
    IsPaperData(paper) && Searchable(Get(paper.entries, "keywords", VList([]))) &&
    Get(paper.entries, "title", VStr("")).VStr? && Get(paper.entries, "abstract", VStr("")).VStr?
  }

  /** Some keyword of `kws` is mentioned by a well-formed paper. */
  predicate MentionsAny(paper: Value, kws: seq<string>)
    requires WellFormed(paper)
  {
    exists k :: k in kws && Mentions(Get(paper.entries, "keywords", VList([])),
                                     Lower(Get(paper.entries, "title", VStr("")).s),
                                     Lower(Get(paper.entries, "abstract", VStr("")).s), k)
  }

  /** On a well-formed paper a keyword classifier gives its label exactly
   *  when one of its keywords is mentioned, and "Unknown" otherwise; an
   *  empty or non-dict paper raises ValueError, a title or abstract that is
   *  not a string AttributeError, and keywords that cannot be searched
   *  TypeError. */
  lemma KeywordLabelMeaning(paper: Value, kws: seq<string>, tag: string)
    requires kws != [] && tag != "Unknown"
    ensures !IsPaperData(paper) ==> KeywordLabel(paper, kws, tag) == Err(ValueError)
    ensures WellFormed(paper) ==>
              KeywordLabel(paper, kws, tag) == Ok(if MentionsAny(paper, kws) then tag else "Unknown")
    ensures IsPaperData(paper) && !Get(paper.entries, "title", VStr("")).VStr? ==>
              KeywordLabel(paper, kws, tag) == Err(AttributeError)
    ensures IsPaperData(paper) && Get(paper.entries, "title", VStr("")).VStr? &&
            Get(paper.entries, "abstract", VStr("")).VStr? &&
            !Searchable(Get(paper.entries, "keywords", VList([]))) ==>
              KeywordLabel(paper, kws, tag) == Err(TypeError)
    ensures KeywordLabel(paper, kws, tag).Ok? ==> KeywordLabel(paper, kws, tag).value in {tag, "Unknown"}
  {
    if IsPaperData(paper) && Get(paper.entries, "title", VStr("")).VStr? &&
       Get(paper.entries, "abstract", VStr("")).VStr? {
      ScanMeaning(Get(paper.entries, "keywords", VList([])), Lower(Get(paper.entries, "title", VStr("")).s),
                  Lower(Get(paper.entries, "abstract", VStr("")).s), kws);
    }
  }

  /** The discipline is "Computer Science" exactly when a computer-science
   *  keyword is mentioned, and "Unknown" otherwise. */
  lemma DisciplineMeaning(paper: Value)
    requires WellFormed(paper)
    ensures Discipline(paper) == Ok("Computer Science") <==> MentionsAny(paper, CsKeywords)
    ensures Discipline(paper) == Ok("Unknown") <==> !MentionsAny(paper, CsKeywords)
  {
    KeywordLabelMeaning(paper, CsKeywords, "Computer Science");
  }

  /** The topic is "Deep Learning" exactly when a deep-learning keyword is
   *  mentioned, and "Unknown" otherwise. */
  lemma TopicMeaning(paper: Value)
    requires WellFormed(paper)
    ensures Topic(paper) == Ok("Deep Learning") <==> MentionsAny(paper, DlKeywords)
    ensures Topic(paper) == Ok("Unknown") <==> !MentionsAny(paper, DlKeywords)
  {
    KeywordLabelMeaning(paper, DlKeywords, "Deep Learning");
  }

  /** "deep learning" and "neural networks" are keywords of both lists, so
   *  a paper that mentions either is labelled Computer Science and Deep
   *  Learning. */
  lemma SharedKeywordsAgree(paper: Value, k: string)
    requires WellFormed(paper) && k in {"deep learning", "neural networks"}
    requires Mentions(Get(paper.entries, "keywords", VList([])), Lower(Get(paper.entries, "title", VStr("")).s),
                      Lower(Get(paper.entries, "abstract", VStr("")).s), k)
    ensures Discipline(paper) == Ok("Computer Science") && Topic(paper) == Ok("Deep Learning")
  {
    assert k in CsKeywords && k in DlKeywords;
    DisciplineMeaning(paper);
    TopicMeaning(paper);
  }

  /** The review loop of `classify_by_type`: some keyword of `kws` equals
   *  the type or occurs in the title or the abstract. */
  function ReviewScan(paperType: string, title: string, summary: string, kws: seq<string>): bool {
    if kws == [] then false
    else if kws[0] == paperType || IsSubstring(kws[0], title) || IsSubstring(kws[0], summary) then true
    else ReviewScan(paperType, title, summary, kws[1..])
  }

  lemma {:induction false} ReviewScanMeaning(paperType: string, title: string, summary: string, kws: seq<string>)
    ensures ReviewScan(paperType, title, summary, kws) <==>
            exists k :: k in kws && (k == paperType || IsSubstring(k, title) || IsSubstring(k, summary))
  {
    if kws != [] {
      ReviewScanMeaning(paperType, title, summary, kws[1..]);
      assert kws[0] in kws;
      assert forall k :: k in kws <==> k == kws[0] || k in kws[1..];
    }
  }

  /** `classify_by_type`: "type", "title" and "abstract" are lower-cased in
   *  that order. */
  function PaperType(paper: Value): (r: Result<string>)
    ensures !IsPaperData(paper) ==> r == Err(ValueError)
    ensures r.Ok? ==> r.value == "Review" || r.value == "Research"
    ensures r.Err? ==> r.error in {ValueError, AttributeError}
  {
    if !IsPaperData(paper) then Err(ValueError)
    else
      var paperType :- LowerField(paper.entries, "type");
      var title :- LowerField(paper.entries, "title");
      var summary :- LowerField(paper.entries, "abstract");
      Ok(if ReviewScan(paperType, title, summary, ReviewKeywords) then "Review" else "Research")
  }

  /** A paper is a Review exactly when its lower-cased type is "review",
   *  "survey" or "overview", or its title or abstract contains one of them;
   *  every other paper is Research, and the type check itself never raises
   *  on string fields. */
  lemma PaperTypeMeaning(paper: Value)
    ensures !IsPaperData(paper) ==> PaperType(paper) == Err(ValueError)
    ensures IsPaperData(paper) && PaperType(paper).Err? ==> PaperType(paper).error == AttributeError
    ensures PaperType(paper).Ok? ==>
              var t := Lower(Get(paper.entries, "type", VStr("")).s);
              var title := Lower(Get(paper.entries, "title", VStr("")).s);
              var summary := Lower(Get(paper.entries, "abstract", VStr("")).s);
              (PaperType(paper) == Ok("Review") <==>
                 exists k :: k in ReviewKeywords && (k == t || IsSubstring(k, title) || IsSubstring(k, summary))) &&
              (PaperType(paper).value == "Review" || PaperType(paper).value == "Research")
  {
    if PaperType(paper).Ok? {
      ReviewScanMeaning(Lower(Get(paper.entries, "type", VStr("")).s), Lower(Get(paper.entries, "title", VStr("")).s),
                        Lower(Get(paper.entries, "abstract", VStr("")).s), ReviewKeywords);
    }
  }

  /** `classify_paper`: the data must be a non-empty dict with a title and an
   *  abstract (ValueError otherwise); the classifiers then run in turn and
   *  the first error is raised. */
  function ClassifyPaper(paper: Value): (r: Result<Classification>)
    ensures r.Ok? ==> IsPaperData(paper) && VStr("title") in paper.entries && VStr("abstract") in paper.entries
    ensures r.Ok? ==> r.value.discipline in {"Computer Science", "Unknown"} && r.value.topic in {"Deep Learning", "Unknown"} &&
                      r.value.paperType in {"Review", "Research"}
  {
    if !IsPaperData(paper) then Err(ValueError)
    else if VStr("title") !in paper.entries || VStr("abstract") !in paper.entries then Err(ValueError)
    else
      var discipline :- Discipline(paper);
      var topic :- Topic(paper);
      var paperType :- PaperType(paper);
      Ok(Classification(discipline, topic, paperType))
  }

  /** Classification needs a title and an abstract, and then combines the
   *  three classifiers' labels. */
  lemma ClassifyNeedsTitleAndAbstract(paper: Value)
    ensures IsPaperData(paper) && (VStr("title") !in paper.entries || VStr("abstract") !in paper.entries) ==>
              ClassifyPaper(paper) == Err(ValueError)
    ensures ClassifyPaper(paper).Ok? <==>
              IsPaperData(paper) && VStr("title") in paper.entries && VStr("abstract") in paper.entries &&
              Discipline(paper).Ok? && Topic(paper).Ok? && PaperType(paper).Ok?
    ensures ClassifyPaper(paper).Ok? ==>
              ClassifyPaper(paper).value ==
              Classification(Discipline(paper).value, Topic(paper).value, PaperType(paper).value)
  {
  }

  /** `classify_with_confidence`: 0.8 when the discipline is known, else
   *  0.5. */
  function ClassifyWithConfidence(paper: Value): (r: Result<(Classification, real)>)
    ensures r.Ok? ==> (r.value.1 == 0.8 <==> r.value.0.discipline == "Computer Science")
    ensures r.Ok? ==> (r.value.1 == 0.5 <==> r.value.0.discipline == "Unknown")
  {
    var c :- ClassifyPaper(paper);
    Ok((c, if c.discipline != "Unknown" then 0.8 else 0.5))
  }

  /** The confidence is 0.8 exactly for a Computer Science paper and 0.5
   *  for any other, and the errors are those of the classification. */
  lemma ConfidenceFollowsDiscipline(paper: Value)
    ensures ClassifyWithConfidence(paper).Ok? <==> ClassifyPaper(paper).Ok?
    ensures ClassifyWithConfidence(paper).Err? ==> ClassifyWithConfidence(paper).error == ClassifyPaper(paper).error
    ensures ClassifyWithConfidence(paper).Ok? ==>
              ClassifyWithConfidence(paper).value.0 == ClassifyPaper(paper).value &&
              (ClassifyWithConfidence(paper).value.1 == 0.8 <==> Discipline(paper) == Ok("Computer Science")) &&
              (ClassifyWithConfidence(paper).value.1 == 0.5 <==> Discipline(paper) == Ok("Unknown"))
  {
    if ClassifyPaper(paper).Ok? {
      KeywordLabelMeaning(paper, CsKeywords, "Computer Science");
    }
  }
}
