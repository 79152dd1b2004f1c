/** `detect_data_type`: the web back end's guess at whether an uploaded
 *  table is panel, time-series or cross-section data, from its column
 *  types and column names. */
module DataTypeDetection {
  import opened Wrappers
  import opened PyValue

  const TimeWords: seq<string> := ["year", "month", "date", "time", "period"]

  const IdWords: seq<string> := ["id", "code", "number", "no"]

  /** A column of the data frame: its label, which pandas lets be any
   *  value, and whether its dtype is `datetime64`. */
  datatype Column = Column(name: Value, isDatetime: bool)

  /** The returned dict: `type` and `confidence`. */
  datatype Detection = Detection(kind: string, confidence: real)

  /** `any(x in name for x in words)` */
  function AnyWord(words: seq<string>, name: string): bool {
    if words == [] then false else IsSubstring(words[0], name) || AnyWord(words[1..], name)
  }

  /** `any` holds exactly when some word occurs in the name. */
  lemma {:induction false} AnyWordMeaning(words: seq<string>, name: string)
    ensures AnyWord(words, name) <==> exists w :: w in words && IsSubstring(w, name)
  {
    if words != [] {
      AnyWordMeaning(words[1..], name);
      assert words[0] in words;
      assert forall w :: w in words <==> w == words[0] || w in words[1..];
    }
  }

  /** `[col for col in df.columns if any(x in col.lower() for x in words)]`;
   *  a label that is not a string has no `lower` and raises
   *  AttributeError. */
  function Matching(columns: seq<Column>, words: seq<string>): Result<seq<Value>> {
    if columns == [] then Ok([])
    else
      match columns[0].name
      case VStr(s) =>
        var rest :- Matching(columns[1..], words);
        Ok(if AnyWord(words, Lower(s)) then [columns[0].name] + rest else rest)
      case _ => Err(AttributeError)
  }

  /** Every column label is a string. */
  predicate Labelled(columns: seq<Column>) {
    forall k :: 0 <= k < |columns| ==> columns[k].name.VStr?
  }

  /** The lower-cased label of column `k` contains one of `words`. */
  predicate Matches(columns: seq<Column>, words: seq<string>, k: int)
    requires 0 <= k < |columns| && columns[k].name.VStr?
  {
    AnyWord(words, Lower(columns[k].name.s))
  }

  /** The comprehension raises exactly when some label is not a string, and
   *  otherwise keeps only labels that match, at least one when any does. */
  lemma {:induction false} MatchingMeaning(columns: seq<Column>, words: seq<string>)
    ensures Matching(columns, words).Ok? <==> Labelled(columns)
    ensures Matching(columns, words).Err? ==> Matching(columns, words).error == AttributeError
    ensures Labelled(columns) ==>
              |Matching(columns, words).value| <= |columns| &&
              (|Matching(columns, words).value| > 0 <==> exists k :: 0 <= k < |columns| && Matches(columns, words, k)) &&
              forall v :: v in Matching(columns, words).value ==>
                exists k :: 0 <= k < |columns| && columns[k].name == v && Matches(columns, words, k)
  {
    if columns != [] {
      MatchingMeaning(columns[1..], words);
      var tail := columns[1..];
      assert forall k :: 0 < k < |columns| ==> columns[k] == tail[k - 1];
      if Labelled(tail) && columns[0].name.VStr? {
        assert Labelled(columns);
        if exists k :: 0 <= k < |tail| && Matches(tail, words, k) {
          var k :| 0 <= k < |tail| && Matches(tail, words, k);
          assert Matches(columns, words, k + 1);
        }
        if exists k :: 0 <= k < |columns| && Matches(columns, words, k) {
          var k :| 0 <= k < |columns| && Matches(columns, words, k);
          if k > 0 {
            assert Matches(tail, words, k - 1);
          }
        }
        forall v | v in Matching(tail, words).value
          ensures exists k :: 0 <= k < |columns| && columns[k].name == v && Matches(columns, words, k)
        {
          var k :| 0 <= k < |tail| && tail[k].name == v && Matches(tail, words, k);
          assert columns[k + 1].name == v && Matches(columns, words, k + 1);
        }
        if Matches(columns, words, 0) {
          forall v | v in Matching(columns, words).value
            ensures exists k :: 0 <= k < |columns| && columns[k].name == v && Matches(columns, words, k)
          {
            if v != columns[0].name {
              assert v in Matching(tail, words).value;
            }
          }
        }
      } else if !columns[0].name.VStr? {
        assert !Labelled(columns);
      } else {
        var k :| 0 <= k < |tail| && !tail[k].name.VStr?;
        assert !columns[k + 1].name.VStr?;
      }
    }
  }

  /** Some column has a `datetime64` dtype. */
  predicate HasDatetime(columns: seq<Column>) {
    exists k :: 0 <= k < |columns| && columns[k].isDatetime
  }

  /** `select_dtypes(include=['datetime64']).columns` */
  function DatetimeColumns(columns: seq<Column>): (r: seq<Value>)
    ensures |r| > 0 <==> HasDatetime(columns)
  {
    if columns == [] then []
    else
      var rest := DatetimeColumns(columns[1..]);
      assert HasDatetime(columns[1..]) ==> HasDatetime(columns) by {
        if HasDatetime(columns[1..]) {
          var k :| 0 <= k < |columns[1..]| && columns[1..][k].isDatetime;
          assert columns[k + 1].isDatetime;
        }
      }
      assert HasDatetime(columns) && !columns[0].isDatetime ==> HasDatetime(columns[1..]) by {
        if HasDatetime(columns) && !columns[0].isDatetime {
          var k :| 0 <= k < |columns| && columns[k].isDatetime;
          assert columns[1..][k - 1].isDatetime;
        }
      }
      if columns[0].isDatetime then [columns[0].name] + rest else rest
  }

  /** `detect_data_type`: a label that is not a string raises inside the
   *  `try`, and the handler answers cross-section with confidence 0.5. */
  function DetectDataType(columns: seq<Column>): (r: Detection)
    ensures r in {Detection("panel", 0.9), Detection("time", 0.8), Detection("cross", 0.7), Detection("cross", 0.5)}
    ensures columns == [] ==> r == Detection("cross", 0.7)
    ensures r.kind != "cross" ==> |DatetimeColumns(columns)| > 0 || exists k :: 0 <= k < |columns| && columns[k].name.VStr?
  {
    var timeColumns := DatetimeColumns(columns);
    match Matching(columns, TimeWords)
    case Err(_) => Detection("cross", 0.5)
    case Ok(dateLike) =>
      match Matching(columns, IdWords)
      case Err(_) => Detection("cross", 0.5)
      case Ok(idLike) =>
        if (|timeColumns| > 0 || |dateLike| > 0) && |idLike| > 0 then Detection("panel", 0.9)
        else if |timeColumns| > 0 || |dateLike| > 0 then Detection("time", 0.8)
        else Detection("cross", 0.7)
  }

  /** Some column is a datetime column or has a time-like label. */
  predicate TimeLike(columns: seq<Column>)
    requires Labelled(columns)
  {
    HasDatetime(columns) || exists k :: 0 <= k < |columns| && Matches(columns, TimeWords, k)
  }

  /** Some column has an ID-like label. */
  predicate IdLike(columns: seq<Column>)
    requires Labelled(columns)
  {
    exists k :: 0 <= k < |columns| && Matches(columns, IdWords, k)
  }

  /** The decision table: time-like and ID-like columns together mean panel
   *  data (0.9), time-like columns alone time-series data (0.8), and
   *  anything else cross-section data (0.7); a label that is not a string
   *  gives cross-section with 0.5. */
  lemma DetectionTable(columns: seq<Column>)
    ensures !Labelled(columns) ==> DetectDataType(columns) == Detection("cross", 0.5)
    ensures Labelled(columns) ==>
              DetectDataType(columns) ==
                if TimeLike(columns) && IdLike(columns) then Detection("panel", 0.9)
                else if TimeLike(columns) then Detection("time", 0.8)
                else Detection("cross", 0.7)
  {
    MatchingMeaning(columns, TimeWords);
    MatchingMeaning(columns, IdWords);
  }
}
