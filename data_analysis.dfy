/** The method selectors of the empirical data analyser: the main models
 *  chosen by the data structure, the fixed robustness checks, and the
 *  extra analyses the research hypotheses ask for. */
module EmpiricalStrategies {
  import opened Wrappers
  import opened PyValue

  /** One entry of a strategy list: the dict with "name", "package",
   *  "function" and "params". */
  datatype AnalysisMethod = AnalysisMethod(name: string, package: string, callable: string, params: map<string, Value>)

  const PanelData: Value := VStr("面板数据")
  const TimeSeriesData: Value := VStr("时间序列数据")

  const FixedEffects := AnalysisMethod("固定效应模型", "statsmodels.regression.linear_model", "PanelOLS",
                                       map["entity_effects" := VBool(true), "time_effects" := VBool(true)])
  const RandomEffects := AnalysisMethod("随机效应模型", "statsmodels.regression.linear_model", "RandomEffects", map[])
  const Arima := AnalysisMethod("ARIMA模型", "statsmodels.tsa.arima.model", "ARIMA", map[])
  const Var := AnalysisMethod("VAR模型", "statsmodels.tsa.vector_ar.var_model", "VAR", map[])
  const Ols := AnalysisMethod("OLS回归", "statsmodels.regression.linear_model", "OLS", map[])
  const TwoStageLeastSquares := AnalysisMethod("2SLS回归", "statsmodels.regression.linear_model", "IV2SLS", map[])

  const Winsorize := AnalysisMethod("Winsorize处理", "scipy.stats", "mstats.winsorize",
                                    map["limits" := VList([VFloat(0.01), VFloat(0.01)])])
  const Outliers := AnalysisMethod("异常值处理", "scipy.stats", "zscore", map[])
  const Bootstrap := AnalysisMethod("Bootstrap", "sklearn.utils", "resample", map["n_samples" := VInt(1000)])

  const Mediation := AnalysisMethod("中介效应分析", "statsmodels.stats.mediation", "Mediation", map[])
  const Moderation := AnalysisMethod("调节效应分析", "statsmodels.stats.contingency", "interaction_plot", map[])

  const MediationMarker := "中介"
  const ModerationMarker := "调节"

  /** `_get_main_methods`: `self.data_structure["type"]` picks the pair of
   *  models; indexing raises when the structure is not a dict with "type"
   *  (it is None until the structure has been identified). */
  function MainMethods(dataStructure: Value): (r: Result<seq<AnalysisMethod>>)
    ensures r.Ok? <==> GetItem(dataStructure, VStr("type")).Ok?
    ensures r.Ok? ==> |r.value| == 2 && r.value[0] != r.value[1]
  {
    var structure :- GetItem(dataStructure, VStr("type"));
    if structure == PanelData then Ok([FixedEffects, RandomEffects])
    else if structure == TimeSeriesData then Ok([Arima, Var])
    else Ok([Ols, TwoStageLeastSquares])
  }

  /** The data structure picks the models: fixed then random effects for
   *  panel data, ARIMA then VAR for a time series, and OLS then 2SLS for
   *  anything else; a structure without "type" raises. */
  lemma MainMethodsByStructure(dataStructure: Value)
    ensures MainMethods(dataStructure).Ok? <==> GetItem(dataStructure, VStr("type")).Ok?
    ensures dataStructure.VDict? && VStr("type") !in dataStructure.entries ==> MainMethods(dataStructure) == Err(KeyError)
    ensures dataStructure.VNone? ==> MainMethods(dataStructure) == Err(TypeError)
    ensures var r := MainMethods(dataStructure);
            r.Ok? ==>
              var structure := GetItem(dataStructure, VStr("type")).value;
              |r.value| == 2 &&
              (r.value[0].callable == "PanelOLS" <==> structure == PanelData) &&
              (r.value[0].callable == "ARIMA" <==> structure == TimeSeriesData) &&
              (r.value[0].callable == "OLS" <==> structure != PanelData && structure != TimeSeriesData) &&
              (structure == PanelData ==> r.value[1].callable == "RandomEffects") &&
              (structure == TimeSeriesData ==> r.value[1].callable == "VAR") &&
              (structure != PanelData && structure != TimeSeriesData ==> r.value[1].callable == "IV2SLS")
  {
  }

  /** Whatever the structure, two different statsmodels models are
   *  chosen. */
  lemma MainMethodsDistinct(dataStructure: Value)
    requires MainMethods(dataStructure).Ok?
    ensures var ms := MainMethods(dataStructure).value;
            |ms| == 2 && ms[0].callable != ms[1].callable &&
            "statsmodels." <= ms[0].package && "statsmodels." <= ms[1].package
  {
  }

  /** `_get_robustness_methods` */
  function RobustnessMethods(): (r: seq<AnalysisMethod>)
    ensures |r| == 3 && r[0] != r[1] && r[1] != r[2] && r[0] != r[2]
  {
    [Winsorize, Outliers, Bootstrap]
  }

  /** The robustness checks are always the same three: winsorizing at 1%
   *  on both sides, z-score outlier handling, and a 1000-sample bootstrap. */
  lemma RobustnessFixed()
    ensures |RobustnessMethods()| == 3
    ensures forall i, j :: 0 <= i < j < 3 ==> RobustnessMethods()[i] != RobustnessMethods()[j]
    ensures RobustnessMethods()[0].callable == "mstats.winsorize" &&
            RobustnessMethods()[0].params["limits"] == VList([VFloat(0.01), VFloat(0.01)])
    ensures RobustnessMethods()[1].callable == "zscore"
    ensures RobustnessMethods()[2].callable == "resample" && RobustnessMethods()[2].params["n_samples"] == VInt(1000)
  {
  }

  /** `any(marker in h.get("type", "") for h in hypotheses)`: a hypothesis
   *  that is not a dict has no `get` (AttributeError), and a type that `in`
   *  cannot search raises TypeError; the scan stops at the first hit. */
  function AnyHypothesis(hypotheses: seq<Value>, marker: string): Result<bool> {
    if hypotheses == [] then Ok(false)
    else if !hypotheses[0].VDict? then Err(AttributeError)
    else
      var hit :- Contains(Get(hypotheses[0].entries, "type", VStr("")), VStr(marker));
      if hit then Ok(true) else AnyHypothesis(hypotheses[1..], marker)
  }

  /** A dict whose "type", when present, is a string. */
  predicate WellTyped(h: Value) {
    h.VDict? && Get(h.entries, "type", VStr("")).VStr?
  }

  /** Hypothesis `k` has a type that contains `marker`. */
  predicate Marks(hypotheses: seq<Value>, k: int, marker: string)
    requires 0 <= k < |hypotheses| && WellTyped(hypotheses[k])
  {
    IsSubstring(marker, Get(hypotheses[k].entries, "type", VStr("")).s)
  }

  /** On well-typed hypotheses the scan never raises and finds the marker
   *  exactly when some hypothesis type contains it. */
  lemma {:induction false} AnyHypothesisMeaning(hypotheses: seq<Value>, marker: string)
    requires forall k :: 0 <= k < |hypotheses| ==> WellTyped(hypotheses[k])
    ensures AnyHypothesis(hypotheses, marker) ==
            Ok(exists k :: 0 <= k < |hypotheses| && Marks(hypotheses, k, marker))
  {
    if hypotheses != [] {
      var tail := hypotheses[1..];
      AnyHypothesisMeaning(tail, marker);
      assert forall k :: 0 < k < |hypotheses| ==> hypotheses[k] == tail[k - 1];
      assert Contains(Get(hypotheses[0].entries, "type", VStr("")), VStr(marker)) == Ok(Marks(hypotheses, 0, marker));
      if exists k :: 0 <= k < |tail| && Marks(tail, k, marker) {
        var k :| 0 <= k < |tail| && Marks(tail, k, marker);
        assert Marks(hypotheses, k + 1, marker);
      }
      if exists k :: 0 <= k < |hypotheses| && Marks(hypotheses, k, marker) {
        var k :| 0 <= k < |hypotheses| && Marks(hypotheses, k, marker);
        if k > 0 {
          assert Marks(tail, k - 1, marker);
        }
      }
    }
  }

  /** `_get_additional_methods`: mediation analysis when a hypothesis type
   *  contains 中介, then moderation analysis when one contains 调节. */
  function AdditionalMethods(hypotheses: seq<Value>): (r: Result<seq<AnalysisMethod>>)
    ensures hypotheses == [] ==> r == Ok([])
    ensures r.Ok? ==> |r.value| <= 2 && forall m :: m in r.value ==> m == Mediation || m == Moderation
  {
    var mediation :- AnyHypothesis(hypotheses, MediationMarker);
    var moderation :- AnyHypothesis(hypotheses, ModerationMarker);
    Ok((if mediation then [Mediation] else []) + (if moderation then [Moderation] else []))
  }

  /** On well-typed hypotheses: mediation is chosen exactly when some type
   *  contains 中介, moderation exactly when some type contains 调节, each at
   *  most once, and mediation comes first. */
  lemma AdditionalMethodsMeaning(hypotheses: seq<Value>)
    requires forall k :: 0 <= k < |hypotheses| ==> WellTyped(hypotheses[k])
    ensures AdditionalMethods(hypotheses).Ok?
    ensures var r := AdditionalMethods(hypotheses).value;
            (Mediation in r <==> exists k :: 0 <= k < |hypotheses| && Marks(hypotheses, k, MediationMarker)) &&
            (Moderation in r <==> exists k :: 0 <= k < |hypotheses| && Marks(hypotheses, k, ModerationMarker)) &&
            |r| <= 2 && (forall m :: m in r ==> m == Mediation || m == Moderation) &&
            (Mediation in r && Moderation in r ==> r == [Mediation, Moderation])
  {
    AnyHypothesisMeaning(hypotheses, MediationMarker);
    AnyHypothesisMeaning(hypotheses, ModerationMarker);
  }

  /** A hypothesis that is not a dict makes the selector raise
   *  AttributeError before any type is searched, when it comes first. */
  lemma NonDictHypothesisRaises(h: Value, rest: seq<Value>)
    requires !h.VDict?
    ensures AdditionalMethods([h] + rest) == Err(AttributeError)
  {
  }
}
