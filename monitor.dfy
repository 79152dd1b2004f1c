/** `TemplateMonitor`: usage and error counters per monitored template.
 *  Timestamps are parameters; the running average score is not part of
 *  this model. */
module Monitor {
  import opened Wrappers
  import opened PyValue

  /** `MonitoringMetrics` */
  datatype Metrics = Metrics(
    templateId: string,
    usageCount: nat,
    errorCount: nat,
    averageScore: real,
    lastUsed: Value,
    performanceMetrics: map<string, real>)

  type Table = map<string, Metrics>

  /** The metrics `start_monitoring` creates: zero counts, no score and no
   *  performance figures. */
  function Zeroed(templateId: string, now: Value): Metrics {
    Metrics(templateId, 0, 0, 0.0, now, map[])
  }

  /** `start_monitoring`: zeroed metrics only for an ID not yet monitored;
   *  the result says whether they were created. */
  function StartStep(t: Table, templateId: string, now: Value): (bool, Table) {
    if templateId !in t then (true, t[templateId := Zeroed(templateId, now)]) else (false, t)
  }

  /** `stop_monitoring`: True exactly when the ID was monitored. */
  function StopStep(t: Table, templateId: string): (bool, Table) {
    if templateId in t then (true, t - {templateId}) else (false, t)
  }

  /** `record_usage`: one more use and a new last-used time. */
  function RecordUsageStep(t: Table, templateId: string, now: Value): (bool, Table) {
    if templateId in t then
      var m := t[templateId];
      (true, t[templateId := m.(usageCount := m.usageCount + 1, lastUsed := now)])
    else (false, t)
  }

  /** `record_error`: one more error, nothing else. */
  function RecordErrorStep(t: Table, templateId: string): (bool, Table) {
    if templateId in t then
      var m := t[templateId];
      (true, t[templateId := m.(errorCount := m.errorCount + 1)])
    else (false, t)
  }

  /** `update_performance_metrics`: `dict.update` on the figures. */
  function UpdatePerformanceStep(t: Table, templateId: string, figures: map<string, real>): (bool, Table) {
    if templateId in t then
      var m := t[templateId];
      (true, t[templateId := m.(performanceMetrics := m.performanceMetrics + figures)])
    else (false, t)
  }

  /** Every entry is keyed by its own template ID. */
  predicate Keyed(t: Table) {
    forall id :: id in t ==> t[id].templateId == id
  }

  /** Each operation keeps every entry keyed by its own ID. */
  lemma StepsKeepKeyed(t: Table, templateId: string, now: Value, figures: map<string, real>)
    requires Keyed(t)
    ensures Keyed(StartStep(t, templateId, now).1) && Keyed(StopStep(t, templateId).1)
    ensures Keyed(RecordUsageStep(t, templateId, now).1) && Keyed(RecordErrorStep(t, templateId).1)
    ensures Keyed(UpdatePerformanceStep(t, templateId, figures).1)
  {
  }

  /** `record_usage` raises the usage count of a monitored ID by exactly one
   *  and leaves every other entry, and that entry's error count, alone; an
   *  unmonitored ID is refused. */
  lemma RecordUsageCountsOne(t: Table, templateId: string, now: Value, other: string)
    ensures RecordUsageStep(t, templateId, now).0 <==> templateId in t
    ensures templateId in t ==>
              var m := RecordUsageStep(t, templateId, now).1[templateId];
              m.usageCount == t[templateId].usageCount + 1 && m.errorCount == t[templateId].errorCount &&
              m.performanceMetrics == t[templateId].performanceMetrics
    ensures other != templateId ==>
              (other in RecordUsageStep(t, templateId, now).1 <==> other in t) &&
              (other in t ==> RecordUsageStep(t, templateId, now).1[other] == t[other])
  {
  }

  /** `record_error` changes only the error count of that ID. */
  lemma RecordErrorCountsOne(t: Table, templateId: string)
    requires templateId in t
    ensures RecordErrorStep(t, templateId).1 == t[templateId := t[templateId].(errorCount := t[templateId].errorCount + 1)]
  {
  }

  /** Stopping a template just started restores the table. */
  lemma StartThenStop(t: Table, templateId: string, now: Value)
    requires templateId !in t
    ensures StopStep(StartStep(t, templateId, now).1, templateId) == (true, t)
  {
    assert StartStep(t, templateId, now).1 - {templateId} == t;
  }

  /** `k` uses recorded after `start_monitoring`, at the times in `times`. */
  function UsesAfterStart(templateId: string, start: Value, times: seq<Value>): Table {
    if times == [] then StartStep(map[], templateId, start).1
    else RecordUsageStep(UsesAfterStart(templateId, start, times[..|times| - 1]), templateId, times[|times| - 1]).1
  }

  /** The usage count of a freshly monitored template counts the recorded
   *  uses, and its error count stays zero. */
  lemma {:induction false} UsageCountsUses(templateId: string, start: Value, times: seq<Value>)
    ensures var t := UsesAfterStart(templateId, start, times);
            templateId in t && t[templateId].usageCount == |times| && t[templateId].errorCount == 0 &&
            t.Keys == {templateId}
    decreases |times|
  {
    if times != [] {
      UsageCountsUses(templateId, start, times[..|times| - 1]);
    }
  }

  class TemplateMonitor {
    var metrics: Table

    constructor ()
      ensures metrics == map[]
    {
      metrics := map[];
    }

    method StartMonitoring(templateId: string, now: Value) returns (started: bool)
      modifies this
      ensures (started, metrics) == StartStep(old(metrics), templateId, now)
    {
      if templateId !in metrics {
        metrics := metrics[templateId := Zeroed(templateId, now)];
        return true;
      }
      return false;
    }

    method StopMonitoring(templateId: string) returns (stopped: bool)
      modifies this
      ensures (stopped, metrics) == StopStep(old(metrics), templateId)
    {
      if templateId in metrics {
        metrics := metrics - {templateId};
        return true;
      }
      return false;
    }

    method RecordUsage(templateId: string, now: Value) returns (recorded: bool)
      modifies this
      ensures (recorded, metrics) == RecordUsageStep(old(metrics), templateId, now)
    {
      if templateId in metrics {
        var m := metrics[templateId];
        m := m.(usageCount := m.usageCount + 1);
        m := m.(lastUsed := now);
        metrics := metrics[templateId := m];
        return true;
      }
      return false;
    }

    method RecordError(templateId: string) returns (recorded: bool)
      modifies this
      ensures (recorded, metrics) == RecordErrorStep(old(metrics), templateId)
    {
      if templateId in metrics {
        var m := metrics[templateId];
        metrics := metrics[templateId := m.(errorCount := m.errorCount + 1)];
        return true;
      }
      return false;
    }

    method UpdatePerformanceMetrics(templateId: string, figures: map<string, real>) returns (updated: bool)
      modifies this
      ensures (updated, metrics) == UpdatePerformanceStep(old(metrics), templateId, figures)
    {
      if templateId in metrics {
        var m := metrics[templateId];
        metrics := metrics[templateId := m.(performanceMetrics := m.performanceMetrics + figures)];
        return true;
      }
      return false;
    }

    /** `get_metrics`: None exactly for an unmonitored ID. */
    function GetMetrics(templateId: string): (m: Option<Metrics>)
      reads this
      ensures m.Some? <==> templateId in metrics
      ensures m.Some? ==> m.value == metrics[templateId]
    {
      if templateId in metrics then Some(metrics[templateId]) else None
    }

    /** `get_all_metrics`: a shallow copy of the table. The entries here are
     *  values, so the copy keeps them as they are at the call; the sharing
     *  of the entry objects with the monitor is not modelled. */
    method GetAllMetrics() returns (copy: Table)
      ensures copy == metrics
    {
      copy := metrics;
    }
  }
}
