/** Declarative collector specs: the decoded YAML form, its validation and the internal form. */
module SpecYaml {
  import opened Options

  /** prometheus.ValueType, whose zero value names no type. */
  datatype ValueType = Unset | CounterValue | GaugeValue | UntypedValue

  datatype MetricSpec = MetricSpec(
    name: string, help: string, valueType: ValueType, column: string, scale: real, timestampAsUnix: bool)

  datatype CollectorSpec = CollectorSpec(
    subsystem: string, namespace: string, sql: string, minMajor: int, minMinor: int,
    labels: seq<string>, metrics: seq<MetricSpec>)

  datatype YamlMetric = YamlMetric(
    name: string, help: string, metricType: string, column: string, scale: real, timestampAsUnix: bool)

  datatype YamlSpec = YamlSpec(
    subsystem: string, namespace: string, sql: string, minMajor: int, minMinor: int,
    labels: seq<string>, metrics: seq<YamlMetric>)

  datatype SpecError = NoSubsystem | NoSql | NoMetrics | IncompleteMetric(i: nat) | BadType(i: nat)

  datatype Result<+T, +E> = Ok(value: T) | Err(error: E)

  // ---- what NewSpecCollector panics on ----

  predicate Complete(m: MetricSpec) { m.name != "" && m.column != "" }

  predicate Panics(spec: CollectorSpec) {
    || spec.subsystem == ""
    || spec.sql == ""
    || spec.metrics == []
    || exists i :: 0 <= i < |spec.metrics| && !Complete(spec.metrics[i])
  }

  // ---- validation ----

  function TypeOf(t: string): Option<ValueType> {
    if t == "" || t == "gauge" then Some(GaugeValue)
    else if t == "counter" then Some(CounterValue)
    else None
  }

  predicate GoodMetric(m: YamlMetric) { m.name != "" && m.column != "" && TypeOf(m.metricType).Some? }

  function Metric(m: YamlMetric): MetricSpec
    requires GoodMetric(m)
  {
    MetricSpec(m.name, m.help, TypeOf(m.metricType).value, m.column, m.scale, m.timestampAsUnix)
  }

  /** The validation as a reader of the format states it. */
  predicate Acceptable(y: YamlSpec) {
    && y.subsystem != "" && y.sql != "" && y.metrics != []
    && forall i :: 0 <= i < |y.metrics| ==> GoodMetric(y.metrics[i])
  }

  function Internal(y: YamlSpec): CollectorSpec
    requires Acceptable(y)
  {
    CollectorSpec(y.subsystem, y.namespace, y.sql, y.minMajor, y.minMinor, y.labels,
                  seq(|y.metrics|, i requires 0 <= i < |y.metrics| => Metric(y.metrics[i])))
  }

  /** The first problem in checking order. */
  predicate IsFirstProblem(y: YamlSpec, e: SpecError) {
    match e
    case NoSubsystem => y.subsystem == ""
    case NoSql => y.subsystem != "" && y.sql == ""
    case NoMetrics => y.subsystem != "" && y.sql != "" && y.metrics == []
    case IncompleteMetric(i) => MetricFailsFirst(y, i) && (y.metrics[i].name == "" || y.metrics[i].column == "")
    case BadType(i) => MetricFailsFirst(y, i) && y.metrics[i].name != "" && y.metrics[i].column != ""
  }

  predicate MetricFailsFirst(y: YamlSpec, i: nat) {
    && y.subsystem != "" && y.sql != "" && i < |y.metrics| && !GoodMetric(y.metrics[i])
    && forall j :: 0 <= j < i ==> GoodMetric(y.metrics[j])
  }

  method ToInternal(y: YamlSpec) returns (r: Result<CollectorSpec, SpecError>)
    ensures r.Ok? <==> Acceptable(y)
    ensures r.Ok? ==> r.value == Internal(y) && !Panics(r.value)
    ensures r.Err? ==> IsFirstProblem(y, r.error)
    ensures r == Err(NoSubsystem) <==> y.subsystem == ""
    ensures r == Err(NoSql) <==> y.subsystem != "" && y.sql == ""
    ensures r == Err(NoMetrics) <==> y.subsystem != "" && y.sql != "" && y.metrics == []
    ensures r.Ok? ==> forall i :: 0 <= i < |y.metrics| ==>
      var m := y.metrics[i];
      m.name != "" && m.column != "" && (m.metricType == "" || m.metricType == "gauge" || m.metricType == "counter")
    ensures r.Err? && r.error.IncompleteMetric? ==>
      var i := r.error.i; i < |y.metrics| && (y.metrics[i].name == "" || y.metrics[i].column == "")
    ensures r.Err? && r.error.BadType? ==>
      var i := r.error.i;
      && i < |y.metrics| && y.metrics[i].name != "" && y.metrics[i].column != ""
      && y.metrics[i].metricType != "" && y.metrics[i].metricType != "gauge" && y.metrics[i].metricType != "counter"
  {
    if y.subsystem == "" { return Err(NoSubsystem); }
    if y.sql == "" { return Err(NoSql); }
    if |y.metrics| == 0 { return Err(NoMetrics); }
    var metrics: seq<MetricSpec> := [];
    var i := 0;
    while i < |y.metrics|
      invariant 0 <= i <= |y.metrics| && |metrics| == i
      invariant forall j :: 0 <= j < i ==> GoodMetric(y.metrics[j]) && metrics[j] == Metric(y.metrics[j])
    {
      var m := y.metrics[i];
      if m.name == "" || m.column == "" { return Err(IncompleteMetric(i)); }
      var valueType;
      if m.metricType == "" || m.metricType == "gauge" {
        valueType := GaugeValue;
      } else if m.metricType == "counter" {
        valueType := CounterValue;
      } else {
        return Err(BadType(i));
      }
      metrics := metrics + [MetricSpec(m.name, m.help, valueType, m.column, m.scale, m.timestampAsUnix)];
      i := i + 1;
    }
    r := Ok(CollectorSpec(y.subsystem, y.namespace, y.sql, y.minMajor, y.minMinor, y.labels, metrics));
    assert metrics == Internal(y).metrics;
    assert !Panics(Internal(y)) by { AcceptedNeverPanics(y); }
  }

  /** Validation rejects exactly the specs that would panic, and those with an unknown type. */
  lemma AcceptedNeverPanics(y: YamlSpec)
    ensures Acceptable(y) ==> !Panics(Internal(y))
    ensures Acceptable(y) <==>
      (forall i :: 0 <= i < |y.metrics| ==> TypeOf(y.metrics[i].metricType).Some?) && !Panics(Untyped(y))
  {
    if Acceptable(y) {
      forall i | 0 <= i < |y.metrics| ensures Complete(Internal(y).metrics[i]) && Complete(Untyped(y).metrics[i]) {
        assert GoodMetric(y.metrics[i]);
      }
    } else if (forall i :: 0 <= i < |y.metrics| ==> TypeOf(y.metrics[i].metricType).Some?)
              && y.subsystem != "" && y.sql != "" && y.metrics != [] {
      var i :| 0 <= i < |y.metrics| && !GoodMetric(y.metrics[i]);
      assert !Complete(Untyped(y).metrics[i]);
    }
  }

  /** The spec one would build without looking at the metric types. */
  function Untyped(y: YamlSpec): CollectorSpec {
    CollectorSpec(y.subsystem, y.namespace, y.sql, y.minMajor, y.minMinor, y.labels,
                  seq(|y.metrics|, i requires 0 <= i < |y.metrics| =>
                    var m := y.metrics[i];
                    MetricSpec(m.name, m.help, Unset, m.column, m.scale, m.timestampAsUnix)))
  }

  /** All specs in order, or the first one that fails with its problem. */
  method ParseSpecs(raw: seq<YamlSpec>) returns (r: Result<seq<CollectorSpec>, (nat, SpecError)>)
    ensures r.Ok? <==> forall i :: 0 <= i < |raw| ==> Acceptable(raw[i])
    ensures r.Ok? ==> |r.value| == |raw|
                      && forall i :: 0 <= i < |raw| ==> r.value[i] == Internal(raw[i]) && !Panics(r.value[i])
    ensures r.Err? ==> r.error.0 < |raw| && IsFirstProblem(raw[r.error.0], r.error.1)
                       && forall i :: 0 <= i < r.error.0 ==> Acceptable(raw[i])
  {
    var specs: seq<CollectorSpec> := [];
    var i := 0;
    while i < |raw|
      invariant 0 <= i <= |raw| && |specs| == i
      invariant forall j :: 0 <= j < i ==> Acceptable(raw[j]) && specs[j] == Internal(raw[j]) && !Panics(specs[j])
    {
      var s := ToInternal(raw[i]);
      if s.Err? { return Err((i, s.error)); }
      specs := specs + [s.value];
      i := i + 1;
    }
    r := Ok(specs);
  }
}
