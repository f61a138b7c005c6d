/**
 The declarative collector: rows of a query become observations of delta counters
 and settings of gauges, and a scrape emits every child of every vector.
 Each observation or setting is one atomic step, so the scrapes of several
 clients run as an interleaving of their writes.
 */
module SpecCollector {
  import opened Text
  import opened Options
  import opened History
  import opened SpecYaml
  import CD = CounterDelta
  import VP = VersionProbe

  type Labels = seq<string>

  /** The position of a metric in the spec, and the label values. */
  type Target = (nat, Labels)

  // ---- scanned values ----

  /** A scanned cell; `text` is how it prints. */
  datatype Cell =
    | Null
    | Number(value: real, text: string)
    | Timestamp(unix: int, text: string)
    | Other(text: string)

  function CoerceString(c: Cell): string { if c.Null? then "" else c.text }

  function CoerceFloat(c: Cell, tsAsUnix: bool): Option<real> {
    match c
    case Number(v, _) => Some(v)
    case Timestamp(unix, _) => if tsAsUnix then Some(unix as real) else None
    case _ => None
  }

  datatype Ending = AllRead | ValuesError | RowsError

  /** What the server answers: an error, or columns and the rows read before the ending. */
  datatype Answer = QueryError | Rows(columns: seq<string>, rows: seq<seq<Cell>>, ending: Ending) {
    ghost predicate WellFormed() {
      Rows? ==> forall k :: 0 <= k < |rows| ==> |rows[k]| == |columns|
    }
  }

  // ---- what a cell says, as the format promises it ----

  /** The number a metric takes from a cell: scaled unless the scale is zero; a timestamp only when asked for. */
  predicate Shows(c: Cell, m: MetricSpec, v: real) {
    match c
    case Number(x, _) => v == if m.scale == 0.0 then x else x * m.scale
    case Timestamp(unix, _) => m.timestampAsUnix && v == if m.scale == 0.0 then unix as real else unix as real * m.scale
    case Null => false
    case Other(_) => false
  }

  /** A label is the cell as printed, and empty for NULL. */
  predicate Prints(c: Cell, printed: string) {
    match c
    case Null => printed == ""
    case Number(_, text) => printed == text
    case Timestamp(_, text) => printed == text
    case Other(text) => printed == text
  }

  // ---- one row, as one metric per (row, metric) pair ----

  /** The column a name refers to: the last one so named. */
  function ColumnOf(columns: seq<string>, name: string): (i: nat)
    requires name in columns
    ensures i < |columns| && columns[i] == name
    ensures forall j :: i < j < |columns| ==> columns[j] != name
  {
    if Last(columns) == name then |columns| - 1 else ColumnOf(Init(columns), name)
  }

  predicate ColumnsOk(spec: CollectorSpec, columns: seq<string>) {
    && "database" in columns
    && (forall i :: 0 <= i < |spec.labels| ==> spec.labels[i] in columns)
    && (forall i :: 0 <= i < |spec.metrics| ==> spec.metrics[i].column in columns)
  }

  /** The database column, a label's column or a metric's column is not among the result's. */
  predicate MissesColumn(spec: CollectorSpec, columns: seq<string>) {
    || "database" !in columns
    || (exists i :: 0 <= i < |spec.labels| && spec.labels[i] !in columns)
    || (exists i :: 0 <= i < |spec.metrics| && spec.metrics[i].column !in columns)
  }

  function RowLabels(spec: CollectorSpec, columns: seq<string>, row: seq<Cell>): Labels
    requires ColumnsOk(spec, columns) && |row| == |columns|
  {
    [CoerceString(row[ColumnOf(columns, "database")])]
    + seq(|spec.labels|, i requires 0 <= i < |spec.labels| => CoerceString(row[ColumnOf(columns, spec.labels[i])]))
  }

  /** The value metric `i` takes from the row; None for NULL and for cells that are not numbers. */
  function MetricValue(spec: CollectorSpec, columns: seq<string>, row: seq<Cell>, i: nat): Option<real>
    requires ColumnsOk(spec, columns) && |row| == |columns| && i < |spec.metrics|
  {
    var m := spec.metrics[i];
    match CoerceFloat(row[ColumnOf(columns, m.column)], m.timestampAsUnix)
    case None => None
    case Some(v) => Some(Scaled(v, m.scale))
  }

  /** A metric has a value exactly when its cell shows one. */
  lemma MetricValueShows(spec: CollectorSpec, columns: seq<string>, row: seq<Cell>, i: nat, v: real)
    requires ColumnsOk(spec, columns) && |row| == |columns| && i < |spec.metrics|
    ensures MetricValue(spec, columns, row, i) == Some(v) <==>
            Shows(row[ColumnOf(columns, spec.metrics[i].column)], spec.metrics[i], v)
  {
  }

  /** What a metric takes, by kind of cell. */
  lemma MetricValueByKind(spec: CollectorSpec, columns: seq<string>, row: seq<Cell>, i: nat)
    requires ColumnsOk(spec, columns) && |row| == |columns| && i < |spec.metrics|
    ensures var m, taken := spec.metrics[i], MetricValue(spec, columns, row, i);
      match row[ColumnOf(columns, m.column)]
      case Number(x, _) => taken.Some? && taken.value == (if m.scale == 0.0 then x else x * m.scale)
      case Timestamp(u, _) =>
        && (taken.Some? <==> m.timestampAsUnix)
        && (taken.Some? ==> taken.value == if m.scale == 0.0 then u as real else u as real * m.scale)
      case Null => taken.None?
      case Other(_) => taken.None?
  {
  }

  /** The labels of a row: the database cell first, then the cells of the declared labels in order. */
  ghost predicate HasLabels(spec: CollectorSpec, columns: seq<string>, row: seq<Cell>, l: Labels)
    requires ColumnsOk(spec, columns) && |row| == |columns|
  {
    && |l| == 1 + |spec.labels|
    && Prints(row[ColumnOf(columns, "database")], l[0])
    && forall j :: 0 <= j < |spec.labels| ==> Prints(row[ColumnOf(columns, spec.labels[j])], l[1 + j])
  }

  lemma RowLabelsPrint(spec: CollectorSpec, columns: seq<string>, row: seq<Cell>, l: Labels)
    requires ColumnsOk(spec, columns) && |row| == |columns|
    ensures HasLabels(spec, columns, row, l) <==> l == RowLabels(spec, columns, row)
  {
    var labels := RowLabels(spec, columns, row);
    forall j | 0 <= j < |spec.labels| ensures labels[1 + j] == CoerceString(row[ColumnOf(columns, spec.labels[j])]) { }
    if HasLabels(spec, columns, row, l) {
      forall j | 0 <= j < |l| ensures l[j] == labels[j] {
        if j > 0 { assert Prints(row[ColumnOf(columns, spec.labels[j - 1])], l[1 + (j - 1)]); }
      }
      assert l == labels;
    }
  }

  /** A zero scale means no scaling. */
  function Scaled(v: real, scale: real): real { if scale != 0.0 then v * scale else v }

  /** The writes of the row's first `n` metrics. */
  function RowWrites(spec: CollectorSpec, columns: seq<string>, row: seq<Cell>, n: nat): seq<Write<Target>>
    requires ColumnsOk(spec, columns) && |row| == |columns| && n <= |spec.metrics|
  {
    if n == 0 then []
    else RowWrites(spec, columns, row, n - 1) +
         match MetricValue(spec, columns, row, n - 1) {
           case Some(v) => [Write((n - 1, RowLabels(spec, columns, row)), v)]
           case None => []
         }
  }

  /** A row writes, for each metric, the number its cell shows, all under the labels the row prints. */
  lemma {:induction false} RowWritesExactly(
      spec: CollectorSpec, columns: seq<string>, row: seq<Cell>, n: nat, w: Write<Target>)
    requires ColumnsOk(spec, columns) && |row| == |columns| && n <= |spec.metrics|
    ensures w in RowWrites(spec, columns, row, n) <==>
      && w.key.0 < n && HasLabels(spec, columns, row, w.key.1)
      && Shows(row[ColumnOf(columns, spec.metrics[w.key.0].column)], spec.metrics[w.key.0], w.value)
  {
    RowLabelsPrint(spec, columns, row, w.key.1);
    if w.key.0 < n { MetricValueShows(spec, columns, row, w.key.0, w.value); }
    RowWritesMembers(spec, columns, row, n, w);
  }

  lemma {:induction false} RowWritesMembers(
      spec: CollectorSpec, columns: seq<string>, row: seq<Cell>, n: nat, w: Write<Target>)
    requires ColumnsOk(spec, columns) && |row| == |columns| && n <= |spec.metrics|
    ensures w in RowWrites(spec, columns, row, n) <==>
      w.key.0 < n && w.key.1 == RowLabels(spec, columns, row) && MetricValue(spec, columns, row, w.key.0) == Some(w.value)
  {
    if n > 0 { RowWritesMembers(spec, columns, row, n - 1, w); }
  }

  function RowsWrites(spec: CollectorSpec, columns: seq<string>, rows: seq<seq<Cell>>): seq<Write<Target>>
    requires ColumnsOk(spec, columns) && forall k :: 0 <= k < |rows| ==> |rows[k]| == |columns|
  {
    if rows == [] then []
    else RowsWrites(spec, columns, Init(rows)) + RowWrites(spec, columns, Last(rows), |spec.metrics|)
  }

  /** Whether the version gate lets the query run, given the version the client read. */
  predicate GateOpen(spec: CollectorSpec, read: nat) {
    spec.minMajor <= 0 || VP.Gate(read, VP.VersionNum(spec.minMajor, spec.minMinor))
  }

  /** The writes one client's scrape performs, and whether it reports an error. */
  function ClientWrites(spec: CollectorSpec, read: nat, a: Answer): seq<Write<Target>>
    requires a.WellFormed()
  {
    if GateOpen(spec, read) && a.Rows? && ColumnsOk(spec, a.columns) then RowsWrites(spec, a.columns, a.rows) else []
  }

  predicate ClientFails(spec: CollectorSpec, read: nat, a: Answer) {
    GateOpen(spec, read) && (a.QueryError? || !ColumnsOk(spec, a.columns) || !a.ending.AllRead?)
  }

  /** A client of a scrape: the version its gate read, and what its query was answered. */
  datatype Client = Client(read: nat, answer: Answer)

  ghost predicate AllWellFormed(clients: seq<Client>) {
    forall c :: 0 <= c < |clients| ==> clients[c].answer.WellFormed()
  }

  predicate SomeClientFails(spec: CollectorSpec, clients: seq<Client>) {
    exists c :: 0 <= c < |clients| && ClientFails(spec, clients[c].read, clients[c].answer)
  }

  /** Each client's writes, in its own order. */
  ghost function Writers(spec: CollectorSpec, clients: seq<Client>): (r: seq<seq<Write<Target>>>)
    requires AllWellFormed(clients)
    ensures |r| == |clients|
  {
    seq(|clients|, c requires 0 <= c < |clients| => ClientWrites(spec, clients[c].read, clients[c].answer))
  }

  // ---- the vectors ----

  predicate IsCounter(m: MetricSpec) { m.valueType.CounterValue? && !m.timestampAsUnix }

  datatype Vecs = Vecs(counter: seq<Option<CD.State>>, gauge: seq<Option<map<Labels, real>>>)

  /** Exactly one of counter or gauge per metric, as the metric's type says. */
  ghost predicate Shaped(spec: CollectorSpec, v: Vecs) {
    && |v.counter| == |v.gauge| == |spec.metrics|
    && forall i :: 0 <= i < |spec.metrics| ==>
         (v.counter[i].Some? <==> IsCounter(spec.metrics[i])) && (v.gauge[i].Some? <==> !IsCounter(spec.metrics[i]))
  }

  function Fresh(spec: CollectorSpec): Vecs {
    Vecs(seq(|spec.metrics|, i requires 0 <= i < |spec.metrics| =>
           if IsCounter(spec.metrics[i]) then Some(CD.EMPTY) else None),
         seq(|spec.metrics|, i requires 0 <= i < |spec.metrics| =>
           if IsCounter(spec.metrics[i]) then None else Some(map[])))
  }

  datatype Outcome = Outcome(vecs: Vecs, panicked: bool)

  function Apply(v: Vecs, w: Write<Target>): Outcome
    requires w.key.0 < |v.counter| == |v.gauge|
    requires v.counter[w.key.0].Some? || v.gauge[w.key.0].Some?
  {
    var i := w.key.0;
    if v.counter[i].Some? then
      var o := CD.ObserveStep(v.counter[i].value, Write(w.key.1, w.value));
      Outcome(v.(counter := v.counter[i := Some(o.state)]), o.panicked)
    else
      Outcome(v.(gauge := v.gauge[i := Some(v.gauge[i].value[w.key.1 := w.value])]), false)
  }

  ghost predicate Targets(spec: CollectorSpec, h: seq<Write<Target>>) {
    forall k :: 0 <= k < |h| ==> h[k].key.0 < |spec.metrics|
  }

  /** All writes in order from given vectors; a panic ends the run. */
  ghost function ApplyAll(spec: CollectorSpec, v: Vecs, h: seq<Write<Target>>): (o: Outcome)
    requires Shaped(spec, v) && Targets(spec, h)
    ensures Shaped(spec, o.vecs)
  {
    if h == [] then Outcome(v, false)
    else
      var o := ApplyAll(spec, v, Init(h));
      if o.panicked then o else Apply(o.vecs, Last(h))
  }

  lemma {:induction false} ApplyConcat(spec: CollectorSpec, v: Vecs, g: seq<Write<Target>>, h: seq<Write<Target>>)
    requires Shaped(spec, v) && Targets(spec, g) && Targets(spec, h)
    ensures Targets(spec, g + h)
    ensures var o := ApplyAll(spec, v, g);
            ApplyAll(spec, v, g + h) == if o.panicked then o else ApplyAll(spec, o.vecs, h)
  {
    if h == [] {
      assert g + h == g;
    } else {
      assert Init(g + h) == g + Init(h);
      ApplyConcat(spec, v, g, Init(h));
    }
  }

  lemma {:induction false} RowTargets(spec: CollectorSpec, columns: seq<string>, row: seq<Cell>, n: nat)
    requires ColumnsOk(spec, columns) && |row| == |columns| && n <= |spec.metrics|
    ensures Targets(spec, RowWrites(spec, columns, row, n))
  {
    if n > 0 { RowTargets(spec, columns, row, n - 1); }
  }

  lemma {:induction false} RowsTargets(spec: CollectorSpec, columns: seq<string>, rows: seq<seq<Cell>>)
    requires ColumnsOk(spec, columns) && forall k :: 0 <= k < |rows| ==> |rows[k]| == |columns|
    ensures Targets(spec, RowsWrites(spec, columns, rows))
  {
    if rows != [] {
      RowsTargets(spec, columns, Init(rows));
      RowTargets(spec, columns, Last(rows), |spec.metrics|);
    }
  }

  // ---- emission ----

  datatype Sample = Sample(metric: nat, labels: Labels, value: real)

  function ChildrenOf(v: Vecs, i: nat): map<Labels, real>
    requires i < |v.counter| == |v.gauge|
  {
    if v.counter[i].Some? then v.counter[i].value.children
    else if v.gauge[i].Some? then v.gauge[i].value
    else map[]
  }

  /** `s` is a child of the vector of its metric. */
  ghost predicate IsChild(v: Vecs, s: Sample)
    requires |v.counter| == |v.gauge|
  {
    && s.metric < |v.counter| && s.labels in ChildrenOf(v, s.metric)
    && s.value == ChildrenOf(v, s.metric)[s.labels]
  }

  ghost predicate AllDistinct(out: seq<Sample>) {
    forall j, k :: 0 <= j < k < |out| ==> out[j].metric != out[k].metric || out[j].labels != out[k].labels
  }

  /** `out` lists every child of the vectors in `from` once, and nothing else. */
  ghost predicate Lists(v: Vecs, out: seq<Sample>, from: set<nat>)
    requires |v.counter| == |v.gauge|
  {
    && (forall k :: 0 <= k < |out| ==> out[k].metric in from && IsChild(v, out[k]))
    && (forall s :: IsChild(v, s) && s.metric in from ==> s in out)
    && AllDistinct(out)
  }

  /** Every child of every vector, once each. */
  ghost predicate EmitsAll(v: Vecs, out: seq<Sample>)
    requires |v.counter| == |v.gauge|
  {
    (forall s :: IsChild(v, s) <==> s in out) && AllDistinct(out)
  }

  lemma ListsBlock(v: Vecs, out: seq<Sample>, from: set<nat>, i: nat, block: seq<Sample>)
    requires |v.counter| == |v.gauge| && i !in from
    requires Lists(v, out, from) && Lists(v, block, {i})
    ensures Lists(v, out + block, from + {i})
  {
  }

  // ---- the collector as code ----

  datatype ScrapeResult = Done | Failed | Panicked

  class Collector {
    const spec: CollectorSpec
    var counter: seq<Option<CD.State>>
    var gauge: seq<Option<map<Labels, real>>>

    ghost function Model(): Vecs
      reads this
    {
      Vecs(counter, gauge)
    }

    ghost predicate Valid()
      reads this
    {
      Shaped(spec, Model())
    }

    /** The source panics where this requires. */
    constructor (spec: CollectorSpec)
      requires !Panics(spec)
      ensures this.spec == spec && Valid() && Model() == Fresh(spec)
      ensures forall i :: 0 <= i < |spec.metrics| ==>
        if spec.metrics[i].valueType.CounterValue? && !spec.metrics[i].timestampAsUnix
        then counter[i] == Some(CD.State(map[], map[])) && gauge[i] == None
        else counter[i] == None && gauge[i] == Some(map[])
    {
      this.spec := spec;
      var counters: seq<Option<CD.State>> := [];
      var gauges: seq<Option<map<Labels, real>>> := [];
      var i := 0;
      while i < |spec.metrics|
        invariant 0 <= i <= |spec.metrics| && |counters| == |gauges| == i
        invariant counters == Fresh(spec).counter[..i] && gauges == Fresh(spec).gauge[..i]
      {
        var m := spec.metrics[i];
        var valueType := if m.valueType.Unset? then GaugeValue else m.valueType;
        if m.timestampAsUnix { valueType := GaugeValue; }
        if valueType.CounterValue? {
          counters, gauges := counters + [Some(CD.EMPTY)], gauges + [None];
        } else {
          counters, gauges := counters + [None], gauges + [Some(map[])];
        }
        i := i + 1;
      }
      counter, gauge := counters, gauges;
    }

    method Record(i: nat, value: real, labels: Labels) returns (panicked: bool)
      requires Valid() && i < |spec.metrics|
      modifies this
      ensures Valid()
      ensures Outcome(Model(), panicked) == Apply(old(Model()), Write((i, labels), value))
    {
      if counter[i].Some? {
        var o := CD.ObserveStep(counter[i].value, Write(labels, value));
        counter := counter[i := Some(o.state)];
        panicked := o.panicked;
      } else {
        gauge := gauge[i := Some(gauge[i].value[labels := value])];
        panicked := false;
      }
    }

    method ColumnIndex(columns: seq<string>) returns (colIdx: map<string, nat>)
      ensures forall name :: name in colIdx <==> name in columns
      ensures forall name :: name in columns ==> colIdx[name] == ColumnOf(columns, name)
    {
      colIdx := map[];
      var i := 0;
      while i < |columns|
        invariant 0 <= i <= |columns|
        invariant forall name :: name in colIdx <==> name in columns[..i]
        invariant forall name :: name in columns[..i] ==> colIdx[name] == ColumnOf(columns[..i], name)
      {
        colIdx := colIdx[columns[i] := i];
        assert columns[..i + 1] == columns[..i] + [columns[i]] && Init(columns[..i + 1]) == columns[..i];
        i := i + 1;
      }
      assert columns[..i] == columns;
    }

    method CheckColumns(columns: seq<string>, colIdx: map<string, nat>) returns (ok: bool)
      requires forall name :: name in colIdx <==> name in columns
      ensures ok <==> ColumnsOk(spec, columns)
    {
      if "database" !in colIdx { return false; }
      var i := 0;
      while i < |spec.labels|
        invariant 0 <= i <= |spec.labels| && forall j :: 0 <= j < i ==> spec.labels[j] in columns
      {
        if spec.labels[i] !in colIdx { return false; }
        i := i + 1;
      }
      i := 0;
      while i < |spec.metrics|
        invariant 0 <= i <= |spec.metrics| && forall j :: 0 <= j < i ==> spec.metrics[j].column in columns
      {
        if spec.metrics[i].column !in colIdx { return false; }
        i := i + 1;
      }
      ok := true;
    }

    method AssembleLabels(columns: seq<string>, colIdx: map<string, nat>, row: seq<Cell>) returns (labels: Labels)
      requires ColumnsOk(spec, columns) && |row| == |columns|
      requires forall name :: name in columns ==> name in colIdx && colIdx[name] == ColumnOf(columns, name)
      ensures labels == RowLabels(spec, columns, row)
    {
      labels := [CoerceString(row[colIdx["database"]])];
      var i := 0;
      while i < |spec.labels|
        invariant 0 <= i <= |spec.labels| && |labels| == 1 + i
        invariant labels == RowLabels(spec, columns, row)[..1 + i]
      {
        labels := labels + [CoerceString(row[colIdx[spec.labels[i]]])];
        i := i + 1;
      }
    }

    /** One metric of a row: the number its cell shows is written, and without one nothing is. */
    method RecordMetric(i: nat, raw: Cell, labels: Labels) returns (panicked: bool)
      requires Valid() && i < |spec.metrics|
      modifies this
      ensures Valid()
      ensures forall v :: Shows(raw, spec.metrics[i], v) ==>
                Outcome(Model(), panicked) == Apply(old(Model()), Write((i, labels), v))
      ensures (forall v :: !Shows(raw, spec.metrics[i], v)) ==> Model() == old(Model()) && !panicked
    {
      var m := spec.metrics[i];
      if raw.Null? { return false; }
      var value := CoerceFloat(raw, m.timestampAsUnix);
      if value.None? { return false; }
      var v := value.value;
      if m.scale != 0.0 { v := v * m.scale; }
      assert Shows(raw, m, v);
      panicked := Record(i, v, labels);
    }

    /** The metrics of one row. Every lookup is of a validated column. */
    method RecordRow(columns: seq<string>, colIdx: map<string, nat>, row: seq<Cell>) returns (panicked: bool)
      requires Valid() && ColumnsOk(spec, columns) && |row| == |columns|
      requires forall name :: name in columns ==> name in colIdx && colIdx[name] == ColumnOf(columns, name)
      modifies this
      ensures Valid()
      ensures Outcome(Model(), panicked) == RowOutcome(spec, old(Model()), columns, row, |spec.metrics|)
    {
      var labels := AssembleLabels(columns, colIdx, row);
      panicked := false;
      var i := 0;
      while i < |spec.metrics|
        invariant 0 <= i <= |spec.metrics| && Valid() && !panicked
        invariant Outcome(Model(), false) == RowOutcome(spec, old(Model()), columns, row, i)
      {
        RowStep(spec, columns, row, i, old(Model()));
        ShowsAtMostOne(spec, columns, row, i);
        panicked := RecordMetric(i, row[colIdx[spec.metrics[i].column]], labels);
        i := i + 1;
        if panicked {
          RowPanics(spec, columns, row, i, old(Model()));
          return;
        }
      }
    }

    /** One client's scrape: all its writes in order, unless nothing may be written. */
    method ScrapeClient(read: nat, a: Answer) returns (r: ScrapeResult)
      requires Valid() && a.WellFormed()
      modifies this
      ensures Valid() && Targets(spec, ClientWrites(spec, read, a))
      ensures var o := ApplyAll(spec, old(Model()), ClientWrites(spec, read, a));
              Model() == o.vecs
              && r == if o.panicked then Panicked else if ClientFails(spec, read, a) then Failed else Done
      ensures !GateOpen(spec, read) ==> r == Done && Model() == old(Model())
      ensures GateOpen(spec, read) && a.QueryError? ==> r == Failed && Model() == old(Model())
      ensures GateOpen(spec, read) && a.Rows? && MissesColumn(spec, a.columns) ==> r == Failed && Model() == old(Model())
      ensures GateOpen(spec, read) && a.Rows? && !MissesColumn(spec, a.columns) ==>
                r == Panicked || r == if a.ending == ValuesError || a.ending == RowsError then Failed else Done
    {
      if spec.minMajor > 0 && !VP.Gate(read, VP.VersionNum(spec.minMajor, spec.minMinor)) { return Done; }
      if a.QueryError? { return Failed; }
      var colIdx := ColumnIndex(a.columns);
      var ok := CheckColumns(a.columns, colIdx);
      if !ok { return Failed; }
      var panicked := RecordRows(a.columns, colIdx, a.rows);
      RowsTargets(spec, a.columns, a.rows);
      if panicked { return Panicked; }
      r := if a.ending.AllRead? then Done else Failed;
    }

    method RecordRows(columns: seq<string>, colIdx: map<string, nat>, rows: seq<seq<Cell>>) returns (panicked: bool)
      requires Valid() && ColumnsOk(spec, columns) && forall k :: 0 <= k < |rows| ==> |rows[k]| == |columns|
      requires forall name :: name in columns ==> name in colIdx && colIdx[name] == ColumnOf(columns, name)
      modifies this
      ensures Valid()
      ensures Outcome(Model(), panicked) == RowsOutcome(spec, old(Model()), columns, rows)
    {
      panicked := false;
      var k := 0;
      while k < |rows|
        invariant 0 <= k <= |rows| && Valid() && !panicked
        invariant Outcome(Model(), false) == RowsOutcome(spec, old(Model()), columns, rows[..k])
      {
        RowsStep(spec, columns, rows, k, old(Model()));
        panicked := RecordRow(columns, colIdx, rows[k]);
        k := k + 1;
        if panicked {
          RowsPanic(spec, columns, rows, k, old(Model()));
          return;
        }
      }
      assert rows[..k] == rows;
    }

    /**
     A whole scrape under the schedule in which the clients run one after another;
     module RowEmission treats every interleaving. Only an error-free scrape emits.
     */
    method Scrape(clients: seq<Client>) returns (out: seq<Sample>, r: ScrapeResult)
      requires Valid() && AllWellFormed(clients)
      modifies this
      ensures Valid()
      ensures var o := ClientsOutcome(spec, old(Model()), clients);
              Model() == o.vecs
              && r == if o.panicked then Panicked else if SomeClientFails(spec, clients) then Failed else Done
      ensures if r.Done? then EmitsAll(Model(), out) else out == []
    {
      var failed, panicked := ScrapeClients(clients);
      if panicked { return [], Panicked; }
      if failed { return [], Failed; }
      out := CollectInto();
      r := Done;
    }

    method ScrapeClients(clients: seq<Client>) returns (failed: bool, panicked: bool)
      requires Valid() && AllWellFormed(clients)
      modifies this
      ensures Valid()
      ensures Outcome(Model(), panicked) == ClientsOutcome(spec, old(Model()), clients)
      ensures !panicked ==> (failed <==> SomeClientFails(spec, clients))
    {
      failed, panicked := false, false;
      var c := 0;
      while c < |clients|
        invariant 0 <= c <= |clients| && Valid() && !panicked && (failed <==> SomeClientFails(spec, clients[..c]))
        invariant Outcome(Model(), false) == ClientsOutcome(spec, old(Model()), clients[..c])
      {
        ClientsStep(spec, clients, c, old(Model()));
        SomeClientFailsStep(spec, clients, c);
        var one := ScrapeClient(clients[c].read, clients[c].answer);
        c := c + 1;
        if one.Panicked? {
          ClientsPanic(spec, clients, c, old(Model()));
          return failed, true;
        }
        failed := failed || one.Failed?;
      }
      assert clients[..c] == clients;
    }

    /** Every child once: the counters' first, then the gauges', each vector in its own order. */
    method CollectInto() returns (out: seq<Sample>)
      requires Valid()
      ensures EmitsAll(Model(), out)
    {
      ghost var v := Model();
      ghost var from: set<nat> := {};
      out := [];
      var i := 0;
      while i < |counter|
        invariant 0 <= i <= |counter| && Lists(v, out, from)
        invariant forall j: nat :: j in from <==> j < i && v.counter[j].Some?
      {
        if counter[i].Some? {
          var block := CollectVec(i, counter[i].value.children, v);
          ListsBlock(v, out, from, i, block);
          out, from := out + block, from + {i};
        }
        i := i + 1;
      }
      i := 0;
      while i < |gauge|
        invariant 0 <= i <= |gauge| && Lists(v, out, from)
        invariant forall j: nat :: j in from <==> j < |v.counter| && (v.counter[j].Some? || j < i)
      {
        if gauge[i].Some? {
          var block := CollectVec(i, gauge[i].value, v);
          ListsBlock(v, out, from, i, block);
          out, from := out + block, from + {i};
        }
        i := i + 1;
      }
    }

    /** The children of one vector, in whatever order its map yields them. */
    static method CollectVec(i: nat, children: map<Labels, real>, ghost v: Vecs) returns (out: seq<Sample>)
      requires i < |v.counter| == |v.gauge| && children == ChildrenOf(v, i)
      ensures Lists(v, out, {i})
    {
      out := [];
      var left := children.Keys;
      while left != {}
        invariant left <= children.Keys && AllDistinct(out)
        invariant forall k :: 0 <= k < |out| ==> out[k].metric == i && IsChild(v, out[k]) && out[k].labels !in left
        invariant forall l :: l in children && l !in left ==> Sample(i, l, children[l]) in out
        decreases left
      {
        var l :| l in left;
        out := out + [Sample(i, l, children[l])];
        left := left - {l};
      }
    }
  }

  /** The vectors after a row's first `n` metrics. */
  ghost function RowOutcome(spec: CollectorSpec, v: Vecs, columns: seq<string>, row: seq<Cell>, n: nat): Outcome
    requires Shaped(spec, v) && ColumnsOk(spec, columns) && |row| == |columns| && n <= |spec.metrics|
  {
    RowTargets(spec, columns, row, n);
    ApplyAll(spec, v, RowWrites(spec, columns, row, n))
  }

  lemma {:induction false} RowStep(spec: CollectorSpec, columns: seq<string>, row: seq<Cell>, i: nat, v: Vecs)
    requires Shaped(spec, v) && ColumnsOk(spec, columns) && |row| == |columns| && i < |spec.metrics|
    ensures var o := RowOutcome(spec, v, columns, row, i);
            RowOutcome(spec, v, columns, row, i + 1) ==
              match MetricValue(spec, columns, row, i)
              case None => o
              case Some(x) => if o.panicked then o else Apply(o.vecs, Write((i, RowLabels(spec, columns, row)), x))
  {
    var before := RowWrites(spec, columns, row, i);
    RowTargets(spec, columns, row, i);
    RowTargets(spec, columns, row, i + 1);
    match MetricValue(spec, columns, row, i)
    case None =>
      assert before + [] == before;
    case Some(x) =>
      assert Init(before + [Write((i, RowLabels(spec, columns, row)), x)]) == before;
  }

  /** The row's first `n` metrics write a prefix of what all of them write. */
  lemma {:induction false} RowPrefix(spec: CollectorSpec, columns: seq<string>, row: seq<Cell>, n: nat, m: nat)
    returns (rest: seq<Write<Target>>)
    requires ColumnsOk(spec, columns) && |row| == |columns| && n <= m <= |spec.metrics|
    ensures RowWrites(spec, columns, row, m) == RowWrites(spec, columns, row, n) + rest && Targets(spec, rest)
  {
    if n == m {
      rest := [];
    } else {
      rest := RowPrefix(spec, columns, row, n, m - 1);
      match MetricValue(spec, columns, row, m - 1)
      case None =>
      case Some(v) => rest := rest + [Write((m - 1, RowLabels(spec, columns, row)), v)];
    }
  }

  lemma {:induction false} RowPanics(spec: CollectorSpec, columns: seq<string>, row: seq<Cell>, n: nat, v: Vecs)
    requires Shaped(spec, v) && ColumnsOk(spec, columns) && |row| == |columns| && n <= |spec.metrics|
    requires RowOutcome(spec, v, columns, row, n).panicked
    ensures RowOutcome(spec, v, columns, row, |spec.metrics|) == RowOutcome(spec, v, columns, row, n)
  {
    var rest := RowPrefix(spec, columns, row, n, |spec.metrics|);
    RowTargets(spec, columns, row, n);
    ApplyConcat(spec, v, RowWrites(spec, columns, row, n), rest);
  }

  /** The vectors after all metrics of the rows. */
  ghost function RowsOutcome(spec: CollectorSpec, v: Vecs, columns: seq<string>, rows: seq<seq<Cell>>): Outcome
    requires Shaped(spec, v) && ColumnsOk(spec, columns) && forall k :: 0 <= k < |rows| ==> |rows[k]| == |columns|
  {
    RowsTargets(spec, columns, rows);
    ApplyAll(spec, v, RowsWrites(spec, columns, rows))
  }

  lemma {:induction false} RowsStep(spec: CollectorSpec, columns: seq<string>, rows: seq<seq<Cell>>, k: nat, v: Vecs)
    requires Shaped(spec, v) && ColumnsOk(spec, columns) && forall j :: 0 <= j < |rows| ==> |rows[j]| == |columns|
    requires k < |rows|
    ensures var o := RowsOutcome(spec, v, columns, rows[..k]);
            RowsOutcome(spec, v, columns, rows[..k + 1]) ==
              if o.panicked then o else RowOutcome(spec, o.vecs, columns, rows[k], |spec.metrics|)
  {
    assert Init(rows[..k + 1]) == rows[..k];
    RowsTargets(spec, columns, rows[..k]);
    RowTargets(spec, columns, rows[k], |spec.metrics|);
    ApplyConcat(spec, v, RowsWrites(spec, columns, rows[..k]), RowWrites(spec, columns, rows[k], |spec.metrics|));
  }

  lemma {:induction false} RowsPanic(spec: CollectorSpec, columns: seq<string>, rows: seq<seq<Cell>>, k: nat, v: Vecs)
    requires Shaped(spec, v) && ColumnsOk(spec, columns) && forall j :: 0 <= j < |rows| ==> |rows[j]| == |columns|
    requires k <= |rows| && RowsOutcome(spec, v, columns, rows[..k]).panicked
    ensures RowsOutcome(spec, v, columns, rows) == RowsOutcome(spec, v, columns, rows[..k])
    decreases |rows| - k
  {
    if k == |rows| {
      assert rows[..k] == rows;
    } else {
      RowsStep(spec, columns, rows, k, v);
      RowsPanic(spec, columns, rows, k + 1, v);
    }
  }

  /** A client only writes to metrics of the spec. */
  lemma {:induction false} ClientTargets(spec: CollectorSpec, read: nat, a: Answer)
    requires a.WellFormed()
    ensures Targets(spec, ClientWrites(spec, read, a))
  {
    if a.Rows? && ColumnsOk(spec, a.columns) { RowsTargets(spec, a.columns, a.rows); }
  }

  lemma {:induction false} ClientsTargets(spec: CollectorSpec, clients: seq<Client>)
    requires AllWellFormed(clients)
    ensures Targets(spec, Flatten(Writers(spec, clients)))
  {
    if clients != [] {
      var last := Last(clients);
      assert Init(Writers(spec, clients)) == Writers(spec, Init(clients));
      ClientsTargets(spec, Init(clients));
      ClientTargets(spec, last.read, last.answer);
    }
  }

  /** The vectors after the clients' scrapes, one after another. */
  ghost function ClientsOutcome(spec: CollectorSpec, v: Vecs, clients: seq<Client>): Outcome
    requires Shaped(spec, v) && AllWellFormed(clients)
  {
    ClientsTargets(spec, clients);
    ApplyAll(spec, v, Flatten(Writers(spec, clients)))
  }

  lemma {:induction false} ClientsStep(spec: CollectorSpec, clients: seq<Client>, c: nat, v: Vecs)
    requires Shaped(spec, v) && AllWellFormed(clients) && c < |clients|
    ensures Targets(spec, ClientWrites(spec, clients[c].read, clients[c].answer))
    ensures var o := ClientsOutcome(spec, v, clients[..c]);
            ClientsOutcome(spec, v, clients[..c + 1]) ==
              if o.panicked then o else ApplyAll(spec, o.vecs, ClientWrites(spec, clients[c].read, clients[c].answer))
  {
    var mine := ClientWrites(spec, clients[c].read, clients[c].answer);
    assert Init(Writers(spec, clients[..c + 1])) == Writers(spec, clients[..c]);
    ClientsTargets(spec, clients[..c]);
    ClientTargets(spec, clients[c].read, clients[c].answer);
    ApplyConcat(spec, v, Flatten(Writers(spec, clients[..c])), mine);
  }

  lemma {:induction false} ClientsPanic(spec: CollectorSpec, clients: seq<Client>, c: nat, v: Vecs)
    requires Shaped(spec, v) && AllWellFormed(clients) && c <= |clients|
    requires ClientsOutcome(spec, v, clients[..c]).panicked
    ensures ClientsOutcome(spec, v, clients) == ClientsOutcome(spec, v, clients[..c])
    decreases |clients| - c
  {
    if c == |clients| {
      assert clients[..c] == clients;
    } else {
      ClientsStep(spec, clients, c, v);
      ClientsPanic(spec, clients, c + 1, v);
    }
  }

  lemma SomeClientFailsStep(spec: CollectorSpec, clients: seq<Client>, c: nat)
    requires c < |clients|
    ensures SomeClientFails(spec, clients[..c + 1]) <==>
            SomeClientFails(spec, clients[..c]) || ClientFails(spec, clients[c].read, clients[c].answer)
  {
    var more := clients[..c + 1];
    assert more[c] == clients[c] && forall i :: 0 <= i < c ==> more[i] == clients[..c][i];
  }

  lemma ShowsAtMostOne(spec: CollectorSpec, columns: seq<string>, row: seq<Cell>, i: nat)
    requires ColumnsOk(spec, columns) && |row| == |columns| && i < |spec.metrics|
    ensures var c := row[ColumnOf(columns, spec.metrics[i].column)];
      match MetricValue(spec, columns, row, i)
      case None => forall v :: !Shows(c, spec.metrics[i], v)
      case Some(v) => Shows(c, spec.metrics[i], v)
  {
    forall v ensures MetricValue(spec, columns, row, i) == Some(v) <==>
                     Shows(row[ColumnOf(columns, spec.metrics[i].column)], spec.metrics[i], v) {
      MetricValueShows(spec, columns, row, i, v);
    }
  }

  // ---- from the YAML form to the vectors ----

  /** Every accepted spec keeps its fields, and exactly its counters that are no timestamps become counters. */
  lemma BuiltFromYaml(y: YamlSpec)
    requires Acceptable(y)
    ensures var spec := Internal(y);
      && !Panics(spec) && spec.subsystem == y.subsystem && spec.namespace == y.namespace && spec.sql == y.sql
      && spec.minMajor == y.minMajor && spec.minMinor == y.minMinor && spec.labels == y.labels
      && |spec.metrics| == |y.metrics|
    ensures forall i :: 0 <= i < |y.metrics| ==> KeepsFields(Internal(y).metrics[i], y.metrics[i])
    ensures forall i :: 0 <= i < |y.metrics| ==>
      if y.metrics[i].metricType == "counter" && !y.metrics[i].timestampAsUnix
      then Fresh(Internal(y)).counter[i] == Some(CD.State(map[], map[])) && Fresh(Internal(y)).gauge[i] == None
      else Fresh(Internal(y)).counter[i] == None && Fresh(Internal(y)).gauge[i] == Some(map[])
  {
    AcceptedNeverPanics(y);
    forall i | 0 <= i < |y.metrics| ensures GoodMetric(y.metrics[i]) { }
  }

  predicate KeepsFields(m: MetricSpec, y: YamlMetric) {
    && m.name == y.name && m.help == y.help && m.column == y.column && m.scale == y.scale
    && m.timestampAsUnix == y.timestampAsUnix
    && (y.metricType == "counter" <==> m.valueType == CounterValue)
    && (y.metricType == "" || y.metricType == "gauge" <==> m.valueType == GaugeValue)
  }
}
