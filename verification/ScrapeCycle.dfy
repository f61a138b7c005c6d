/**
 One scrape cycle: every collector runs in its own goroutine and sends into a
 counting channel, whose forwarder copies each metric to the shared sink; the
 cycle then emits the exporter's own metrics. Each atomic step of any goroutine
 is an action, and a run is any sequence of enabled actions.
 */
module ScrapeCycle {
  import opened History
  import opened Options

  const CAPACITY := 64

  datatype Metric = Metric(name: string, labels: seq<string>, value: real)

  /** What a collector's Scrape does: the metrics it sends in order, and whether it fails. */
  datatype Script = Script(metrics: seq<Metric>, fails: bool)

  datatype Phase =
    | Scraping          // Scrape is running
    | Closing           // Scrape returned and the channel is closed; waiting for the count
    | Recorded          // the self-metrics of this collector are set

  /** A collector goroutine with its channel and forwarder. */
  datatype Worker = Worker(
    phase: Phase,
    todo: seq<Metric>,       // not sent yet
    sent: seq<Metric>,       // history of sends
    buffer: seq<Metric>,     // in the channel
    hand: Option<Metric>,    // received by the forwarder, not in the sink yet
    n: nat,             // the forwarder's count
    done: Option<nat>)  // the count handed back when the channel is drained

  datatype Sample =
    | Forwarded(source: nat, metric: Metric)
    | Up(ok: bool)
    | ScrapesTotal(count: nat)
    | Duration(name: string)
    | Errors(name: string, count: nat)
    | Cardinality(name: string, count: nat)

  datatype SelfMetrics = SelfMetrics(
    total: nat, durations: set<string>, errors: map<string, nat>, cardinality: map<string, nat>)

  /** `failed` is the collector whose error the group reports: the first to fail. */
  datatype State = State(
    workers: seq<Worker>, sink: seq<Sample>, own: SelfMetrics, failed: Option<nat>, finished: bool)

  /** The fixed inputs of one cycle. */
  datatype Cycle = Cycle(names: seq<string>, scripts: seq<Script>, before: SelfMetrics) {
    ghost predicate Valid() { |names| == |scripts| }
  }

  datatype Action =
    | Send(i: nat) | Return(i: nat) | Take(i: nat) | Forward(i: nat) | Report(i: nat) | Record(i: nat)
    | Emit(durations: seq<string>, errors: seq<string>, cardinality: seq<string>)

  function Start(c: Cycle): State {
    State(seq(|c.scripts|, i requires 0 <= i < |c.scripts| =>
            Worker(Scraping, c.scripts[i].metrics, [], [], None, 0, None)),
          [], c.before.(total := c.before.total + 1), None, false)
  }

  // ---- one goroutine ----

  predicate WorkerEnabled(w: Worker, a: Action) {
    match a
    case Send(_) => w.phase.Scraping? && w.todo != [] && |w.buffer| < CAPACITY
    case Return(_) => w.phase.Scraping? && w.todo == []
    case Take(_) => w.hand.None? && w.buffer != []
    case Forward(_) => w.hand.Some?
    case Report(_) => w.phase.Closing? && w.hand.None? && w.buffer == [] && w.done.None?
    case Record(_) => w.phase.Closing? && w.done.Some?
    case Emit(_, _, _) => false
  }

  function WorkerNext(w: Worker, a: Action): Worker
    requires WorkerEnabled(w, a)
  {
    match a
    case Send(_) => w.(todo := w.todo[1..], sent := w.sent + [w.todo[0]], buffer := w.buffer + [w.todo[0]])
    case Return(_) => w.(phase := Closing)
    case Take(_) => w.(buffer := w.buffer[1..], hand := Some(w.buffer[0]))
    case Forward(_) => w.(hand := None, n := w.n + 1)
    case Report(_) => w.(done := Some(w.n))
    case Record(_) => w.(phase := Recorded)
  }

  // ---- the whole cycle ----

  function Count(m: map<string, nat>, name: string): nat { if name in m then m[name] else 0 }

  /** Each key listed once, in an order the metric vector is free to choose. */
  ghost predicate Enumerates(order: seq<string>, keys: set<string>) {
    && (forall i, j :: 0 <= i < j < |order| ==> order[i] != order[j])
    && (forall k :: k in keys <==> k in order)
  }

  ghost predicate Enabled(c: Cycle, s: State, a: Action) {
    if a.Emit? then
      && !s.finished
      && (forall i :: 0 <= i < |s.workers| ==> s.workers[i].phase.Recorded?)
      && Enumerates(a.durations, s.own.durations)
      && Enumerates(a.errors, s.own.errors.Keys)
      && Enumerates(a.cardinality, s.own.cardinality.Keys)
    else
      a.i < |s.workers| && WorkerEnabled(s.workers[a.i], a)
  }

  function RecordOwn(c: Cycle, own: SelfMetrics, i: nat, n: nat): SelfMetrics
    requires i < |c.names| && i < |c.scripts|
  {
    var name := c.names[i];
    own.(durations := own.durations + {name},
         cardinality := own.cardinality[name := n],
         errors := if c.scripts[i].fails then own.errors[name := Count(own.errors, name) + 1] else own.errors)
  }

  function SomeFails(c: Cycle): bool {
    exists i :: 0 <= i < |c.scripts| && c.scripts[i].fails
  }

  function DurationSamples(order: seq<string>): seq<Sample> {
    seq(|order|, i requires 0 <= i < |order| => Duration(order[i]))
  }

  function ErrorSamples(errors: map<string, nat>, order: seq<string>): seq<Sample> {
    seq(|order|, i requires 0 <= i < |order| => Errors(order[i], Count(errors, order[i])))
  }

  function CardinalitySamples(cardinality: map<string, nat>, order: seq<string>): seq<Sample> {
    seq(|order|, i requires 0 <= i < |order| => Cardinality(order[i], Count(cardinality, order[i])))
  }

  /** pg_stat_up, the scrape total, then the three vectors. */
  function OwnSamples(up: bool, own: SelfMetrics, a: Action): seq<Sample>
    requires a.Emit?
  {
    [Up(up), ScrapesTotal(own.total)] + DurationSamples(a.durations)
    + ErrorSamples(own.errors, a.errors) + CardinalitySamples(own.cardinality, a.cardinality)
  }

  ghost function Next(c: Cycle, s: State, a: Action): State
    requires c.Valid() && |s.workers| == |c.names| && Enabled(c, s, a)
  {
    if a.Emit? then
      s.(sink := s.sink + OwnSamples(s.failed.None?, s.own, a), finished := true)
    else
      var w := s.workers[a.i];
      var s' := s.(workers := s.workers[a.i := WorkerNext(w, a)]);
      if a.Forward? then s'.(sink := s.sink + [Forwarded(a.i, w.hand.value)])
      else if a.Record? then
        s'.(own := RecordOwn(c, s.own, a.i, w.done.value),
            failed := if c.scripts[a.i].fails && s.failed.None? then Some(a.i) else s.failed)
      else s'
  }

  /** `s` is reached from the start of the cycle by taking `actions`. */
  ghost predicate Reaches(c: Cycle, actions: seq<Action>, s: State)
    requires c.Valid()
    decreases |actions|
  {
    if actions == [] then s == Start(c)
    else exists p :: ReachesVia(c, actions, p, s)
  }

  ghost predicate ReachesVia(c: Cycle, actions: seq<Action>, p: State, s: State)
    requires c.Valid() && actions != []
    decreases |actions|, 0
  {
    && Reaches(c, Init(actions), p)
    && |p.workers| == |c.names|
    && Enabled(c, p, Last(actions)) && s == Next(c, p, Last(actions))
  }

  // ---- the counting channel ----

  function HandSeq(h: Option<Metric>): seq<Metric> { match h case None => [] case Some(m) => [m] }

  /** The metrics of collector `i` that reached the sink, in order. */
  function From(sink: seq<Sample>, i: nat): seq<Metric> {
    if sink == [] then []
    else From(Init(sink), i) + match Last(sink) {
           case Forwarded(j, m) => if i == j then [m] else []
           case _ => []
         }
  }

  /** sent = forwarded ++ in hand ++ buffer, within capacity, counted exactly. */
  ghost predicate ChannelInv(script: Script, w: Worker, forwarded: seq<Metric>) {
    && w.sent + w.todo == script.metrics
    && w.sent == forwarded + HandSeq(w.hand) + w.buffer
    && |w.buffer| <= CAPACITY
    && w.n == |forwarded|
    && (!w.phase.Scraping? ==> w.todo == [])
    && (w.done.Some? ==> !w.phase.Scraping? && w.hand.None? && w.buffer == [] && w.done.value == w.n)
    && (w.phase.Recorded? ==> w.done.Some?)
  }

  lemma ChannelStep(script: Script, w: Worker, a: Action, forwarded: seq<Metric>)
    requires ChannelInv(script, w, forwarded) && WorkerEnabled(w, a)
    ensures ChannelInv(script, WorkerNext(w, a), if a.Forward? then forwarded + [w.hand.value] else forwarded)
  {
  }

  /** Each step of a goroutine uses up some of this. */
  function WorkerMeasure(w: Worker): nat {
    3 * |w.todo| + 2 * |w.buffer| + |HandSeq(w.hand)|
    + (if w.phase.Scraping? then 1 else 0) + (if w.done.None? then 1 else 0)
    + (if w.phase.Recorded? then 0 else 1)
  }

  lemma WorkerProgress(w: Worker, i: nat) returns (a: Action)
    requires !w.phase.Recorded? && |w.buffer| <= CAPACITY
    ensures !a.Emit? && a.i == i && WorkerEnabled(w, a)
  {
    a := if w.hand.Some? then Forward(i)
         else if w.buffer != [] then Take(i)
         else if w.phase.Scraping? then (if w.todo == [] then Return(i) else Send(i))
         else if w.done.None? then Report(i)
         else Record(i);
  }

  // ---- invariants of every run ----

  function FailCount(c: Cycle, ws: seq<Worker>, name: string): nat
    requires |ws| <= |c.names| && |ws| <= |c.scripts|
  {
    if ws == [] then 0
    else
      var i := |ws| - 1;
      FailCount(c, ws[..i], name) + if ws[i].phase.Recorded? && c.scripts[i].fails && c.names[i] == name then 1 else 0
  }

  ghost predicate KeysInv(c: Cycle, s: State)
    requires c.Valid() && |s.workers| == |c.names|
  {
    && s.own.total == c.before.total + 1
    && s.own.durations == c.before.durations + RecordedNames(c, s)
    && s.own.cardinality.Keys == c.before.cardinality.Keys + RecordedNames(c, s)
    && s.own.errors.Keys == c.before.errors.Keys + FailedNames(c, s)
  }

  ghost predicate OwnInv(c: Cycle, s: State)
    requires c.Valid() && |s.workers| == |c.names|
  {
    && KeysInv(c, s)
    && (forall name :: name in s.own.cardinality ==> GaugeInv(c, s, name))
    && (forall name :: ErrorsInv(c, s, name))
  }

  ghost function RecordedNames(c: Cycle, s: State): set<string>
    requires |s.workers| == |c.names|
  {
    set i | i in RecordedIndices(s.workers) :: c.names[i]
  }

  ghost function FailedNames(c: Cycle, s: State): set<string>
    requires |s.workers| == |c.names| == |c.scripts|
  {
    set i | i in RecordedIndices(s.workers) && c.scripts[i].fails :: c.names[i]
  }

  ghost function RecordedIndices(ws: seq<Worker>): (r: set<nat>)
    ensures forall i :: i in r ==> i < |ws|
  {
    set i: nat | i < |ws| && ws[i].phase.Recorded?
  }

  /** The gauge of `name` holds the count of one of the collectors so named. */
  ghost predicate SetBy(c: Cycle, s: State, name: string)
    requires |s.workers| == |c.names| && name in s.own.cardinality
  {
    exists i :: 0 <= i < |s.workers| && s.workers[i].phase.Recorded? && c.names[i] == name
                && s.own.cardinality[name] == s.workers[i].n
  }

  ghost predicate Channels(c: Cycle, s: State)
    requires c.Valid() && |s.workers| == |c.names|
  {
    forall i :: 0 <= i < |s.workers| ==> ChannelInv(c.scripts[i], s.workers[i], From(s.sink, i))
  }

  ghost predicate OnlyForwards(sink: seq<Sample>, n: nat) {
    forall k :: 0 <= k < |sink| ==> sink[k].Forwarded? && sink[k].source < n
  }

  /** The group reports a collector that failed, as soon as one has. */
  ghost predicate GroupInv(c: Cycle, s: State)
    requires c.Valid() && |s.workers| == |c.names|
  {
    match s.failed
    case None => forall i :: 0 <= i < |s.workers| && s.workers[i].phase.Recorded? ==> !c.scripts[i].fails
    case Some(i) => i < |s.workers| && s.workers[i].phase.Recorded? && c.scripts[i].fails
  }

  ghost predicate Running(c: Cycle, s: State)
    requires c.Valid()
  {
    && |s.workers| == |c.names|
    && !s.finished
    && OnlyForwards(s.sink, |s.workers|)
    && Channels(c, s)
    && GroupInv(c, s)
    && OwnInv(c, s)
  }

  /** The cycle is over: `s` is what emitting the exporter's own samples left. */
  ghost predicate Finished(c: Cycle, s: State)
    requires c.Valid()
  {
    exists p: State, a: Action :: FinishedBy(c, p, a, s)
  }

  ghost predicate FinishedBy(c: Cycle, p: State, a: Action, s: State)
    requires c.Valid()
  {
    Running(c, p) && a.Emit? && Enabled(c, p, a) && s == Next(c, p, a)
  }

  lemma FromSnoc(sink: seq<Sample>, x: Sample, i: nat)
    ensures From(sink + [x], i) ==
      From(sink, i) + if x.Forwarded? && x.source == i then [x.metric] else []
  {
  }

  lemma {:induction false} StartInv(c: Cycle)
    requires c.Valid()
    ensures Running(c, Start(c))
  {
    var s := Start(c);
    assert RecordedNames(c, s) == {} && FailedNames(c, s) == {};
    forall name ensures FailCount(c, s.workers, name) == 0 { NoFailures(c, s.workers, name); }
  }

  lemma {:induction false} NoFailures(c: Cycle, ws: seq<Worker>, name: string)
    requires |ws| <= |c.names| && |ws| <= |c.scripts|
    requires forall i :: 0 <= i < |ws| ==> !ws[i].phase.Recorded?
    ensures FailCount(c, ws, name) == 0
  {
    if ws != [] { NoFailures(c, ws[..|ws| - 1], name); }
  }

  lemma {:induction false} FailCountUpdate(c: Cycle, ws: seq<Worker>, i: nat, w: Worker, name: string)
    requires i < |ws| <= |c.names| && |ws| <= |c.scripts|
    requires !ws[i].phase.Recorded?
    ensures FailCount(c, ws[i := w], name) == FailCount(c, ws, name) +
              if w.phase.Recorded? && c.scripts[i].fails && c.names[i] == name then 1 else 0
  {
    var last := |ws| - 1;
    if i == last {
      assert ws[i := w][..last] == ws[..last];
    } else {
      assert ws[i := w][..last] == ws[..last][i := w];
      FailCountUpdate(c, ws[..last], i, w, name);
    }
  }

  /** One goroutine's channel after a step of goroutine `a.i`. */
  lemma {:induction false} ChannelAfter(c: Cycle, s: State, a: Action, s': State, j: nat)
    requires c.Valid() && |s.workers| == |c.names| && j < |s.workers|
    requires ChannelInv(c.scripts[j], s.workers[j], From(s.sink, j))
    requires !a.Emit? && Enabled(c, s, a) && s' == Next(c, s, a)
    ensures ChannelInv(c.scripts[j], s'.workers[j], From(s'.sink, j))
  {
    if a.Forward? { FromSnoc(s.sink, Forwarded(a.i, s.workers[a.i].hand.value), j); }
    if j == a.i { ChannelStep(c.scripts[j], s.workers[j], a, From(s.sink, j)); }
  }

  lemma {:induction false} StepChannels(c: Cycle, s: State, a: Action, s': State)
    requires c.Valid() && |s.workers| == |c.names| && OnlyForwards(s.sink, |s.workers|) && Channels(c, s)
    requires !a.Emit? && Enabled(c, s, a) && s' == Next(c, s, a)
    ensures OnlyForwards(s'.sink, |s'.workers|) && Channels(c, s')
  {
    forall j | 0 <= j < |s'.workers| ensures ChannelInv(c.scripts[j], s'.workers[j], From(s'.sink, j)) {
      ChannelAfter(c, s, a, s', j);
    }
  }

  lemma {:induction false} RecordedUpdate(c: Cycle, s: State, s': State, i: nat)
    requires c.Valid() && i < |s.workers| == |c.names| && !s.workers[i].phase.Recorded?
    requires |s'.workers| == |s.workers| && s'.workers == s.workers[i := s'.workers[i]]
    ensures var done := s'.workers[i].phase.Recorded?;
      && RecordedNames(c, s') == RecordedNames(c, s) + (if done then {c.names[i]} else {})
      && FailedNames(c, s') == FailedNames(c, s) + (if done && c.scripts[i].fails then {c.names[i]} else {})
  {
  }

  /** What a step of goroutine `i` does to the workers and the self-metrics. */
  ghost predicate Moved(c: Cycle, s: State, s': State, i: nat, records: bool)
    requires c.Valid()
  {
    && |s'.workers| == |s.workers| == |c.names| && i < |s.workers|
    && s'.workers == s.workers[i := s'.workers[i]]
    && !s.workers[i].phase.Recorded? && (s'.workers[i].phase.Recorded? <==> records)
    && s'.own == if records then RecordOwn(c, s.own, i, s'.workers[i].n) else s.own
  }

  lemma {:induction false} StepMoves(c: Cycle, s: State, a: Action)
    requires c.Valid() && Running(c, s) && !a.Emit? && Enabled(c, s, a)
    ensures Moved(c, s, Next(c, s, a), a.i, a.Record?)
  {
  }

  ghost predicate ErrorsInv(c: Cycle, s: State, name: string)
    requires c.Valid() && |s.workers| == |c.names|
  {
    Count(s.own.errors, name) == Count(c.before.errors, name) + FailCount(c, s.workers, name)
  }

  ghost predicate GaugeInv(c: Cycle, s: State, name: string)
    requires c.Valid() && |s.workers| == |c.names| && name in s.own.cardinality
  {
    if name in RecordedNames(c, s) then SetBy(c, s, name)
    else name in c.before.cardinality && s.own.cardinality[name] == c.before.cardinality[name]
  }

  lemma {:induction false} StepErrors(c: Cycle, s: State, s': State, i: nat, records: bool, name: string)
    requires c.Valid() && Moved(c, s, s', i, records) && ErrorsInv(c, s, name)
    ensures ErrorsInv(c, s', name)
  {
    FailCountUpdate(c, s.workers, i, s'.workers[i], name);
  }

  lemma {:induction false} StepCardinality(c: Cycle, s: State, s': State, i: nat, records: bool, name: string)
    requires c.Valid() && Moved(c, s, s', i, records)
    requires name in s.own.cardinality ==> GaugeInv(c, s, name)
    requires name in s'.own.cardinality
    ensures GaugeInv(c, s', name)
  {
  }

  lemma {:induction false} StepOwn(c: Cycle, s: State, a: Action, s': State)
    requires c.Valid() && Running(c, s) && !a.Emit? && Enabled(c, s, a) && s' == Next(c, s, a)
    ensures OwnInv(c, s')
  {
    StepMoves(c, s, a);
    OwnMoves(c, s, s', a.i, a.Record?);
  }

  lemma {:induction false} OwnMoves(c: Cycle, s: State, s': State, i: nat, records: bool)
    requires c.Valid() && Moved(c, s, s', i, records) && OwnInv(c, s)
    ensures OwnInv(c, s')
  {
    RecordedUpdate(c, s, s', i);
    forall name ensures ErrorsInv(c, s', name) {
      assert ErrorsInv(c, s, name);
      StepErrors(c, s, s', i, records, name);
    }
    forall name | name in s'.own.cardinality ensures GaugeInv(c, s', name) {
      if name in s.own.cardinality { assert GaugeInv(c, s, name); }
      StepCardinality(c, s, s', i, records, name);
    }
  }

  lemma {:induction false} StepGroup(c: Cycle, s: State, a: Action, s': State)
    requires c.Valid() && |s.workers| == |c.names| && Channels(c, s) && GroupInv(c, s)
    requires !a.Emit? && Enabled(c, s, a) && s' == Next(c, s, a)
    ensures GroupInv(c, s')
  {
    assert ChannelInv(c.scripts[a.i], s.workers[a.i], From(s.sink, a.i));
  }

  /** Every step of every goroutine keeps the invariant. */
  lemma {:induction false} StepInv(c: Cycle, s: State, a: Action)
    requires c.Valid() && Running(c, s) && !a.Emit? && Enabled(c, s, a)
    ensures Running(c, Next(c, s, a))
  {
    StepChannels(c, s, a, Next(c, s, a));
    StepGroup(c, s, a, Next(c, s, a));
    StepOwn(c, s, a, Next(c, s, a));
  }

  /** Nothing can happen once the cycle has finished. */
  lemma FinishedIsFinal(c: Cycle, s: State, a: Action)
    requires c.Valid() && Finished(c, s)
    ensures |s.workers| == |c.names| && !Enabled(c, s, a)
  {
  }

  /** The group keeps the first error: once a collector is recorded as failed, no step changes it. */
  lemma FirstErrorKept(c: Cycle, s: State, a: Action)
    requires c.Valid() && |s.workers| == |c.names| && Enabled(c, s, a)
    ensures s.failed.Some? ==> Next(c, s, a).failed == s.failed
    ensures s.failed.None? && Next(c, s, a).failed.Some? ==>
      a.Record? && Next(c, s, a).failed == Some(a.i) && c.scripts[a.i].fails
  {
  }

  /** A collector can send exactly while it has metrics left and fewer than 64 wait in its channel. */
  lemma SendsUntilFull(c: Cycle, s: State, i: nat)
    requires c.Valid() && Running(c, s) && i < |c.names|
    ensures |s.workers[i].buffer| <= 64
    ensures Enabled(c, s, Send(i)) <==>
      s.workers[i].phase.Scraping? && |s.workers[i].sent| < |c.scripts[i].metrics| && |s.workers[i].buffer| < 64
  {
    assert ChannelInv(c.scripts[i], s.workers[i], From(s.sink, i));
  }

  /** Safety over whole runs. */
  lemma {:induction false} RunInv(c: Cycle, actions: seq<Action>, s: State)
    requires c.Valid() && Reaches(c, actions, s)
    ensures Running(c, s) || Finished(c, s)
    decreases |actions|
  {
    if actions == [] {
      StartInv(c);
    } else {
      var p :| ReachesVia(c, actions, p, s);
      var a := Last(actions);
      RunInv(c, Init(actions), p);
      if Finished(c, p) { FinishedIsFinal(c, p, a); }
      if a.Emit? {
        assert FinishedBy(c, p, a, s);
      } else {
        StepInv(c, p, a);
      }
    }
  }

  // ---- termination ----

  function Total(ws: seq<Worker>): nat {
    if ws == [] then 0 else Total(ws[..|ws| - 1]) + WorkerMeasure(ws[|ws| - 1])
  }

  function Measure(s: State): nat { Total(s.workers) + if s.finished then 0 else 1 }

  lemma {:induction false} TotalUpdate(ws: seq<Worker>, i: nat, w: Worker)
    requires i < |ws|
    ensures Total(ws[i := w]) == Total(ws) - WorkerMeasure(ws[i]) + WorkerMeasure(w)
  {
    var last := |ws| - 1;
    if i == last {
      assert ws[i := w][..last] == ws[..last];
    } else {
      assert ws[i := w][..last] == ws[..last][i := w];
      TotalUpdate(ws[..last], i, w);
    }
  }

  lemma {:induction false} StepDecreases(c: Cycle, s: State, a: Action)
    requires c.Valid() && |s.workers| == |c.names| && Enabled(c, s, a)
    ensures Measure(Next(c, s, a)) < Measure(s)
  {
    if !a.Emit? {
      TotalUpdate(s.workers, a.i, WorkerNext(s.workers[a.i], a));
    }
  }

  /** Every run is finite, with a bound fixed by what the collectors send. */
  lemma {:induction false} RunsTerminate(c: Cycle, actions: seq<Action>, s: State)
    requires c.Valid() && Reaches(c, actions, s)
    ensures |actions| + Measure(s) <= Measure(Start(c))
    decreases |actions|
  {
    if actions != [] {
      var p :| ReachesVia(c, actions, p, s);
      RunsTerminate(c, Init(actions), p);
      StepDecreases(c, p, Last(actions));
    }
  }

  lemma {:induction false} Enumeration(keys: set<string>) returns (order: seq<string>)
    ensures Enumerates(order, keys)
  {
    if keys == {} {
      order := [];
    } else {
      var k :| k in keys;
      var rest := Enumeration(keys - {k});
      order := rest + [k];
      forall i | 0 <= i < |rest| ensures rest[i] != k { assert rest[i] in keys - {k}; }
    }
  }

  /** No deadlock: while the sink accepts, an unfinished cycle always has an enabled step. */
  lemma {:induction false} NoDeadlock(c: Cycle, s: State) returns (a: Action)
    requires c.Valid() && Running(c, s)
    ensures Enabled(c, s, a)
  {
    if i :| 0 <= i < |s.workers| && !s.workers[i].phase.Recorded? {
      assert ChannelInv(c.scripts[i], s.workers[i], From(s.sink, i));
      a := WorkerProgress(s.workers[i], i);
    } else {
      var ds := Enumeration(s.own.durations);
      var es := Enumeration(s.own.errors.Keys);
      var cs := Enumeration(s.own.cardinality.Keys);
      a := Emit(ds, es, cs);
    }
  }

  // ---- what a finished cycle delivered ----

  ghost function AllForwarded(sink: seq<Sample>): multiset<Metric> {
    if sink == [] then multiset{}
    else AllForwarded(Init(sink)) + match Last(sink) {
           case Forwarded(_, m) => multiset{m}
           case _ => multiset{}
         }
  }

  ghost function AllSent(scripts: seq<Script>): multiset<Metric> {
    if scripts == [] then multiset{} else AllSent(Init(scripts)) + multiset(Last(scripts).metrics)
  }

  /** The disjoint union of the shares. */
  ghost function Union(shares: seq<seq<Metric>>): multiset<Metric> {
    if shares == [] then multiset{} else Union(Init(shares)) + multiset(Last(shares))
  }

  ghost function Shares(sink: seq<Sample>, n: nat): (r: seq<seq<Metric>>)
    ensures |r| == n
  {
    seq(n, i requires 0 <= i < n => From(sink, i))
  }

  lemma {:induction false} UnionGrows(shares: seq<seq<Metric>>, j: nat, m: Metric)
    requires j < |shares|
    ensures Union(shares[j := shares[j] + [m]]) == Union(shares) + multiset{m}
  {
    var grown := shares[j := shares[j] + [m]];
    var rest := Union(Init(shares));
    if j == |shares| - 1 {
      assert Init(grown) == Init(shares) && Last(grown) == shares[j] + [m];
      assert Union(grown) == rest + multiset(shares[j] + [m]);
      assert multiset(shares[j] + [m]) == multiset(shares[j]) + multiset{m};
    } else {
      assert Init(grown) == Init(shares)[j := shares[j] + [m]] && Last(grown) == Last(shares);
      UnionGrows(Init(shares), j, m);
      assert Union(grown) == (rest + multiset{m}) + multiset(Last(shares));
    }
  }

  lemma {:induction false} UnionOfNothing(shares: seq<seq<Metric>>)
    requires forall i :: 0 <= i < |shares| ==> shares[i] == []
    ensures Union(shares) == multiset{}
  {
    if shares != [] { UnionOfNothing(Init(shares)); }
  }

  lemma {:induction false} SharesGrow(sink: seq<Sample>, x: Sample, n: nat)
    requires x.Forwarded? && x.source < n
    ensures Shares(sink + [x], n) == Shares(sink, n)[x.source := Shares(sink, n)[x.source] + [x.metric]]
  {
    forall i | 0 <= i < n
      ensures From(sink + [x], i) == if i == x.source then From(sink, i) + [x.metric] else From(sink, i)
    {
      FromSnoc(sink, x, i);
    }
  }

  /** The forwarded metrics are the disjoint union of each collector's share. */
  lemma {:induction false} SinkPartition(sink: seq<Sample>, n: nat)
    requires OnlyForwards(sink, n)
    ensures AllForwarded(sink) == Union(Shares(sink, n))
  {
    if sink == [] {
      UnionOfNothing(Shares(sink, n));
    } else {
      var prev, x := Init(sink), Last(sink);
      assert x == sink[|sink| - 1] && sink == prev + [x];
      SinkPartition(prev, n);
      SharesGrow(prev, x, n);
      UnionGrows(Shares(prev, n), x.source, x.metric);
    }
  }

  lemma {:induction false} ForwardedCount(sink: seq<Sample>, n: nat)
    requires OnlyForwards(sink, n)
    ensures |AllForwarded(sink)| == |sink|
  {
    if sink != [] {
      assert sink[|sink| - 1].Forwarded?;
      ForwardedCount(Init(sink), n);
    }
  }

  lemma {:induction false} SharesAreScripts(scripts: seq<Script>, sink: seq<Sample>)
    requires forall i :: 0 <= i < |scripts| ==> From(sink, i) == scripts[i].metrics
    ensures Union(Shares(sink, |scripts|)) == AllSent(scripts)
  {
    if scripts != [] {
      forall i | 0 <= i < |Init(scripts)| ensures From(sink, i) == Init(scripts)[i].metrics {
        assert Init(scripts)[i] == scripts[i];
      }
      SharesAreScripts(Init(scripts), sink);
      assert Init(Shares(sink, |scripts|)) == Shares(sink, |scripts| - 1);
    }
  }

  lemma {:induction false} OwnSamplesForwardNothing(sink: seq<Sample>, own: seq<Sample>, i: nat)
    requires forall k :: 0 <= k < |own| ==> IsOwn(own[k])
    ensures From(sink + own, i) == From(sink, i) && AllForwarded(sink + own) == AllForwarded(sink)
  {
    if own == [] {
      assert sink + own == sink;
    } else {
      assert Init(sink + own) == sink + Init(own);
      OwnSamplesForwardNothing(sink, Init(own), i);
    }
  }

  predicate IsOwn(x: Sample) { !x.Forwarded? }

  /** The exporter's own samples: up and the total, then exactly one per child of the three vectors. */
  ghost predicate OwnListing(own: seq<Sample>, up: bool, m: SelfMetrics) {
    && |own| == 2 + |m.durations| + |m.errors| + |m.cardinality|
    && own[0] == Up(up) && own[1] == ScrapesTotal(m.total)
    && (forall k :: 0 <= k < |own| ==> IsOwn(own[k]))
    && (forall name :: name in m.durations ==> Duration(name) in own)
    && (forall name :: name in m.errors ==> Errors(name, m.errors[name]) in own)
    && (forall name :: name in m.cardinality ==> Cardinality(name, m.cardinality[name]) in own)
  }

  lemma {:induction false} EnumerationLength(order: seq<string>, keys: set<string>)
    requires Enumerates(order, keys)
    ensures |order| == |keys|
    decreases |order|
  {
    if order == [] {
      assert keys == {};
    } else {
      var rest, last := Init(order), Last(order);
      assert forall k :: k in rest <==> k in keys - {last} by {
        assert order == rest + [last];
        forall k | k in rest ensures k != last {
          var i :| 0 <= i < |rest| && rest[i] == k;
          assert order[i] != order[|order| - 1];
        }
      }
      EnumerationLength(rest, keys - {last});
    }
  }

  lemma {:induction false} OwnSamplesList(up: bool, own: SelfMetrics, a: Action)
    requires a.Emit? && Enumerates(a.durations, own.durations)
    requires Enumerates(a.errors, own.errors.Keys) && Enumerates(a.cardinality, own.cardinality.Keys)
    ensures OwnListing(OwnSamples(up, own, a), up, own)
  {
    var ds, es, cs := DurationSamples(a.durations), ErrorSamples(own.errors, a.errors),
                      CardinalitySamples(own.cardinality, a.cardinality);
    EnumerationLength(a.durations, own.durations);
    EnumerationLength(a.errors, own.errors.Keys);
    EnumerationLength(a.cardinality, own.cardinality.Keys);
    forall name | name in own.durations ensures Duration(name) in ds {
      var i :| 0 <= i < |a.durations| && a.durations[i] == name;
      assert ds[i] == Duration(name);
    }
    forall name | name in own.errors ensures Errors(name, own.errors[name]) in es {
      var i :| 0 <= i < |a.errors| && a.errors[i] == name;
      assert es[i] == Errors(name, own.errors[name]);
    }
    forall name | name in own.cardinality ensures Cardinality(name, own.cardinality[name]) in cs {
      var i :| 0 <= i < |a.cardinality| && a.cardinality[i] == name;
      assert cs[i] == Cardinality(name, own.cardinality[name]);
    }
  }

  lemma {:induction false} UpIff(c: Cycle, p: State)
    requires c.Valid() && Running(c, p) && forall i :: 0 <= i < |p.workers| ==> p.workers[i].phase.Recorded?
    ensures p.failed.None? <==> !SomeFails(c)
  {
  }

  /** The sink at the end: what the forwarders delivered, then the exporter's own samples. */
  lemma {:induction false} FinalSink(c: Cycle, s: State) returns (delivered: seq<Sample>, own: seq<Sample>)
    requires c.Valid() && Finished(c, s)
    ensures s.sink == delivered + own && OnlyForwards(delivered, |c.names|)
    ensures forall i :: 0 <= i < |c.names| ==> From(delivered, i) == c.scripts[i].metrics
    ensures OwnListing(own, !SomeFails(c), s.own) && s.own.total == c.before.total + 1
  {
    var p: State, a: Action :| FinishedBy(c, p, a, s);
    UpIff(c, p);
    delivered, own := p.sink, OwnSamples(p.failed.None?, p.own, a);
    OwnSamplesList(p.failed.None?, p.own, a);
    forall i | 0 <= i < |c.names| ensures From(p.sink, i) == c.scripts[i].metrics {
      assert ChannelInv(c.scripts[i], p.workers[i], From(p.sink, i));
    }
  }

  /**
   Whatever the interleaving, a finished cycle's sink is everything the collectors
   sent, each collector in its own order and nothing lost or repeated, followed by
   the exporter's own samples: up exactly when no collector failed, the total, and
   one sample with its current value per child of the three vectors.
   */
  lemma {:induction false} Conservation(c: Cycle, s: State)
    returns (delivered: seq<Sample>, own: seq<Sample>)
    requires c.Valid() && Finished(c, s)
    ensures s.sink == delivered + own && OnlyForwards(delivered, |c.names|)
    ensures forall i :: 0 <= i < |c.names| ==> From(s.sink, i) == c.scripts[i].metrics
    ensures AllForwarded(s.sink) == AllSent(c.scripts) && |delivered| == |AllSent(c.scripts)|
    ensures OwnListing(own, !SomeFails(c), s.own) && s.own.total == c.before.total + 1
  {
    delivered, own := FinalSink(c, s);
    forall i: nat ensures From(s.sink, i) == From(delivered, i) {
      OwnSamplesForwardNothing(delivered, own, i);
    }
    OwnSamplesForwardNothing(delivered, own, 0);
    SinkPartition(delivered, |c.names|);
    ForwardedCount(delivered, |c.names|);
    SharesAreScripts(c.scripts, delivered);
  }

  /**
   Every run of Collect that cannot go on has finished: it took a bounded number of
   steps and delivered everything, however the goroutines were scheduled.
   */
  lemma {:induction false} MaximalRunDelivers(c: Cycle, actions: seq<Action>, s: State)
    requires c.Valid() && Reaches(c, actions, s)
    requires forall a :: !Enabled(c, s, a)
    ensures s.finished && |actions| <= Measure(Start(c))
    ensures AllForwarded(s.sink) == AllSent(c.scripts)
    ensures forall i :: 0 <= i < |c.names| ==> From(s.sink, i) == c.scripts[i].metrics
  {
    RunInv(c, actions, s);
    RunsTerminate(c, actions, s);
    if Running(c, s) {
      var a := NoDeadlock(c, s);
      assert false;
    }
    var _, _ := Conservation(c, s);
    var p: State, a: Action :| FinishedBy(c, p, a, s);
  }

  lemma {:induction false} AllRecorded(c: Cycle, p: State)
    requires |p.workers| == |c.names| && forall i :: 0 <= i < |p.workers| ==> p.workers[i].phase.Recorded?
    ensures RecordedNames(c, p) == set i | 0 <= i < |c.names| :: c.names[i]
  {
  }

  ghost predicate CountOfNamesake(c: Cycle, name: string, n: nat)
    requires c.Valid()
  {
    exists j :: 0 <= j < |c.names| && c.names[j] == name && n == |c.scripts[j].metrics|
  }

  lemma {:induction false} NamesakeCounts(c: Cycle, p: State, name: string)
    requires c.Valid() && |p.workers| == |c.names| && Channels(c, p)
    requires name in p.own.cardinality && SetBy(c, p, name)
    ensures CountOfNamesake(c, name, p.own.cardinality[name])
  {
  }

  lemma {:induction false} FinishedGauges(c: Cycle, s: State)
    requires c.Valid() && Finished(c, s)
    ensures s.own.cardinality.Keys == c.before.cardinality.Keys + (set i | 0 <= i < |c.names| :: c.names[i])
    ensures s.own.durations == c.before.durations + (set i | 0 <= i < |c.names| :: c.names[i])
    ensures forall i :: 0 <= i < |c.names| ==>
      c.names[i] in s.own.cardinality && CountOfNamesake(c, c.names[i], s.own.cardinality[c.names[i]])
  {
    var p: State, a: Action :| FinishedBy(c, p, a, s);
    AllRecorded(c, p);
    forall i | 0 <= i < |c.names|
      ensures c.names[i] in s.own.cardinality && CountOfNamesake(c, c.names[i], s.own.cardinality[c.names[i]])
    {
      assert c.names[i] in RecordedNames(c, p);
      NamesakeCounts(c, p, c.names[i]);
    }
  }

  /**
   The cardinality gauges report every collector's count exactly when collectors
   that share a name also send equally many metrics; otherwise one count is lost.
   */
  lemma CardinalityExactIff(c: Cycle, s: State)
    requires c.Valid() && Finished(c, s)
    ensures forall i :: 0 <= i < |c.names| ==> c.names[i] in s.own.cardinality
    ensures (forall i :: 0 <= i < |c.names| ==> s.own.cardinality[c.names[i]] == |c.scripts[i].metrics|)
       <==> (forall i, j :: 0 <= i < |c.names| && 0 <= j < |c.names| && c.names[i] == c.names[j] ==>
               |c.scripts[i].metrics| == |c.scripts[j].metrics|)
  {
    FinishedGauges(c, s);
  }

  ghost function GaugeSum(names: seq<string>, gauge: map<string, nat>): nat
    requires forall i :: 0 <= i < |names| ==> names[i] in gauge
  {
    if names == [] then 0 else GaugeSum(Init(names), gauge) + gauge[Last(names)]
  }

  lemma {:induction false} GaugeSumIsAllSent(names: seq<string>, scripts: seq<Script>, gauge: map<string, nat>)
    requires |names| == |scripts| && forall i :: 0 <= i < |names| ==> names[i] in gauge
    requires forall i :: 0 <= i < |names| ==> gauge[names[i]] == |scripts[i].metrics|
    ensures GaugeSum(names, gauge) == |AllSent(scripts)|
  {
    if names != [] {
      forall i | 0 <= i < |Init(names)|
        ensures Init(names)[i] in gauge && gauge[Init(names)[i]] == |Init(scripts)[i].metrics|
      {
        assert names[i] in gauge && Init(scripts)[i] == scripts[i];
      }
      GaugeSumIsAllSent(Init(names), Init(scripts), gauge);
    }
  }

  /** With distinct collector names the gauges of a cycle sum to the metrics it forwarded. */
  lemma GaugesSumToForwarded(c: Cycle, s: State)
    requires c.Valid() && Finished(c, s)
    requires forall i, j :: 0 <= i < j < |c.names| ==> c.names[i] != c.names[j]
    ensures forall i :: 0 <= i < |c.names| ==> c.names[i] in s.own.cardinality
    ensures GaugeSum(c.names, s.own.cardinality) == |AllForwarded(s.sink)|
  {
    CardinalityExactIff(c, s);
    var _, _ := Conservation(c, s);
    GaugeSumIsAllSent(c.names, c.scripts, s.own.cardinality);
  }

  ghost function Failing(c: Cycle, n: nat, name: string): set<nat>
    requires n <= |c.names| == |c.scripts|
  {
    set i: nat | i < n && c.scripts[i].fails && c.names[i] == name
  }

  lemma {:induction false} FailCountIsFailing(c: Cycle, ws: seq<Worker>, name: string)
    requires c.Valid() && |ws| <= |c.names| && forall i :: 0 <= i < |ws| ==> ws[i].phase.Recorded?
    ensures FailCount(c, ws, name) == |Failing(c, |ws|, name)|
  {
    if ws != [] {
      var i := |ws| - 1;
      FailCountIsFailing(c, ws[..i], name);
      assert Failing(c, |ws|, name) ==
             Failing(c, i, name) + if c.scripts[i].fails && c.names[i] == name then {i} else {};
    }
  }

  /** Each failing collector is counted once, under its own name. */
  lemma ErrorsCounted(c: Cycle, s: State, name: string)
    requires c.Valid() && Finished(c, s)
    ensures Count(s.own.errors, name) == Count(c.before.errors, name) + |Failing(c, |c.names|, name)|
  {
    var p: State, a: Action :| FinishedBy(c, p, a, s);
    assert ErrorsInv(c, p, name);
    FailCountIsFailing(c, p.workers, name);
  }

  // ---- the forwarder as code ----

  /** The counting channel with its forwarder, `out` being the part of the sink it fills. */
  class CountingChan {
    var buffer: seq<Metric>
    var hand: Option<Metric>
    var n: nat
    var out: seq<Metric>
    ghost var sent: seq<Metric>

    ghost predicate Valid()
      reads this
    {
      sent == out + HandSeq(hand) + buffer && n == |out| && |buffer| <= CAPACITY
    }

    constructor ()
      ensures Valid() && sent == []
    {
      buffer, hand, n, out, sent := [], None, 0, [], [];
    }

    /** A send blocks while the buffer is full. */
    method Put(m: Metric)
      requires Valid() && |buffer| < CAPACITY
      modifies this
      ensures Valid() && sent == old(sent) + [m] && out == old(out)
    {
      buffer := buffer + [m];
      sent := sent + [m];
    }

    /** One turn of the forwarder's loop. */
    method ForwardOne()
      requires Valid() && (hand.Some? || buffer != [])
      modifies this
      ensures Valid() && sent == old(sent) && |out| == |old(out)| + 1 && hand.None?
      ensures |buffer| + |HandSeq(hand)| < old(|buffer| + |HandSeq(hand)|)
    {
      if hand.None? {
        assert buffer == [buffer[0]] + buffer[1..];
        hand, buffer := Some(buffer[0]), buffer[1..];
      }
      out, n, hand := out + [hand.value], n + 1, None;
    }

    /** Close drains what is left and returns the number of metrics ever sent. */
    method Close() returns (count: nat)
      requires Valid()
      modifies this
      ensures Valid() && buffer == [] && hand.None?
      ensures sent == old(sent) && out == sent && count == |sent|
    {
      while hand.Some? || buffer != []
        invariant Valid() && sent == old(sent)
        decreases |buffer| + |HandSeq(hand)|
      {
        ForwardOne();
      }
      count := n;
    }
  }
}
