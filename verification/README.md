# pgxporter: verified model

pgxporter is a Prometheus exporter for PostgreSQL. Most of it is SQL text; what is
delicate is a small stateful and concurrent kernel, and that is what is modelled and
proved here:

- **Delta counters** (`CounterDelta.dfy`, `History.dfy`). PostgreSQL reports absolute
  totals, a Prometheus counter can only add. A side map remembers the last total per
  label tuple. The map and the counter vector are proved to agree with the history of
  observations, over every history and every interleaving.
- **The scrape cycle** (`ScrapeCycle.dfy`). Any number of collector goroutines, each with
  a 64-place counting channel and a forwarder into a shared sink, as a system of atomic
  steps: safety, conservation, absence of deadlock, a termination bound, and the
  self-metrics.
- **Scrape and shutdown locking** (`LockProtocol.dfy`). The exporter's mutex, with the
  helper goroutine that `Shutdown` starts and may abandon.
- **Declarative collectors** (`SpecYaml.dfy`, `SpecCollector.dfy`, `Emission.dfy`,
  `RowEmission.dfy`, `VersionGate.dfy`). From decoded YAML through validation and construction to the row
  loop, as code; then a proof that what a scrape emits refines "one metric per row", stated
  over the cells of the rows the server returned.
- **Version probing and version-gated SQL** (`VersionProbe.dfy`, `ServerColumns.dfy`,
  `VersionedSql.dfy`). The
  write-once cached server version under concurrent, failing probes, and the column
  lists that are composed by asking it.
- **Connection URI** (`Escaping.dfy`, `Hosts.dfy`, `Dsn.dfy`, `DsnUri.dfy`,
  `DsnProgram.dfy`). The printer, the decoders of
  its two nested encodings, and exact round trips. Percent-encoding follows section 2.1 of
  RFC 3986, user information section 3.2.1, hosts section 3.2.2, `+` for a space section
  17.13.4.1 of HTML 4.01, and the splitting of `options` the StartupMessage entry of the
  section "Message Formats" in the PostgreSQL Frontend/Backend Protocol.
- **Choosing and naming collectors** (`Registry.dfy`, `RegistryTable.dfy`, `Naming.dfy`) and the **connection
  retry loop** (`Connect.dfy`).

`dafny verify dfyconfig.toml` checks everything.

## How it is modelled

Code that updates an object is a class with the same fields, and each method is proved to
move the object's abstract value as a specification function says; the properties are
then proved about that function over whole histories. Concurrency is a state machine
whose actions are the atomic steps; a run is any sequence of enabled actions, so a
statement about runs covers every schedule. In a scrape cycle each collector's behaviour
is given as the metrics it will turn out to send and whether it will turn out to fail;
since this is arbitrary, it also covers collectors cut short by a cancelled context.
Metric values are exact reals; the program's float64 is exact for integers up to 2^53.
Strings in the URI are strings of bytes.

## Where the code and its documentation differ, and other findings

- `Shutdown` is documented to honour its context. The helper goroutine outlives a
  cancelled `Shutdown`, and once it owns the mutex no later scrape can start and no later
  `Shutdown` can succeed (`LockProtocol.OrphanedForever`, `LockProtocol.ScrapePossibleIff`;
  a run that gets there is `LockProtocol.OrphanReachable`).
- With the server version unknown, the background-writer query asks servers at 17 or later
  for columns they do not have; no other query modelled here ever does
  (`VersionedSql.UnsafeOnlyIff`; a run that gets there is
  `VersionedSql.UnsafeQueryReachable`).
- Custom collector names: the running index is added to a length that already grew, so
  names skip by two. Two calls with two collectors each already share a name
  (`Naming.TwoPairsCollide`), as do two YAML specs with one subsystem. The exact condition
  for all names to be distinct is `RegistryTable.ProgramNamesDistinctIff`. Collectors that
  share a name lose a cardinality count unless they send equally many metrics
  (`ScrapeCycle.CardinalityExactIff`).
- A history of scrapes panics in the modelled code exactly when some row gives a counter a
  negative value, for instance through a negative scale (`RowEmission.PanicsIffNegativeCell`).
- Label values that contain NUL can share a side-map key, and then a child stops following
  its observations. Text columns cannot hold NUL, but bytea columns can, so two rows of one
  query can cause this (`RowEmission.BytesBreakEmission`). The emission is right for a set of
  label tuples exactly when their keys are distinct (`Emission.EmittedIffDistinct`).
- A reset between two rows of one tuple inside one scrape can stay invisible in the exported
  samples (`CounterDelta.HiddenReset`); `CounterDelta.ResetAccounting` says exactly when
  Prometheus' reconstruction is right, and it always is with one row per tuple and scrape.
- A retry limit below -1 yields neither a client nor an error (`Connect.NilNilIff`).
- A version gate agrees with the ordering of versions exactly when its minor is between 0
  and 10000 and the encoded minimum fits a 64-bit integer (`VersionGate.GateExactIff`);
  a minimum of 2^60 wraps to no minimum (`VersionGate.OverflowOpensGate`).
- The printed URI can be taken apart exactly when the host is a name without colons or a
  bracketed IPv6 address and the port is not negative (`DsnUri.DsnRoundTripIff`); a bare
  IPv6 address is neither bracketed nor refused (`DsnUri.BareAddressFails`). Spaces in user,
  password and database come back as `+` under percent-decoding
  (`DsnUri.CredentialsDecodeIff`), and a backslash in an option is eaten by the server's
  splitting (`Dsn.OptionsRoundTripIff`).
- A statement, lock or idle timeout below a millisecond is printed as zero, which turns the
  timeout off (`DsnUri.TimeoutOffIff`).

## Model

| member | source | states |
|---|---|---|
| CounterDelta.CounterVec.constructor | exporter/collectors/vec.go:98-104 | a new counter vector has no children |
| CounterDelta.CounterVec.Add | exporter/collectors/vec.go:73-83 | creates a missing child at zero, then adds; a negative amount panics and adds nothing |
| CounterDelta.CounterVec.Delete | exporter/collectors/vec.go:80 | removes the child of one tuple and no other |
| CounterDelta.DeltaCounter.constructor | exporter/collectors/vec.go:50-55 | vector and side map start empty together |
| CounterDelta.DeltaCounter.Observe | exporter/collectors/vec.go:64-86 | the three branches move vector and side map, and panic, as the specified step; a panicking Add leaves the side map alone |
| CounterDelta.StepWritesValue | exporter/collectors/vec.go:70-85 | on a tuple where side map and vector agree, first sight, reset and advance all end with the child at the observed total, never add a negative amount, and a reset drops exactly the old child value |
| CounterDelta.PanicsIffNegative | exporter/collectors/vec.go:64-86 | over every history, whatever the tuples, Add panics exactly when some observed value is negative |
| CounterDelta.StepTracks | exporter/collectors/vec.go:64-86 | one observation preserves the agreement of the index with the history it caches |
| CounterDelta.RunTracks | exporter/collectors/vec.go:13-23 | after every history with distinct keys and non-negative values each child is the last value observed for its tuple, the side map's keys are exactly the joined live tuples, and no negative amount was ever added |
| CounterDelta.NulFreeTuplesInjective | exporter/collectors/vec.go:46 | joining with NUL separates any set of NUL-free tuples of one arity |
| CounterDelta.NulCollides | exporter/collectors/vec.go:65 | two different tuples that contain NUL have one key |
| CounterDelta.CollisionBreaks | exporter/collectors/vec.go:65-85 | any two tuples with one key give a history after which a child is zero though one was observed |
| CounterDelta.TracksIffInjective | exporter/collectors/vec.go:46-86 | over a set of tuples, all non-negative histories are tracked if and only if the keys of the tuples are distinct |
| CounterDelta.LatestDeterminesState | exporter/collectors/vec.go:64-86 | two histories with the same latest values leave the same vector and the same side map |
| CounterDelta.ScheduleIndependence | exporter/collectors/vec.go:37-41 | after any earlier history, every interleaving of clients that agree on the tuples they share (in particular, share none) ends in the state of running them one after another, without a panic |
| CounterDelta.AddsBalanceDrops | exporter/collectors/vec.go:70-85 | for every tuple the sum of Adds is the current child plus all values dropped at resets |
| CounterDelta.AddsAreGains | exporter/collectors/vec.go:70-85 | for every tuple the sum of Adds is the reset-aware gain over all observed values, the sum of deleted child values what their drops forget, and the child the last value |
| CounterDelta.GainsAtLeast | exporter/collectors/vec.go:13-23 | a scraper that skips intermediate values never reconstructs more than was added, and misses exactly what the skipped drops forget beyond the visible one |
| CounterDelta.ResetAccounting | exporter/collectors/vec.go:13-23 | over any scrapes, each of any rows and exporting at its end: the Adds of a tuple are its child plus the drops, never less than the first exported sample plus the reset-aware increase of the samples, and equal to that if and only if within each scrape the drops between the observed values forget exactly the previous sample when the scrape ends below it and nothing otherwise |
| CounterDelta.OneRowPerScrapeIsExact | exporter/collectors/vec.go:19-23 | with at most one row per tuple and scrape, what Prometheus reconstructs from the samples is what was added |
| CounterDelta.HiddenReset | exporter/collectors/vec.go:74-81 | a reset between two rows of one scrape that ends at or above the last sample makes the reconstruction too small |
| History.FlattenIsShuffle | exporter/collectors/spec.go:162-172 | running the clients one after another is one of their interleavings |
| History.ShuffleMembers | exporter/collectors/spec.go:162-172 | an interleaving loses and invents no write |
| History.ScheduleIndependentIff | exporter/collectors/spec.go:162-172 | the latest values are the same for every schedule of the clients if and only if clients that write a common key leave it with the same last value |
| ScrapeCycle.ChannelStep | exporter/exporter.go:343-363 | every step of a goroutine keeps sent = forwarded ++ in hand ++ buffer, at most 64 buffered, and the count exact |
| ScrapeCycle.StepInv | exporter/exporter.go:277-323 | every step of any goroutine keeps all channels, the sink and the self-metrics consistent |
| ScrapeCycle.FirstErrorKept | exporter/exporter.go:286-296 | the group records a collector only when it failed and keeps the first one for good |
| ScrapeCycle.SendsUntilFull | exporter/exporter.go:345 | in every running state at most 64 metrics wait in a channel, and a collector with metrics left can send exactly while fewer than 64 do |
| ScrapeCycle.RunInv | exporter/exporter.go:277-323 | safety over every run of a cycle, however the goroutines are scheduled |
| ScrapeCycle.FinishedIsFinal | exporter/exporter.go:293-302 | after the cycle emitted its own metrics no goroutine has a step left |
| ScrapeCycle.RunsTerminate | exporter/exporter.go:277-302 | every run's length plus what is still to do is bounded by a number fixed by the metrics to be sent |
| ScrapeCycle.NoDeadlock | exporter/exporter.go:277-323 | in every unfinished state some step is enabled while the sink accepts |
| ScrapeCycle.SinkPartition | exporter/exporter.go:348-356 | the forwarded metrics are the disjoint union of the collectors' shares, as multisets |
| ScrapeCycle.Conservation | exporter/exporter.go:277-302 | a finished cycle's sink is everything the collectors sent, nothing lost or repeated and each collector in its order, followed by the self-metrics: up if and only if no collector failed, the incremented total, and exactly one duration, error and cardinality sample per child with its current value |
| ScrapeCycle.MaximalRunDelivers | exporter/exporter.go:277-302 | every run that cannot go on has finished within the bound and delivered everything |
| ScrapeCycle.FinishedGauges | exporter/exporter.go:316-317 | after a cycle the gauges and durations exist for exactly the old names and this cycle's, and each of this cycle's gauges holds the count of some collector of that name |
| ScrapeCycle.CardinalityExactIff | exporter/exporter.go:158-166 | the cardinality gauges report every collector's count if and only if collectors that share a name send equally many metrics |
| ScrapeCycle.GaugesSumToForwarded | exporter/exporter.go:310-323 | with distinct names the gauges of the cycle sum to the number of metrics it forwarded |
| ScrapeCycle.ErrorsCounted | exporter/exporter.go:318-321 | each name's error counter grows by the number of failing collectors of that name |
| ScrapeCycle.CountingChan.constructor | exporter/exporter.go:343-357 | a new counting channel has sent, buffered and counted nothing |
| ScrapeCycle.CountingChan.Put | exporter/exporter.go:345 | a send into a channel with room appends one metric and keeps the accounting |
| ScrapeCycle.CountingChan.ForwardOne | exporter/exporter.go:350-353 | one turn of the forwarder delivers one more metric, loses none, and decreases what is buffered or in hand |
| ScrapeCycle.CountingChan.Close | exporter/exporter.go:359-363 | close drains the channel, terminates, and returns exactly the number of metrics ever sent, all delivered in order |
| LockProtocol.StepInv | exporter/exporter.go:226-242 | every step keeps mutual exclusion: the program counters of scrapes, helpers and callers agree with the one owner of the mutex |
| LockProtocol.RunInv | exporter/exporter.go:226-242 | mutual exclusion in every state of every run |
| LockProtocol.PoolsCloseOutsideScrapes | exporter/exporter.go:238-240 | a pool is closed only while its Shutdown's helper owns the mutex and no scrape is in its critical section |
| LockProtocol.ReturnedOkClosedAll | exporter/exporter.go:226-242 | in every run a Shutdown that returned nil has closed every pool once, one that is closing them those below its index, and one that waits or was cancelled none |
| LockProtocol.LockFreeIffIdle | exporter/exporter.go:277-279 | in runs without a cancelled Shutdown the mutex is free if and only if no scrape and no Shutdown is in its section |
| LockProtocol.OrphanedForever | exporter/exporter.go:235-236 | once the helper of a cancelled Shutdown owns the mutex it does so forever; no scrape enters, no pool closes, no Shutdown succeeds |
| LockProtocol.HelperOutlivesCancel | exporter/exporter.go:227-236 | after a cancelled Shutdown, in every later state, a free mutex can be taken by its helper for good |
| LockProtocol.ScrapePossibleIff | exporter/exporter.go:226-242 | in every reachable state a waiting scrape can still get in if and only if the mutex is not owned by the helper of a cancelled Shutdown |
| LockProtocol.OrphanReachable | exporter/exporter.go:226-237 | a run in which the context wins the race after the helper got the mutex |
| VersionProbe.StepInv | exporter/db/db.go:145-158 | every step of any number of callers keeps the cell zero or the server's version and the mutex consistent, and never changes a known version |
| VersionProbe.VersionWrittenOnce | exporter/db/db.go:33-39 | over every run the cell is written at most once, with the server's version, and at most one version query succeeds |
| VersionProbe.VersionStays | exporter/db/db.go:148-155 | once known, the version is known in every later state |
| VersionProbe.QueriesSerialised | exporter/db/db.go:41-44 | at most one version query is outstanding at any time |
| VersionProbe.AnswersCorrect | exporter/db/db.go:50-56 | a true answer is always right; a false answer on a new enough server means the last read found no version, and then the caller's own probe failed or there is no pool |
| VersionProbe.KnownVersionAnswersExactly | exporter/db/db.go:63-77 | a caller that answers after the version became known answers exactly |
| VersionProbe.FinalReadsAdmissible | exporter/db/db.go:63-77 | the versions successive gate calls rest on, in any run: zeros, then the server's version forever |
| VersionProbe.UnknownAnswerReachable | exporter/db/db.go:65-73 | a run in which a caller's query fails and it answers while the version is still unknown |
| VersionedSql.Client.constructor | exporter/db/db.go:124-127 | a new client does not know the version |
| VersionedSql.Client.Interfere | exporter/db/db.go:145-158 | other callers may fill the cell, only through a pool and only with the server's version |
| VersionedSql.Client.ProbeServerVersion | exporter/db/db.go:145-158 | re-checks, then fills the cell if the query succeeds; fails exactly when the version is still unknown |
| VersionedSql.Client.AtLeast | exporter/db/db.go:63-77 | the version stays unknown only if no probe of anyone succeeded around the call; the answer is the comparison with the version left in the cell |
| VersionedSql.Client.RestsSafe | exporter/db/db.go:50-56 | at the client, a query over any view is unsafe if and only if it is the background writer's, the server is at 17 or later, the version was unknown and no probe succeeded around the first gate |
| VersionedSql.Client.SqlSelectPgStatBgwriter | exporter/db/pg_stat_bgwriter.go:24-45 | the list as a function of the version its negative gate rested on; it names a missing column if and only if the server is at 17 or later, the version was unknown before, and no probe of anyone succeeded around the gate |
| VersionedSql.Client.SelectPgStatCheckpointer | exporter/db/pg_stat_checkpointer.go:13-34 | no query or the fixed columns, by the version its gate rested on, which is unknown exactly when no probe succeeded; never a missing view or column |
| VersionedSql.Client.SelectPgStatWal | exporter/db/pg_stat_wal.go:14-23 | the list as a function of the versions three successive gates rested on, the first unknown exactly when no probe succeeded; never a missing view or column, whatever happens between the gates |
| VersionedSql.Client.SqlSelectPgStatWal | exporter/db/pg_stat_wal.go:25-44 | the 14-only columns appear by the two inner gates, the second skipped when the first says no |
| VersionedSql.Client.SelectPgStatIO | exporter/db/pg_stat_io.go:19-56 | the list as a function of the versions the outer and the negative inner gate rested on; never a missing view or column, whatever happens between the gates |
| VersionedSql.Client.SqlSelectPgStatDatabase | exporter/db/pg_stat_database.go:24-65 | the list as a function of the versions its two gates rested on; never a missing column, whatever the probes do between the gates |
| VersionedSql.Client.AppendDatabaseGates | exporter/db/pg_stat_database.go:47-60 | each gate appends its columns to whatever list came before |
| VersionedSql.Client.SqlSelectPgReplicationSlots | exporter/db/pg_replication_slots.go:22-46 | the list as a function of the versions its two gates rested on; never a missing column, whatever the probes do between the gates |
| VersionedSql.Client.AppendReplicationSlotsGates | exporter/db/pg_replication_slots.go:36-44 | each gate appends its columns to whatever list came before |
| VersionedSql.Client.SqlSelectPgStatUserTables | exporter/db/pg_stat_user_tables.go:25-60 | the list as a function of the versions its three gates rested on; never a missing column, whatever the probes do between the gates |
| VersionedSql.Client.AppendUserTablesGates | exporter/db/pg_stat_user_tables.go:50-58 | each gate appends its columns to whatever list came before |
| VersionedSql.BgwriterMatches | exporter/db/model/model.go:49-64 | the lists of the background-writer query against the row struct: its columns in every version, seven more below 17 |
| VersionedSql.CheckpointerMatches | exporter/db/model/model.go:70-81 | the list of the checkpointer query is the row struct |
| VersionedSql.WalMatches | exporter/db/model/model.go:175-186 | the lists of the WAL query against the row struct: four columns only below 15 |
| VersionedSql.IOMatches | exporter/db/model/model.go:276-296 | the lists of the I/O query against the row struct: op_bytes only below 18 |
| VersionedSql.DatabaseMatches | exporter/db/model/model.go:12-42 | the base list and the two gated lists of the database query are the struct's fields with the versions of its comments |
| VersionedSql.UserTablesMatches | exporter/db/model/model.go:363-390 | the base list and the three gated lists of the user-table query are the struct's fields with the versions of its comments |
| VersionedSql.ReplicationSlotsMatches | exporter/db/model/model.go:146-160 | the base list and the two gated lists of the replication-slot query are the struct's fields with the versions of its comments |
| VersionedSql.AdditiveMatches | exporter/db/model/model.go:7-11 | for the three additive views, a server has exactly the base columns and those of the gates it passes |
| VersionedSql.AdditiveSafe | exporter/db/pg_stat_database.go:22-60 | whatever the probes did between gates, the database, user-table and replication-slot queries name only columns the server has |
| VersionedSql.AdditiveCompleteIff | exporter/db/pg_stat_user_tables.go:22-58 | these queries name every column the server has if and only if each gate the server passes found the version known |
| VersionedSql.OuterGatePins | exporter/db/pg_stat_wal.go:14-22 | an outer gate that answered yes pins the version for every later gate |
| VersionedSql.WalSafeAndComplete | exporter/db/pg_stat_wal.go:10-44 | the WAL query is always safe, and complete if and only if the view is absent or the outer gate found the version |
| VersionedSql.IOSafeAndComplete | exporter/db/pg_stat_io.go:10-56 | the I/O query is always safe, and complete if and only if the view is absent or the outer gate found the version |
| VersionedSql.CheckpointerSafeAndComplete | exporter/db/pg_stat_checkpointer.go:9-34 | the checkpointer query is always safe, and complete if and only if the view is absent or the gate found the version |
| VersionedSql.BgwriterSafeIff | exporter/db/pg_stat_bgwriter.go:24-45 | the background-writer query is safe if and only if the version is known after its gate or the server is below 17 |
| VersionedSql.UnsafeOnlyIff | exporter/db/db.go:50-56 | over all modelled views and any outcome of the probes between gates, a query names a column or view the server lacks if and only if it is the background writer's, the server is at 17 or later, and the version was unknown at its gate |
| VersionedSql.UnsafeQueryReachable | exporter/db/pg_stat_bgwriter.go:32-43 | a run of the probe protocol on a server at 17 or later after which the background-writer query names missing columns |
| VersionedSql.AdmissibleMiddle | exporter/db/db.go:63-77 | the versions read inside one query are admissible whatever ran before and after it, and all equal the server's once it was known before |
| VersionedSql.CheckpointsReadOnce | exporter/db/pg_stat_bgwriter.go:12-15 | with the version known, checkpoint statistics come from exactly one of the two views |
| SpecYaml.ToInternal | exporter/collectors/spec_yaml.go:120-161 | accepts exactly the specs with a subsystem, a query and metrics that each have a name, a column and one of the types (empty), gauge or counter, and otherwise reports the first problem in checking order; what it accepts meets no panic condition |
| SpecYaml.AcceptedNeverPanics | exporter/collectors/spec.go:93-117 | validation rejects exactly the specs whose construction would panic and those with an unknown metric type |
| SpecYaml.ParseSpecs | exporter/collectors/spec_yaml.go:104-118 | all specs in order, or the first rejected one with its problem |
| SpecCollector.BuiltFromYaml | exporter/collectors/spec_yaml.go:130-160 | every accepted spec keeps all its fields, and the collector built from it has an empty counter exactly for the metrics declared "counter" without the timestamp flag, and an empty gauge for all others |
| SpecCollector.ColumnOf | exporter/collectors/spec.go:201-204 | a name refers to the last result column so named |
| SpecCollector.MetricValueByKind | exporter/collectors/spec.go:274-294 | a number is taken as it is or times a scale that is not zero, a timestamp as Unix seconds likewise but only with the flag, and NULL and anything else not at all |
| SpecCollector.MetricValueShows | exporter/collectors/spec.go:231-242 | a metric takes a value from a row exactly when its cell shows that value |
| SpecCollector.RowLabelsPrint | exporter/collectors/spec.go:224-229 | the labels are the printed database cell and then the printed cells of the declared labels in order, empty for NULL |
| SpecCollector.RowWritesExactly | exporter/collectors/spec.go:225-248 | a row writes, for each metric, exactly the number its cell shows, under the labels the row prints |
| SpecCollector.ApplyAll | exporter/collectors/spec.go:230-248 | through any sequence of writes, panicking ones included, every metric keeps exactly one of counter or gauge, of its type |
| SpecCollector.Collector.constructor | exporter/collectors/spec.go:93-143 | on a spec without a panic condition: an empty counter for each metric of type counter without the timestamp flag, and an empty gauge for each other metric |
| SpecCollector.Collector.Record | exporter/collectors/spec.go:243-247 | one write to the metric's own vector, counter or gauge |
| SpecCollector.Collector.ColumnIndex | exporter/collectors/spec.go:198-204 | the index maps exactly the column names, each to its last position |
| SpecCollector.Collector.CheckColumns | exporter/collectors/spec.go:205-217 | succeeds exactly when the database column and all label and metric columns are present |
| SpecCollector.Collector.AssembleLabels | exporter/collectors/spec.go:224-229 | database first, then the declared labels in order; every lookup hits a validated column |
| SpecCollector.Collector.RecordMetric | exporter/collectors/spec.go:231-247 | the number a cell shows is written once to the metric's vector, and a cell that shows none changes nothing |
| SpecCollector.Collector.RecordRow | exporter/collectors/spec.go:219-248 | the vectors move by exactly the row's writes in metric order |
| SpecCollector.Collector.RecordRows | exporter/collectors/spec.go:219-249 | the vectors move by exactly the writes of the rows in order, stopping at a panic |
| SpecCollector.Collector.ScrapeClient | exporter/collectors/spec.go:188-251 | a closed gate is a success that changes nothing; behind an open one a failed query or a missing column is a failure that changes nothing, and otherwise all rows read are written and an interrupted read is a failure |
| SpecCollector.Collector.ScrapeClients | exporter/collectors/spec.go:163-170 | all clients' writes are applied and failure is reported exactly when some client failed |
| SpecCollector.Collector.Scrape | exporter/collectors/spec.go:162-173 | the vectors move by all clients' writes; every child is emitted once if and only if no client failed or panicked, and otherwise nothing is |
| SpecCollector.Collector.CollectInto | exporter/collectors/spec.go:175-186 | every child of every vector once and nothing else |
| SpecCollector.Collector.CollectVec | exporter/collectors/vec.go:92-93 | every child of one vector once, in some order |
| Emission.VectorsIndependent | exporter/collectors/spec.go:230-248 | each vector is as its own writes alone leave it, whatever is interleaved, and a history panics if and only if it gives a counter a negative value |
| Emission.ChildrenAreLatest | exporter/collectors/spec.go:243-247 | after every history, the children of counters and gauges alike are the latest value per label tuple |
| Emission.EmissionIsLatest | exporter/collectors/spec.go:175-186 | what is emitted after any history of writes is exactly one sample per target ever written, with its latest value |
| Emission.CollisionEmits | exporter/collectors/vec.go:65-85 | one write of one to each of two tuples with one key is not emitted as the latest values, whatever listing is chosen |
| Emission.EmittedIffDistinct | exporter/collectors/vec.go:46 | over any set of metrics and label tuples, every history of non-negative counter values is emitted as its latest values if and only if each counter's tuples have distinct keys |
| RowEmission.ClientWritesExactly | exporter/collectors/spec.go:219-248 | a client writes exactly the numeric metric cells of its rows, under each row's labels, and nothing when its gate, query or column check fails |
| RowEmission.ScrapeWritesExactly | exporter/collectors/spec.go:162-172 | the same for a scrape of any number of clients in any interleaving |
| RowEmission.AllWritesExactly | exporter/collectors/spec.go:162-172 | the same for a whole history of scrapes, failed ones included |
| RowEmission.PanicsIffNegativeCell | exporter/collectors/spec.go:230-248 | a history of scrapes panics if and only if some row gives a counter a negative value |
| RowEmission.EmitsIffAllSucceed | exporter/collectors/spec.go:188-251 | a scrape emits exactly when behind every open gate the query was answered, no column was missing and all rows were read |
| RowEmission.EmissionRefinement | exporter/collectors/spec.go:162-173 | after any scrapes, failed ones included, whose counter cells are non-negative and whose rows with different labels have different keys, a successful scrape emits the current values, plus for targets it did not write the leftover of an earlier scrape, and nothing else |
| RowEmission.ScrapeWrittenOnce | exporter/collectors/spec.go:219-248 | rows with distinct labels, over all clients, write each metric and label tuple at most once, whatever the interleaving |
| RowEmission.LeftoverIff | exporter/collectors/spec.go:175-186 | a target no cell of the scrape writes holds the last cell an earlier scrape recorded there |
| RowEmission.OneMetricPerRow | exporter/collectors/spec.go:75-79 | when the rows of a successful scrape have distinct labels, a sample is emitted if and only if a row of a client prints its labels and shows its value in the metric's column, or it is a leftover of an earlier scrape; and each once |
| RowEmission.EmissionScheduleIndependent | exporter/collectors/spec.go:162-172 | for clients that agree on shared targets the emission is that of running them one after another, whatever the interleaving |
| RowEmission.SequentialScrapeIsPossible | exporter/collectors/spec.go:162-173 | the one-after-another scrape of the code model is one of the interleavings these results range over, and ends in the same vectors |
| RowEmission.NulFreeRowsKeysDistinct | exporter/collectors/vec.go:46 | rows whose label cells hold no NUL have distinct keys, over any history of scrapes |
| RowEmission.BytesBreakEmission | exporter/collectors/spec.go:256-269 | for any texts around a NUL, two rows of one query with different labels and one key: the scrape succeeds and no emission lists the latest values |
| VersionGate.VersionField.constructor | exporter/collectors/spec_yaml.go:33 | an unset version is 0.0, no minimum |
| VersionGate.VersionField.Unmarshal | exporter/collectors/spec_yaml.go:35-60 | a pair, "major.minor" or a bare major is stored, as one parse of the text; anything else is an error that leaves the field alone |
| VersionGate.ScanItoa | exporter/collectors/spec_yaml.go:51-54 | scanning reads back every printed integer in range, with what follows it |
| VersionGate.EncodingsAgree | exporter/collectors/spec_yaml.go:32-60 | for all integers in range the text of a version parses to that version, and a bare major to minor zero |
| VersionGate.TrailingTextIgnored | exporter/collectors/spec_yaml.go:50-54 | text after a printed version is ignored |
| VersionGate.FallbackAndRefusal | exporter/collectors/spec_yaml.go:51-57 | a dot without a number after it leaves the bare major, and a text that starts with no number is refused |
| VersionGate.BlanksBefore | exporter/collectors/spec_yaml.go:51-57 | blanks before the number do not matter, and a newline there is refused |
| VersionGate.GateIsLexicographic | exporter/collectors/spec.go:188-191 | for minima that encode without overflow and minors up to 10000, the query runs if and only if there is no minimum or the known server version is lexicographically at least it; with the version unknown, if and only if there is no minimum |
| VersionGate.GateExactIff | exporter/db/db.go:74-76 | for every minimum of 64-bit integers with a positive major, the gate agrees with the lexicographic order on every server if and only if the minor is between 0 and 10000 and the encoded minimum fits |
| VersionGate.OverflowOpensGate | exporter/db/db.go:76 | a minimum of 2^60 wraps to zero and lets 16.4 run the query |
| Escaping.UnescapeConcat | exporter/db/dsn.go:12-16 | a decodable prefix decodes independently of what follows, so pieces of the URI decode piecewise |
| Escaping.UnescapeEscape | exporter/db/dsn.go:59 | form-decoding undoes escaping for all byte strings; percent-decoding alone turns exactly the spaces into plus signs |
| Escaping.PercentDecodingIff | exporter/db/dsn.go:12-16 | percent-decoding restores a string if and only if it holds no space |
| Dsn.FormatOptionsParam | exporter/db/dsn.go:84-90 | the loop escapes every field of the text in place and joins them with an escaped space behind a backslash |
| Dsn.DecodeOptionsText | exporter/db/dsn.go:64-75 | form-decoding the printed options gives the intended words, each space inside a word preceded by a backslash |
| Dsn.SplitAll | exporter/db/dsn.go:84-90 | the server's backslash-aware splitting recovers any words without backslashes from their quoted form |
| Dsn.SplitCost | exporter/db/dsn.go:84-90 | in any text, each backslash or space the server keeps inside words was paid for by an escaping backslash |
| Dsn.OptionsRoundTripIff | exporter/db/dsn.go:64-90 | decoding and splitting the printed options recovers exactly the intended words, white space normalised, if and only if no key or value holds a backslash |
| DsnUri.AppendParam | exporter/db/dsn.go:57-62 | appends one escaped pair, or nothing when key or value is empty |
| DsnUri.AppendOptionsParam | exporter/db/dsn.go:70-75 | appends one option word, or nothing when key or value is empty |
| DsnUri.BuildParams | exporter/db/dsn.go:22-35 | the parameters are the intended ones in order: an empty application name is dropped, pool settings only outside compatibility mode |
| DsnUri.AppendPoolParams | exporter/db/dsn.go:27-31 | the five pool settings in order |
| DsnUri.RoundSecsNearest | exporter/db/dsn.go:29-31 | printed seconds are the nearest number of seconds, and the even one halfway |
| DsnUri.BuildOptions | exporter/db/dsn.go:37-42 | the five server options in order, none dropped |
| DsnUri.TimeoutOffIff | exporter/db/dsn.go:40-42 | printed timeouts are truncated to milliseconds, so a timeout is turned off exactly when it is below one |
| DsnUri.AddParametersToDSN | exporter/db/dsn.go:21-49 | the query is the intended parameters followed by the options, for both modes |
| DsnUri.PrintDSN | exporter/db/dsn.go:11-19 | the built string is the printed form of the URI's parts, with a password exactly when one is set |
| Text.NumeralOrder | exporter/db/dsn.go:26-27 | a number is printed in decimal, most significant digit first, after its sign |
| Hosts.HostChars | exporter/db/dsn.go:16 | a host in the standard's form holds none of the characters that end the authority or its user information |
| Hosts.HostCharsArePlain | exporter/db/dsn.go:16 | nor percent signs, commas, blanks, quotes, backslashes or non-ASCII characters; brackets only at the ends |
| Hosts.NamesAreHosts | exporter/db/dsn.go:16 | every domain name and IPv4 address is a host |
| Hosts.OctetIff | exporter/db/dsn.go:16 | the octets of an IPv4 address are exactly the printed numbers 0 to 255 |
| Hosts.GroupIs16Bit | exporter/db/dsn.go:16 | a group of an IPv6 address is a 16-bit number |
| Hosts.GroupsAreIPv6 | exporter/db/dsn.go:16 | eight groups of hex digits are an IPv6 address, and so are at most seven around a double colon |
| Hosts.BareColonIsNoHost | exporter/db/dsn.go:16 | a colon outside brackets is never part of a host |
| Hosts.BracketedIsHost | exporter/db/dsn.go:16 | every IPv6 address is a host once bracketed |
| Hosts.LoopbackNeedsBrackets | exporter/db/dsn.go:16 | the IPv6 loopback address is a host in brackets and none without |
| DsnUri.ParsePrint | exporter/db/dsn.go:11-19 | splitting undoes printing for all parts that hold no delimiter of their place |
| DsnUri.ParsedHostOk | exporter/db/dsn.go:16 | no text at all reads as a URI with a host that is neither a name nor a bracketed IPv6 address, or with a port that is no number |
| DsnUri.UriSplitsIff | exporter/db/dsn.go:11-19 | the printed URI splits back into its parts, for every user, password, database and option, if and only if the host is a name without colons or a bracketed IPv6 address and the port is not negative |
| DsnUri.BareAddressFails | exporter/db/dsn.go:16 | a host with a colon and no bracket never comes back |
| DsnUri.CredentialsDecodeIff | exporter/db/dsn.go:12-16 | percent-decoding restores user, password and database if and only if they hold no space, and otherwise yields plus signs for the spaces |
| DsnUri.QueryRoundTrip | exporter/db/dsn.go:21-82 | splitting at '&' and the first '=' and form-decoding recovers any parameter list, followed by the decoded options |
| DsnUri.DsnRoundTripIff | exporter/db/dsn.go:11-90 | the whole chain (split the URI, decode the query, let the server split the options) recovers exactly the intended parameters and option words if and only if the host is a name without colons or a bracketed IPv6 address and the port is not negative |
| DsnProgram.ProgramDsnRoundTripIff | exporter/db/dsn.go:11-42 | the same for the scheme, names and values the program writes |
| DsnProgram.ProgramQueryOk | exporter/db/dsn.go:21-49 | the program's query reads as application_name if there is one, the five pool settings under their names outside compatibility mode (sizes in decimal, durations as the nearest seconds), and options; the server's split gives the isolation level the setting asks for, UTC, and the three timeouts in whole milliseconds under their names |
| DsnProgram.PrintDelivers | exporter/db/dsn.go:11-49 | for every addressable host and port, a reader of the text under postgresql:// finds host, port, the form-decoded user, password and database, and all those parameters |
| DsnProgram.DSN | exporter/db/dsn.go:11-19 | the text the program builds delivers every option in this sense |
| DsnProgram.IsolationOk | exporter/db/db.go:171-179 | read committed and serializable exactly for their two settings, repeatable read for every other text |
| Registry.KnownNames | exporter/collectors/registry.go:127-130 | the registered names exactly |
| Registry.Classify | exporter/collectors/registry.go:132-148 | splits a list into the set of known names and the unknown names in order, repetitions kept |
| Registry.ResolveCollectors | exporter/collectors/registry.go:126-174 | the result is the documented selection, and an error arises if and only if some listed name is unknown |
| Registry.SelectionMembers | exporter/collectors/registry.go:113-125 | a name is returned if and only if it is not disabled, it is enabled when anything is, and it is registered, as a default when nothing is |
| Registry.SelectionOrdered | exporter/collectors/registry.go:156-167 | the result follows registry order and repeats nothing |
| Registry.SelectionDependsOnSets | exporter/collectors/registry.go:113-125 | reordering or repeating names in either list changes nothing |
| Registry.UnknownEnableSelectsNothing | exporter/collectors/registry.go:151-155 | asking only for unknown names selects nothing, not the defaults |
| RegistryTable.EntriesSorted | exporter/collectors/registry.go:42-44 | the 27 registered names are in alphabetical order, each strictly before the next |
| RegistryTable.EntriesDistinct | exporter/collectors/registry.go:54-91 | no name is registered twice, and none can be given to a collector added later |
| RegistryTable.ResolvedNames | exporter/collectors/registry.go:126-174 | whatever is enabled and disabled, the resolved names are distinct and unlike any added later |
| RegistryTable.DefaultSelection | exporter/collectors/registry.go:74-86 | with nothing listed, exactly the registered collectors other than settings, statements and subscription are returned |
| RegistryTable.ProgramNamesDistinctIff | exporter/exporter.go:182-212 | for the program's own registry, any choice of collectors and any calls, all names are distinct if and only if no two custom calls clash and no two specs share a subsystem |
| Naming.Exporter.constructor | exporter/exporter.go:124-127 | starts with the resolved collectors |
| Naming.Exporter.WithCustomCollectors | exporter/exporter.go:182-190 | the appended names skip by two, because the growing length and the index are both added |
| Naming.Exporter.ExtendFromYaml | exporter/exporter.go:200-212 | registers all specs in order if all are acceptable, and none otherwise; construction never panics |
| Naming.NameTexts | exporter/exporter.go:184-207 | the appended names are custom_ with the length before the call plus twice the index, and spec_ with the subsystem |
| Naming.CustomNamesInjective | exporter/exporter.go:185 | two custom names are equal only for equal numbers |
| Naming.OneCallDistinct | exporter/exporter.go:182-190 | the names of one call are distinct |
| Naming.CallsCollideIff | exporter/exporter.go:182-190 | two calls share a name if and only if the later is non-empty and starts an even distance after the earlier, within twice its length |
| Naming.CustomYamlCustom | exporter/exporter.go:182-210 | k custom collectors, m YAML specs, then a non-empty call repeat a name if and only if k + m is even and m < k |
| Naming.CollisionFreeIff | exporter/exporter.go:182-210 | a whole history of calls is free of repeated custom names if and only if no pair of its calls clashes arithmetically |
| Naming.OneAtATimeIsSafe | exporter/exporter.go:182-190 | any history of calls with at most one collector each never repeats a name |
| Naming.TwoPairsCollide | exporter/exporter.go:182-190 | two calls of two collectors each repeat a name |
| Naming.NamesDistinctIff | exporter/exporter.go:182-212 | after any history of calls all names, resolved, custom and YAML, are distinct if and only if the resolved ones were, no two custom calls clash arithmetically, and no two specs share a subsystem |
| Naming.HistoryGaugesSum | exporter/exporter.go:310-323 | under that condition the cardinality gauges of every cycle sum to the metrics it forwarded |
| Connect.Connect | exporter/db/db.go:113-136 | the loop ends as the first attempt that connects or sees the context end decides, within the retry limit |
| Connect.ClientIff | exporter/db/db.go:113-136 | a client comes back after n attempts if and only if n is within the limit, the n-th connects and all before failed otherwise |
| Connect.ContextEndedIff | exporter/db/db.go:115-118 | the context's error comes back after n attempts if and only if n is within the limit, the n-th sees the context end and all before failed otherwise |
| Connect.LastErrorIff | exporter/db/db.go:136 | the last error comes back if and only if every attempt of a limit that is not negative failed otherwise |
| Connect.NilNilIff | exporter/db/db.go:113-136 | neither a client nor an error comes back if and only if the limit is below -1 |

## Left out

- Floating point: values are exact reals; rounding, NaN and infinities are not modelled (float64 is exact for integers up to 2^53).
- Wall-clock time: histogram buckets, the scrape deadline and retry sleeps; a deadline shows only as a collector that fails or a context that ends.
- Hand-written collectors: their `emit`, `Describe` and `collectInto` bodies repeat NULL checks and field lists; the generic counter and gauge model covers what they share.
- SQL text: columns are an enumeration named after the column or alias each expression yields; a field of exporter/db/model/model.go without a version comment counts as a column every version has; FROM and WHERE clauses are not modelled.
- Client libraries: pgx, scany, errgroup and the Prometheus client appear only through Add, Set, Delete, Wait, channel sends and query answers.
- Prometheus name and label validation: invalid metric names and label values that are not UTF-8 panic in the client library, outside this model.
- Go memory-model races: the unlocked reads of the version and the unlocked appends to the collector list are single atomic steps.
- Metrics sent after a collector's Scrape has returned: the program would panic on the closed channel; collectors send only while scraping.
- SpecCollector.Collector.Scrape: runs the clients one after another; other interleavings are covered at the level of their writes in module RowEmission.
- SpecCollector.Collector.Record: the vectors are values held in the collector's fields, not separate heap objects, so aliasing between two collectors' vectors is not captured.
- ScrapeCycle.StepInv: the three self-metric updates of one collector are a single step.
- Duration histogram: only which collectors have a duration series is tracked.
- YAML decoding: starts from decoded specs, version pairs and scalar strings.
- Dsn.FormatOptionsParam: white space is ASCII white space; other Unicode blanks are ordinary characters, and the program only ever formats its own ASCII names and numbers.
- DsnUri.PrintDSN: the parameter names are passed as a record so that the proofs do not depend on their letters; DsnProgram.DSN puts the program's own names back. Durations are rounded exactly, where float64 seconds can differ for very long ones.
- DsnUri.UriSplitsIff: the reader takes hosts as RFC 3986 writes them, without percent escapes and without the comma that lists several hosts; readers that accept further characters in a host are not modelled.
- Registry.ResolveCollectors: returns names; constructing the collectors and the sorted list in the error text are not modelled.
- VersionProbe.AnswersCorrect: a server is assumed to report one positive version that does not change during the client's life, so an upgrade behind a living client is not modelled.
- Connect.Connect: the version probe after a successful connection is the subject of VersionProbe.
- HealthCheck, cloud authentication, logging, the HTTP binary, benchmarks and dashboards: I/O or foreign calls.
