/**
 Version-gated SELECT lists. Each gate asks AtLeast, whose answer rests on the
 version it happened to read: zero while unknown, else the server's. Between and
 inside gate calls probes may fail, succeed, or be completed by another caller.
 */
module VersionedSql {
  import opened History
  import opened Options
  import opened VersionProbe
  import opened ServerColumns

  // ---- the lists the builders write ----

  const BGWRITER_BASE := [CurrentDatabase, BuffersClean, MaxwrittenClean, BuffersAlloc, StatsReset]

  const CHECKPOINTER_BASE := [
    CurrentDatabase, NumTimed, NumRequested, RestartpointsTimed, RestartpointsReq,
    RestartpointsDone, WriteTime, SyncTime, BuffersWritten, StatsReset]

  const WAL_BASE := [CurrentDatabase, WalRecords, WalFpi, WalBytes, WalBuffersFull, StatsReset]

  const IO_BASE := [
    CurrentDatabase, BackendType, Object, Context, Reads, ReadTime, Writes, WriteTime, Writebacks, WritebackTime,
    Extends, ExtendTime, Hits, Evictions, Reuses, Fsyncs, FsyncTime, StatsReset]

  const DATABASE_BASE := [
    CurrentDatabase, Datid, Datname, Numbackends, XactCommit, XactRollback, BlksRead, BlksHit, TupReturned, TupFetched,
    TupInserted, TupUpdated, TupDeleted, Conflicts, TempFiles, TempBytes, Deadlocks, BlkReadTime, BlkWriteTime,
    StatsReset]

  const USER_TABLES_BASE := [
    CurrentDatabase, Schemaname, Relname, SeqScan, SeqTupRead, IdxScan, IdxTupFetch, NTupIns, NTupUpd, NTupDel,
    NTupHotUpd, NLiveTup, NDeadTup, NModSinceAnalyze, LastVacuum, LastAutovacuum, LastAnalyze, LastAutoanalyze,
    VacuumCount, AutovacuumCount, AnalyzeCount, AutoanalyzeCount]

  const REPLICATION_SLOTS_BASE := [
    CurrentDatabase, SlotName, Plugin, SlotType, Datname, Active, Temporary, RestartLsnBytes, ConfirmedFlushLsnBytes,
    RetainedWalBytes]

  /** Columns a builder starts with. */
  function Base(view: View): seq<Column> {
    match view
    case Bgwriter => BGWRITER_BASE
    case Checkpointer => CHECKPOINTER_BASE
    case Wal => WAL_BASE
    case IO => IO_BASE
    case Database => DATABASE_BASE
    case UserTables => USER_TABLES_BASE
    case ReplicationSlots => REPLICATION_SLOTS_BASE
  }

  const BGWRITER_CHECKPOINTS := [
    CheckpointsTimed, CheckpointsReq, CheckpointWriteTime, CheckpointSyncTime,
    BuffersCheckpoint, BuffersBackend, BuffersBackendFsync]

  const WAL_14_ONLY := [WalWrite, WalSync, WalWriteTime, WalSyncTime]

  const DATABASE_12 := [ChecksumFailures, ChecksumLastFailure]
  const DATABASE_14 := [
    SessionTime, ActiveTime, IdleInTransactionTime, Sessions, SessionsAbandoned, SessionsFatal, SessionsKilled]

  const USER_TABLES_13 := [NInsSinceVacuum]
  const USER_TABLES_16 := [LastSeqScan, LastIdxScan]
  const USER_TABLES_17 := [NTupNewpageUpd]

  const REPLICATION_SLOTS_13 := [WalStatus, SafeWalSizeBytes]
  const REPLICATION_SLOTS_16 := [Conflicting]

  /** Columns a gate adds. */
  datatype Addition = Addition(since: nat, cols: seq<Column>)

  function Additions(view: View): seq<Addition> {
    match view
    case Database => [Addition(120000, DATABASE_12), Addition(140000, DATABASE_14)]
    case UserTables =>
      [Addition(130000, USER_TABLES_13), Addition(160000, USER_TABLES_16), Addition(170000, USER_TABLES_17)]
    case ReplicationSlots => [Addition(130000, REPLICATION_SLOTS_13), Addition(160000, REPLICATION_SLOTS_16)]
    case _ => []
  }

  // ---- the lists agree with the servers' columns ----

  lemma BgwriterMatches(col: Column, server: nat)
    ensures BgwriterHas(col, server) <==> col in BGWRITER_BASE || (server < 170000 && col in BGWRITER_CHECKPOINTS)
  {
  }

  lemma CheckpointerMatches(col: Column)
    ensures CheckpointerHas(col) <==> col in CHECKPOINTER_BASE
  {
  }

  lemma WalMatches(col: Column, server: nat)
    ensures WalHas(col, server) <==> col in WAL_BASE || (server < 150000 && col in WAL_14_ONLY)
  {
  }

  lemma IOMatches(col: Column, server: nat)
    ensures IOHas(col, server) <==> col in IO_BASE || (server < 180000 && col == OpBytes)
  {
  }

  lemma DatabaseMatches(col: Column, server: nat)
    ensures DatabaseHas(col, server) <==>
      || col in DATABASE_BASE || Adds(Addition(120000, DATABASE_12), col, server)
      || Adds(Addition(140000, DATABASE_14), col, server)
  {
  }

  lemma UserTablesMatches(col: Column, server: nat)
    ensures UserTablesHas(col, server) <==>
      || col in USER_TABLES_BASE || Adds(Addition(130000, USER_TABLES_13), col, server)
      || Adds(Addition(160000, USER_TABLES_16), col, server) || Adds(Addition(170000, USER_TABLES_17), col, server)
  {
  }

  lemma ReplicationSlotsMatches(col: Column, server: nat)
    ensures ReplicationSlotsHas(col, server) <==>
      || col in REPLICATION_SLOTS_BASE || Adds(Addition(130000, REPLICATION_SLOTS_13), col, server)
      || Adds(Addition(160000, REPLICATION_SLOTS_16), col, server)
  {
  }

  lemma TwoGates(base: seq<Column>, a: Addition, b: Addition, col: Column, server: nat)
    ensures AddedBy(base, [a, b], col, server) <==> col in base || Adds(a, col, server) || Adds(b, col, server)
  {
    assert [a, b][0] == a && [a, b][1] == b;
  }

  lemma ThreeGates(base: seq<Column>, a: Addition, b: Addition, c: Addition, col: Column, server: nat)
    ensures AddedBy(base, [a, b, c], col, server) <==>
            col in base || Adds(a, col, server) || Adds(b, col, server) || Adds(c, col, server)
  {
    assert [a, b, c][0] == a && [a, b, c][1] == b && [a, b, c][2] == c;
  }

  lemma DatabaseGates(col: Column, server: nat)
    ensures DatabaseHas(col, server) <==> AddedBy(DATABASE_BASE, Additions(Database), col, server)
  {
    DatabaseMatches(col, server);
    TwoGates(DATABASE_BASE, Addition(120000, DATABASE_12), Addition(140000, DATABASE_14), col, server);
  }

  lemma UserTablesGates(col: Column, server: nat)
    ensures UserTablesHas(col, server) <==> AddedBy(USER_TABLES_BASE, Additions(UserTables), col, server)
  {
    UserTablesMatches(col, server);
    ThreeGates(USER_TABLES_BASE, Addition(130000, USER_TABLES_13), Addition(160000, USER_TABLES_16),
               Addition(170000, USER_TABLES_17), col, server);
  }

  lemma ReplicationSlotsGates(col: Column, server: nat)
    ensures ReplicationSlotsHas(col, server) <==> AddedBy(REPLICATION_SLOTS_BASE, Additions(ReplicationSlots), col, server)
  {
    ReplicationSlotsMatches(col, server);
    TwoGates(REPLICATION_SLOTS_BASE, Addition(130000, REPLICATION_SLOTS_13), Addition(160000, REPLICATION_SLOTS_16),
             col, server);
  }

  /** For an additive builder: a server has the base columns and those of every gate it passes. */
  lemma AdditiveMatches(view: View, col: Column, server: nat)
    requires IsAdditive(view)
    ensures HasColumn(view, col, server) <==> AddedBy(Base(view), Additions(view), col, server)
  {
    match view
    case Database => DatabaseGates(col, server);
    case UserTables => UserTablesGates(col, server);
    case ReplicationSlots => ReplicationSlotsGates(col, server);
  }

  /** A base column, or one of a gate the server passes. */
  predicate AddedBy(base: seq<Column>, gates: seq<Addition>, col: Column, server: nat) {
    col in base || exists i :: 0 <= i < |gates| && Adds(gates[i], col, server)
  }

  predicate Adds(gate: Addition, col: Column, server: nat) { server >= gate.since && col in gate.cols }

  predicate IsAdditive(view: View) { view.Database? || view.UserTables? || view.ReplicationSlots? }

  /** No query, or a query of an existing view that names only columns it has. */
  ghost predicate Safe(view: View, cols: Option<seq<Column>>, server: nat) {
    cols.None? || (ViewExists(view, server) && forall c :: c in cols.value ==> HasColumn(view, c, server))
  }

  /** Queries the view when it exists, for exactly the columns the program knows and the server has. */
  ghost predicate Complete(view: View, cols: Option<seq<Column>>, server: nat) {
    if ViewExists(view, server) then cols.Some? && forall c :: c in cols.value <==> HasColumn(view, c, server)
    else cols.None?
  }

  // ---- the builders as functions of the versions their gates read ----

  /** What gate `i` of an additive builder appends, given the version it read. */
  function Extra(view: View, i: nat, read: nat): seq<Column> {
    if i < |Additions(view)| && Gate(read, Additions(view)[i].since) then Additions(view)[i].cols else []
  }

  /** Columns appended gate by gate. */
  function Appended(base: seq<Column>, view: View, seen: seq<nat>): seq<Column>
    requires |seen| == |Additions(view)| && |seen| in {2, 3}
  {
    var two := base + Extra(view, 0, seen[0]) + Extra(view, 1, seen[1]);
    if |seen| == 2 then two else two + Extra(view, 2, seen[2])
  }

  function Projected(view: View, seen: seq<nat>): Option<seq<Column>>
    requires |seen| == GateCalls(view)
  {
    match view
    case Bgwriter => Some(Base(Bgwriter) + if !Gate(seen[0], 170000) then BGWRITER_CHECKPOINTS else [])
    case Checkpointer => if !Gate(seen[0], 170000) then None else Some(Base(Checkpointer))
    case Wal =>
      if !Gate(seen[0], 140000) then None
      else Some(Base(Wal) + if Gate(seen[1], 140000) && !Gate(seen[2], 150000) then WAL_14_ONLY else [])
    case IO =>
      if !Gate(seen[0], 160000) then None
      else Some(Base(IO) + if !Gate(seen[1], 180000) then [OpBytes] else [])
    case _ => Some(Appended(Base(view), view, seen))
  }

  /** How many times AtLeast may be called for one query of the view. */
  function GateCalls(view: View): nat {
    match view
    case Bgwriter => 1
    case Checkpointer => 1
    case Wal => 3
    case IO => 2
    case _ => |Additions(view)|
  }

  lemma AppendedColumns(base: seq<Column>, view: View, seen: seq<nat>, col: Column)
    requires |seen| == |Additions(view)| && |seen| in {2, 3}
    ensures col in Appended(base, view, seen) <==>
      col in base || exists i :: 0 <= i < |seen| && col in Extra(view, i, seen[i])
  {
  }

  // ---- column safety ----

  /** Builders that only add columns are safe whatever the probes did. */
  lemma AdditiveSafe(view: View, seen: seq<nat>, server: nat)
    requires IsAdditive(view) && |seen| == GateCalls(view) && Admissible(server, seen)
    ensures Safe(view, Projected(view, seen), server)
  {
    var base, gates := Base(view), Additions(view);
    forall c | c in Appended(base, view, seen) ensures HasColumn(view, c, server) {
      AppendedColumns(base, view, seen, c);
      AdditiveMatches(view, c, server);
      if c !in base {
        var i :| 0 <= i < |gates| && c in Extra(view, i, seen[i]);
        assert Adds(gates[i], c, server);
      }
    }
  }

  /** A gate that answered true pins the version for the gates after it. */
  lemma OuterGatePins(server: nat, seen: seq<nat>, need: int, i: nat)
    requires Admissible(server, seen) && i < |seen| && Gate(seen[0], need)
    ensures seen[i] == server && server >= need
  {
  }

  lemma WalSafeAndComplete(seen: seq<nat>, server: nat)
    requires |seen| == GateCalls(Wal) && Admissible(server, seen) && server > 0
    ensures Safe(Wal, Projected(Wal, seen), server)
    ensures Complete(Wal, Projected(Wal, seen), server) <==> server < 140000 || seen[0] != 0
  {
    forall c ensures HasColumn(Wal, c, server) <==> c in WAL_BASE || (server < 150000 && c in WAL_14_ONLY) {
      WalMatches(c, server);
    }
    if Gate(seen[0], 140000) {
      OuterGatePins(server, seen, 140000, 1);
      OuterGatePins(server, seen, 140000, 2);
    }
  }

  lemma IOSafeAndComplete(seen: seq<nat>, server: nat)
    requires |seen| == GateCalls(IO) && Admissible(server, seen) && server > 0
    ensures Safe(IO, Projected(IO, seen), server)
    ensures Complete(IO, Projected(IO, seen), server) <==> server < 160000 || seen[0] != 0
  {
    forall c ensures HasColumn(IO, c, server) <==> c in IO_BASE || (server < 180000 && c == OpBytes) {
      IOMatches(c, server);
    }
    if Gate(seen[0], 160000) { OuterGatePins(server, seen, 160000, 1); }
  }

  lemma CheckpointerSafeAndComplete(seen: seq<nat>, server: nat)
    requires |seen| == GateCalls(Checkpointer) && Admissible(server, seen) && server > 0
    ensures Safe(Checkpointer, Projected(Checkpointer, seen), server)
    ensures Complete(Checkpointer, Projected(Checkpointer, seen), server) <==> server < 170000 || seen[0] != 0
  {
    forall c ensures HasColumn(Checkpointer, c, server) <==> c in CHECKPOINTER_BASE { CheckpointerMatches(c); }
  }

  /** The negative gate: with the version unknown, a server at 17 or later is asked for columns it lacks. */
  lemma BgwriterSafeIff(seen: seq<nat>, server: nat)
    requires |seen| == GateCalls(Bgwriter) && Admissible(server, seen) && server > 0
    ensures Safe(Bgwriter, Projected(Bgwriter, seen), server) <==> seen[0] != 0 || server < 170000
    ensures Complete(Bgwriter, Projected(Bgwriter, seen), server) <==> seen[0] != 0 || server < 170000
  {
    forall c ensures HasColumn(Bgwriter, c, server) <==>
                     c in BGWRITER_BASE || (server < 170000 && c in BGWRITER_CHECKPOINTS) {
      BgwriterMatches(c, server);
    }
    if seen[0] == 0 && server >= 170000 {
      assert BGWRITER_CHECKPOINTS[0] in Projected(Bgwriter, seen).value;
      assert BGWRITER_CHECKPOINTS[0] !in BGWRITER_BASE;
    }
  }

  /**
   Over all views and all admissible reads: the one unsafe query is the background
   writer's on a server at 17 or later whose version its gate did not know.
   */
  lemma UnsafeOnlyIff(view: View, seen: seq<nat>, server: nat)
    requires |seen| == GateCalls(view) && Admissible(server, seen) && server > 0
    ensures !Safe(view, Projected(view, seen), server) <==> view.Bgwriter? && seen[0] == 0 && server >= 170000
  {
    match view
    case Bgwriter => BgwriterSafeIff(seen, server);
    case Checkpointer => CheckpointerSafeAndComplete(seen, server);
    case Wal => WalSafeAndComplete(seen, server);
    case IO => IOSafeAndComplete(seen, server);
    case _ => AdditiveSafe(view, seen, server);
  }

  /** The reads of one query, between the version before it and the version after it. */
  lemma AdmissibleMiddle(server: nat, before: nat, seen: seq<nat>, after: nat)
    requires Admissible(server, [before] + seen + [after])
    ensures Admissible(server, seen) && (before != 0 ==> forall i :: 0 <= i < |seen| ==> seen[i] == server)
  {
    var all := [before] + seen + [after];
    assert forall i :: 0 <= i < |seen| ==> seen[i] == all[i + 1];
    assert all[0] == before;
  }

  /**
   The unsafe query is reachable: on a server at 17 or later a failed version query
   leaves the background writer's gate without a version, and columns are missing.
   */
  lemma UnsafeQueryReachable(v: Server) returns (actions: seq<Action>, states: seq<State>)
    requires v.hasPool && v.version >= 170000
    ensures IsRun(v, actions, states) && |actions| == 7 && actions[6].FinalRead?
    ensures At(states[7], 0, Answered(Failed, 0))
    ensures !Safe(Bgwriter, Projected(Bgwriter, [states[6].version]), v.version)
  {
    actions, states := UnknownAnswerReachable(v, 170000);
    BgwriterSafeIff([states[6].version], v.version);
  }

  /** A column that only gate `i` brings. */
  function Marker(view: View, i: nat): Column
    requires IsAdditive(view) && i < |Additions(view)|
  {
    Additions(view)[i].cols[0]
  }

  lemma DatabaseMarkers()
    ensures ChecksumFailures !in Base(Database) && SessionTime !in Base(Database)
  {
  }

  lemma ReplicationSlotsMarkers()
    ensures WalStatus !in Base(ReplicationSlots) && Conflicting !in Base(ReplicationSlots)
  {
  }

  lemma UserTablesMarkers()
    ensures NInsSinceVacuum !in Base(UserTables) && LastSeqScan !in Base(UserTables)
    ensures NTupNewpageUpd !in Base(UserTables)
  {
  }

  lemma MarkerIsNotBase(view: View, i: nat)
    requires IsAdditive(view) && i < |Additions(view)|
    ensures Marker(view, i) !in Base(view)
  {
    match view
    case Database => DatabaseMarkers();
    case ReplicationSlots => ReplicationSlotsMarkers();
    case UserTables => UserTablesMarkers();
  }

  lemma MarkerIsOneGates(view: View, i: nat, j: nat)
    requires IsAdditive(view) && i < |Additions(view)| && j < |Additions(view)| && i != j
    ensures Marker(view, i) !in Additions(view)[j].cols
  {
  }

  lemma ClosedGateHides(view: View, seen: seq<nat>, i: nat)
    requires IsAdditive(view) && |seen| == |Additions(view)| && i < |seen| && seen[i] == 0
    ensures Marker(view, i) !in Appended(Base(view), view, seen)
  {
    var gates, col := Additions(view), Marker(view, i);
    MarkerIsNotBase(view, i);
    forall j | 0 <= j < |gates| && j != i ensures col !in gates[j].cols { MarkerIsOneGates(view, i, j); }
    AppendedColumns(Base(view), view, seen, col);
  }

  /** An additive builder selects all the server has exactly when each gate the server passes had a version. */
  lemma AdditiveCompleteIff(view: View, seen: seq<nat>, server: nat)
    requires IsAdditive(view) && |seen| == GateCalls(view) && Admissible(server, seen) && server > 0
    ensures Complete(view, Projected(view, seen), server) <==>
      forall i :: 0 <= i < |seen| && server >= Additions(view)[i].since ==> seen[i] != 0
  {
    var base, gates := Base(view), Additions(view);
    AdditiveSafe(view, seen, server);
    if i :| 0 <= i < |seen| && server >= gates[i].since && seen[i] == 0 {
      ClosedGateHides(view, seen, i);
      AdditiveMatches(view, Marker(view, i), server);
      assert Adds(gates[i], Marker(view, i), server);
    } else {
      forall c | HasColumn(view, c, server) ensures c in Appended(base, view, seen) {
        AppendedColumns(base, view, seen, c);
        AdditiveMatches(view, c, server);
        if c !in base {
          var i :| 0 <= i < |gates| && Adds(gates[i], c, server);
          assert c in Extra(view, i, seen[i]);
        }
      }
    }
  }

  /** With the version known, checkpoint statistics are read from exactly one of the two views. */
  lemma CheckpointsReadOnce(server: nat)
    requires server > 0
    ensures Projected(Checkpointer, [server]).Some? <==>
      forall c :: c in BGWRITER_CHECKPOINTS ==> c !in Projected(Bgwriter, [server]).value
  {
    assert CheckpointsTimed == BGWRITER_CHECKPOINTS[0];
    if server < 170000 { assert BGWRITER_CHECKPOINTS[0] in Projected(Bgwriter, [server]).value; }
  }

  // ---- the builders as code ----

  /** What other callers and this caller's own probe do around one gate call. */
  datatype Env = Env(
    before: bool,   // another caller fills the cell before the first read
    waiting: bool,  // ... or while this caller waits for the probe mutex
    query: bool,    // this caller's version query succeeds
    after: bool)    // another caller fills the cell after this caller's probe failed

  class Client {
    const server: nat
    const hasPool: bool
    var version: nat

    ghost predicate Valid()
      reads this
    {
      server > 0 && (version == 0 || version == server)
    }

    /** Somebody's probe succeeds around the gate call. */
    predicate Learns(env: Env) { hasPool && (env.before || env.waiting || env.query || env.after) }

    /** The reads of one query that projects `cols`: admissible, and first unknown exactly when nobody learned. */
    ghost predicate Rests(view: View, was: nat, seen: seq<nat>, env: Env, cols: Option<seq<Column>>)
      reads this
    {
      && |seen| == GateCalls(view) && |seen| > 0
      && Admissible(server, [was] + seen + [version])
      && (seen[0] == 0 <==> was == 0 && !Learns(env))
      && cols == Projected(view, seen)
    }

    /** Of all queries, only the background writer's can be unsafe, and exactly when the version stays unknown. */
    lemma RestsSafe(view: View, was: nat, seen: seq<nat>, env: Env, cols: Option<seq<Column>>)
      requires Valid() && Rests(view, was, seen, env, cols)
      ensures !Safe(view, cols, server) <==> view.Bgwriter? && server >= 170000 && was == 0 && !Learns(env)
    {
      AdmissibleMiddle(server, was, seen, version);
      UnsafeOnlyIff(view, seen, server);
    }

    constructor (server: nat, hasPool: bool)
      requires server > 0
      ensures Valid() && version == 0 && this.server == server && this.hasPool == hasPool
    {
      this.server, this.hasPool, version := server, hasPool, 0;
    }

    method Interfere(happens: bool)
      requires Valid()
      modifies this`version
      ensures Valid() && version == if happens && hasPool then server else old(version)
    {
      if happens && hasPool { version := server; }
    }

    method ProbeServerVersion(queryOk: bool) returns (failed: bool)
      requires Valid() && hasPool
      modifies this`version
      ensures Valid() && version == if old(version) == 0 && queryOk then server else old(version)
      ensures failed <==> version == 0
    {
      if version != 0 { return false; }
      if !queryOk { return true; }
      version := server;
      failed := false;
    }

    /** The answer rests on the version left in the cell, which is never forgotten. */
    method AtLeast(major: int, minor: int, env: Env) returns (yes: bool)
      requires Valid()
      modifies this`version
      ensures Valid() && (old(version) != 0 ==> version == old(version))
      ensures version == 0 <==> old(version) == 0 && !Learns(env)
      ensures yes == Gate(version, VersionNum(major, minor))
    {
      Interfere(env.before);
      if version == 0 && hasPool {
        Interfere(env.waiting);
        var failed := ProbeServerVersion(env.query);
        if failed { Interfere(env.after); }
      }
      if version == 0 { return false; }
      yes := version >= Wrap(major * 10000 + minor);
    }

    method SqlSelectPgStatBgwriter(env: Env) returns (cols: seq<Column>, ghost seen: seq<nat>)
      requires Valid()
      modifies this`version
      ensures Valid() && Rests(Bgwriter, old(version), seen, env, Some(cols))
      ensures !Safe(Bgwriter, Some(cols), server) <==> server >= 170000 && old(version) == 0 && !Learns(env)
    {
      cols := [
        CurrentDatabase, BuffersClean, MaxwrittenClean, BuffersAlloc, StatsReset];
      var yes := AtLeast(17, 0, env);
      seen := [version];
      if !yes {
        cols := cols + [
          CheckpointsTimed, CheckpointsReq, CheckpointWriteTime, CheckpointSyncTime,
          BuffersCheckpoint, BuffersBackend, BuffersBackendFsync];
      }
      assert Base(Bgwriter) + [] == Base(Bgwriter);
      RestsSafe(Bgwriter, old(version), seen, env, Some(cols));
    }

    method SelectPgStatCheckpointer(env: Env) returns (cols: Option<seq<Column>>, ghost seen: seq<nat>)
      requires Valid()
      modifies this`version
      ensures Valid() && Rests(Checkpointer, old(version), seen, env, cols)
      ensures Safe(Checkpointer, cols, server)
    {
      var yes := AtLeast(17, 0, env);
      seen := [version];
      cols := None;
      if yes {
        cols := Some([
          CurrentDatabase, NumTimed, NumRequested, RestartpointsTimed, RestartpointsReq, RestartpointsDone,
          WriteTime, SyncTime, BuffersWritten, StatsReset]);
      }
      RestsSafe(Checkpointer, old(version), seen, env, cols);
    }

    method SelectPgStatWal(outer: Env, inner: Env, inner2: Env) returns (cols: Option<seq<Column>>, ghost seen: seq<nat>)
      requires Valid()
      modifies this`version
      ensures Valid() && Rests(Wal, old(version), seen, outer, cols)
      ensures Safe(Wal, cols, server)
    {
      var yes := AtLeast(14, 0, outer);
      seen := [version, version, version];
      cols := None;
      if yes {
        var list, seen' := SqlSelectPgStatWal(inner, inner2);
        ghost var all := [seen[0]] + seen' + [version];
        assert all[0] == seen[0] && all[1] == seen'[0] && all[2] == seen'[1] && all[3] == version;
        cols, seen := Some(list), [seen[0], seen'[0], seen'[1]];
      }
      RestsSafe(Wal, old(version), seen, outer, cols);
    }

    /** The second gate is skipped when the first says no. */
    method SqlSelectPgStatWal(env: Env, env2: Env) returns (cols: seq<Column>, ghost seen: seq<nat>)
      requires Valid()
      modifies this`version
      ensures Valid() && |seen| == 2 && Admissible(server, [old(version)] + seen + [version])
      ensures cols == Base(Wal) + if Gate(seen[0], 140000) && !Gate(seen[1], 150000) then WAL_14_ONLY else []
    {
      cols := [
        CurrentDatabase, WalRecords, WalFpi, WalBytes, WalBuffersFull, StatsReset];
      var at14 := AtLeast(14, 0, env);
      seen := [version, version];
      if at14 {
        var at15 := AtLeast(15, 0, env2);
        seen := [seen[0], version];
        if !at15 { cols := cols + [WalWrite, WalSync, WalWriteTime, WalSyncTime]; }
      }
    }

    method SelectPgStatIO(outer: Env, inner: Env) returns (cols: Option<seq<Column>>, ghost seen: seq<nat>)
      requires Valid()
      modifies this`version
      ensures Valid() && Rests(IO, old(version), seen, outer, cols)
      ensures Safe(IO, cols, server)
    {
      var yes := AtLeast(16, 0, outer);
      seen := [version, version];
      cols := None;
      if yes {
        var list := [
          CurrentDatabase, BackendType, Object, Context, Reads, ReadTime, Writes, WriteTime, Writebacks,
          WritebackTime, Extends, ExtendTime, Hits, Evictions, Reuses, Fsyncs, FsyncTime, StatsReset];
        var at18 := AtLeast(18, 0, inner);
        seen := [seen[0], version];
        if !at18 { list := list + [OpBytes]; }
        assert Base(IO) + [] == Base(IO);
        cols := Some(list);
      }
      RestsSafe(IO, old(version), seen, outer, cols);
    }

    method SqlSelectPgStatDatabase(env: Env, env2: Env) returns (cols: seq<Column>, ghost seen: seq<nat>)
      requires Valid()
      modifies this`version
      ensures Valid() && Rests(Database, old(version), seen, env, Some(cols))
      ensures Safe(Database, Some(cols), server)
    {
      cols, seen := AppendDatabaseGates([
        CurrentDatabase, Datid, Datname, Numbackends, XactCommit, XactRollback, BlksRead, BlksHit, TupReturned,
        TupFetched, TupInserted, TupUpdated, TupDeleted, Conflicts, TempFiles, TempBytes, Deadlocks,
        BlkReadTime, BlkWriteTime, StatsReset], env, env2);
      RestsSafe(Database, old(version), seen, env, Some(cols));
    }

    method AppendDatabaseGates(base: seq<Column>, env: Env, env2: Env) returns (cols: seq<Column>, ghost seen: seq<nat>)
      requires Valid()
      modifies this`version
      ensures Valid() && |seen| == GateCalls(Database) && Admissible(server, [old(version)] + seen + [version])
      ensures seen[0] == 0 <==> old(version) == 0 && !Learns(env)
      ensures cols == Appended(base, Database, seen)
    {
      cols := base;
      var at12 := AtLeast(12, 0, env);
      seen := [version];
      if at12 { cols := cols + [ChecksumFailures, ChecksumLastFailure]; }
      var at14 := AtLeast(14, 0, env2);
      seen := seen + [version];
      if at14 {
        cols := cols + [SessionTime, ActiveTime, IdleInTransactionTime, Sessions,
                        SessionsAbandoned, SessionsFatal, SessionsKilled];
      }
      assert forall xs: seq<Column> :: xs + [] == xs;
    }

    method SqlSelectPgReplicationSlots(env: Env, env2: Env) returns (cols: seq<Column>, ghost seen: seq<nat>)
      requires Valid()
      modifies this`version
      ensures Valid() && Rests(ReplicationSlots, old(version), seen, env, Some(cols))
      ensures Safe(ReplicationSlots, Some(cols), server)
    {
      cols, seen := AppendReplicationSlotsGates([
        CurrentDatabase, SlotName, Plugin, SlotType, Datname, Active, Temporary, RestartLsnBytes,
        ConfirmedFlushLsnBytes, RetainedWalBytes], env, env2);
      RestsSafe(ReplicationSlots, old(version), seen, env, Some(cols));
    }

    method AppendReplicationSlotsGates(base: seq<Column>, env: Env, env2: Env)
      returns (cols: seq<Column>, ghost seen: seq<nat>)
      requires Valid()
      modifies this`version
      ensures Valid() && |seen| == GateCalls(ReplicationSlots) && Admissible(server, [old(version)] + seen + [version])
      ensures seen[0] == 0 <==> old(version) == 0 && !Learns(env)
      ensures cols == Appended(base, ReplicationSlots, seen)
    {
      cols := base;
      var at13 := AtLeast(13, 0, env);
      seen := [version];
      if at13 { cols := cols + [WalStatus, SafeWalSizeBytes]; }
      var at16 := AtLeast(16, 0, env2);
      seen := seen + [version];
      if at16 { cols := cols + [Conflicting]; }
      assert forall xs: seq<Column> :: xs + [] == xs;
    }

    method SqlSelectPgStatUserTables(env: Env, env2: Env, env3: Env) returns (cols: seq<Column>, ghost seen: seq<nat>)
      requires Valid()
      modifies this`version
      ensures Valid() && Rests(UserTables, old(version), seen, env, Some(cols))
      ensures Safe(UserTables, Some(cols), server)
    {
      cols, seen := AppendUserTablesGates([
        CurrentDatabase, Schemaname, Relname, SeqScan, SeqTupRead, IdxScan, IdxTupFetch, NTupIns, NTupUpd,
        NTupDel, NTupHotUpd, NLiveTup, NDeadTup, NModSinceAnalyze, LastVacuum, LastAutovacuum, LastAnalyze,
        LastAutoanalyze, VacuumCount, AutovacuumCount, AnalyzeCount, AutoanalyzeCount], env, env2, env3);
      RestsSafe(UserTables, old(version), seen, env, Some(cols));
    }

    method AppendUserTablesGates(base: seq<Column>, env: Env, env2: Env, env3: Env)
      returns (cols: seq<Column>, ghost seen: seq<nat>)
      requires Valid()
      modifies this`version
      ensures Valid() && |seen| == GateCalls(UserTables) && Admissible(server, [old(version)] + seen + [version])
      ensures seen[0] == 0 <==> old(version) == 0 && !Learns(env)
      ensures cols == Appended(base, UserTables, seen)
    {
      cols := base;
      var at13 := AtLeast(13, 0, env);
      seen := [version];
      if at13 { cols := cols + [NInsSinceVacuum]; }
      var at16 := AtLeast(16, 0, env2);
      seen := seen + [version];
      if at16 { cols := cols + [LastSeqScan, LastIdxScan]; }
      var at17 := AtLeast(17, 0, env3);
      seen := seen + [version];
      if at17 { cols := cols + [NTupNewpageUpd]; }
      assert forall xs: seq<Column> :: xs + [] == xs;
    }
  }
}
