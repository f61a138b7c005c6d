/**
 Which columns a server has: the fields of the row structs of exporter/db/model/model.go
 with the versions their comments give, and the removal of op_bytes in 18 from the
 comment of exporter/db/pg_stat_io.go.
 */
module ServerColumns {

  datatype View = Bgwriter | Checkpointer | Wal | IO | Database | UserTables | ReplicationSlots

  /** Projected columns, named after the column or alias each SQL expression yields. */
  datatype Column =
    | CurrentDatabase | BuffersClean | MaxwrittenClean | BuffersAlloc | StatsReset | NumTimed | NumRequested
    | RestartpointsTimed | RestartpointsReq | RestartpointsDone | WriteTime | SyncTime | BuffersWritten
    | WalRecords | WalFpi | WalBytes | WalBuffersFull | BackendType | Object | Context | Reads | ReadTime
    | Writes | Writebacks | WritebackTime | Extends | ExtendTime | Hits | Evictions | Reuses | Fsyncs
    | FsyncTime | Datid | Datname | Numbackends | XactCommit | XactRollback | BlksRead | BlksHit | TupReturned
    | TupFetched | TupInserted | TupUpdated | TupDeleted | Conflicts | TempFiles | TempBytes | Deadlocks
    | BlkReadTime | BlkWriteTime | Schemaname | Relname | SeqScan | SeqTupRead | IdxScan | IdxTupFetch
    | NTupIns | NTupUpd | NTupDel | NTupHotUpd | NLiveTup | NDeadTup | NModSinceAnalyze | LastVacuum
    | LastAutovacuum | LastAnalyze | LastAutoanalyze | VacuumCount | AutovacuumCount | AnalyzeCount
    | AutoanalyzeCount | SlotName | Plugin | SlotType | Active | Temporary | RestartLsnBytes
    | ConfirmedFlushLsnBytes | RetainedWalBytes | CheckpointsTimed | CheckpointsReq | CheckpointWriteTime
    | CheckpointSyncTime | BuffersCheckpoint | BuffersBackend | BuffersBackendFsync | WalWrite | WalSync
    | WalWriteTime | WalSyncTime | ChecksumFailures | ChecksumLastFailure | SessionTime | ActiveTime
    | IdleInTransactionTime | Sessions | SessionsAbandoned | SessionsFatal | SessionsKilled | NInsSinceVacuum
    | LastSeqScan | LastIdxScan | NTupNewpageUpd | WalStatus | SafeWalSizeBytes | Conflicting | OpBytes

  predicate ViewExists(view: View, server: nat) {
    match view
    case Checkpointer => server >= 170000
    case Wal => server >= 140000
    case IO => server >= 160000
    case _ => true
  }

  predicate BgwriterHas(col: Column, server: nat) {
    || col in {CurrentDatabase, BuffersClean, MaxwrittenClean, BuffersAlloc, StatsReset}
    || (server < 170000 && col in {
          CheckpointsTimed, CheckpointsReq, CheckpointWriteTime, CheckpointSyncTime, BuffersCheckpoint, BuffersBackend,
          BuffersBackendFsync})
  }

  predicate CheckpointerHas(col: Column) {
    col in {CurrentDatabase, NumTimed, NumRequested, RestartpointsTimed, RestartpointsReq, RestartpointsDone,
            WriteTime, SyncTime, BuffersWritten, StatsReset}
  }

  predicate WalHas(col: Column, server: nat) {
    || col in {CurrentDatabase, WalRecords, WalFpi, WalBytes, WalBuffersFull, StatsReset}
    || (server < 150000 && col in {WalWrite, WalSync, WalWriteTime, WalSyncTime})
  }

  predicate IOHas(col: Column, server: nat) {
    || col in {CurrentDatabase, BackendType, Object, Context, Reads, ReadTime, Writes, WriteTime, Writebacks,
               WritebackTime, Extends, ExtendTime, Hits, Evictions, Reuses, Fsyncs, FsyncTime, StatsReset}
    || (server < 180000 && col == OpBytes)
  }

  predicate DatabaseHas(col: Column, server: nat) {
    || col in {CurrentDatabase, Datid, Datname, Numbackends, XactCommit, XactRollback, BlksRead, BlksHit,
               TupReturned, TupFetched, TupInserted, TupUpdated, TupDeleted, Conflicts, TempFiles, TempBytes,
               Deadlocks, BlkReadTime, BlkWriteTime, StatsReset}
    || (server >= 120000 && col in {ChecksumFailures, ChecksumLastFailure})
    || (server >= 140000 && col in {
          SessionTime, ActiveTime, IdleInTransactionTime, Sessions, SessionsAbandoned, SessionsFatal, SessionsKilled})
  }

  predicate UserTablesHas(col: Column, server: nat) {
    || col in {CurrentDatabase, Schemaname, Relname, SeqScan, SeqTupRead, IdxScan, IdxTupFetch, NTupIns, NTupUpd,
               NTupDel, NTupHotUpd, NLiveTup, NDeadTup, NModSinceAnalyze, LastVacuum, LastAutovacuum, LastAnalyze,
               LastAutoanalyze, VacuumCount, AutovacuumCount, AnalyzeCount, AutoanalyzeCount}
    || (server >= 130000 && col == NInsSinceVacuum)
    || (server >= 160000 && col in {LastSeqScan, LastIdxScan})
    || (server >= 170000 && col == NTupNewpageUpd)
  }

  predicate ReplicationSlotsHas(col: Column, server: nat) {
    || col in {CurrentDatabase, SlotName, Plugin, SlotType, Datname, Active, Temporary, RestartLsnBytes,
               ConfirmedFlushLsnBytes, RetainedWalBytes}
    || (server >= 130000 && col in {WalStatus, SafeWalSizeBytes})
    || (server >= 160000 && col == Conflicting)
  }

  /** Whether the view of a server that has it has the column. */
  predicate HasColumn(view: View, col: Column, server: nat) {
    match view
    case Bgwriter => BgwriterHas(col, server)
    case Checkpointer => CheckpointerHas(col)
    case Wal => WalHas(col, server)
    case IO => IOHas(col, server)
    case Database => DatabaseHas(col, server)
    case UserTables => UserTablesHas(col, server)
    case ReplicationSlots => ReplicationSlotsHas(col, server)
  }
}
