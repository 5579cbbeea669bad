/** The tables behind one transfer id, and the statements that update them.
    The rows reached from `transfers` through foreign keys are nested in the transfer's row, so that
    deleting a parent drops its children, as the ON DELETE CASCADE clauses declare. A statement whose
    WHERE clause matches nothing leaves the tables as they are. */
module Storage {
  import opened Base

  /** A row of `sync_incoming_files_inflight`. */
  datatype InFlightRow = InFlightRow(file: FileId, baseDir: Dir)

  /** A row of `sync_transfer` with the rows of the sync file tables that hang off it. */
  datatype Sync = Sync(localState: TransferState, files: map<FileId, FileSync>, inFlight: seq<InFlightRow>)

  /** Which files have a row in the `*_path_reject_states`, `*_path_completed_states` and
      `*_path_failed_states` tables, and whether the transfer has one in `transfer_cancel_states`
      or `transfer_failed_states`. */
  datatype Recorded = Recorded(rejected: set<FileId>, completed: set<FileId>, failed: set<FileId>, ended: bool)

  /** A row of `transfers` with everything that hangs off it. */
  datatype Row = Row(peer: Peer, isOutgoing: bool, isDeleted: bool, paths: map<FileId, nat>,
                     sync: Option<Sync>, recorded: Recorded)

  /** What the restore code reads about one file. */
  datatype FileSyncState = FileSyncState(sync: FileSync, isRejected: bool, isSuccess: bool, isFailed: bool)

  const NOTHING_RECORDED := Recorded({}, {}, {}, false)

  function Inserted(peer: Peer, isOutgoing: bool, paths: map<FileId, nat>): Row {
    Row(peer, isOutgoing, false, paths,
        Some(Sync(New, map f | f in paths :: Alive, [])), NOTHING_RECORDED)
  }

  function WithState(row: Option<Row>, state: TransferState): Option<Row> {
    if row.Some? && row.value.sync.Some? then
      Some(row.value.(sync := Some(row.value.sync.value.(localState := state))))
    else row
  }

  function WithoutSync(row: Option<Row>): Option<Row> {
    if row.Some? then Some(row.value.(sync := None)) else row
  }

  predicate HasSyncFile(row: Option<Row>, f: FileId) {
    row.Some? && row.value.sync.Some? && f in row.value.sync.value.files
  }

  function WithFile(row: Option<Row>, f: FileId, state: FileSync): Option<Row> {
    if HasSyncFile(row, f) then
      var sync := row.value.sync.value;
      Some(row.value.(sync := Some(sync.(files := sync.files[f := state]))))
    else row
  }

  /** The in-flight rows of the other files, in their order. */
  function Without(rows: seq<InFlightRow>, f: FileId): (rest: seq<InFlightRow>)
    ensures forall r :: r in rest <==> r in rows && r.file != f
  {
    if rows == [] then []
    else
      var last := rows[|rows| - 1];
      Without(rows[..|rows| - 1], f) + (if last.file == f then [] else [last])
  }

  function WithStopped(row: Option<Row>, f: FileId): Option<Row> {
    if HasSyncFile(row, f) then
      var sync := row.value.sync.value;
      Some(row.value.(sync := Some(sync.(inFlight := Without(sync.inFlight, f)))))
    else row
  }

  function WithStarted(row: Option<Row>, f: FileId, dir: Dir): Option<Row> {
    if HasSyncFile(row, f) then
      var sync := row.value.sync.value;
      Some(row.value.(sync := Some(sync.(inFlight := sync.inFlight + [InFlightRow(f, dir)]))))
    else row
  }

  /** A row is added to the states table of `kind` when the file is one of the transfer's paths. */
  function WithRecorded(row: Option<Row>, f: FileId, kind: FileTerminal): Option<Row> {
    if row.Some? && f in row.value.paths then
      var seen := row.value.recorded;
      Some(row.value.(recorded := match kind
        case Rejected => seen.(rejected := seen.rejected + {f})
        case Completed => seen.(completed := seen.completed + {f})
        case Failed => seen.(failed := seen.failed + {f})))
    else row
  }

  function WithEnded(row: Option<Row>): Option<Row> {
    if row.Some? then Some(row.value.(recorded := row.value.recorded.(ended := true))) else row
  }

  /** Purging only marks transfers that have a cancel or failed record. */
  function Purged(row: Option<Row>): Option<Row> {
    if row.Some? && row.value.recorded.ended then Some(row.value.(isDeleted := true)) else row
  }

  /** Garbage collection drops marked transfers that have no sync record. */
  function Collected(row: Option<Row>): Option<Row> {
    if row.Some? && row.value.isDeleted && row.value.sync.None? then None else row
  }

  /** The foreign keys of a transfer's rows: end records and sync rows belong to its paths, in-flight rows to its
      sync rows. */
  predicate KeysHold(row: Row) {
    && row.recorded.rejected <= row.paths.Keys && row.recorded.completed <= row.paths.Keys
    && row.recorded.failed <= row.paths.Keys
    && (row.sync.Some? ==>
          && row.sync.value.files.Keys <= row.paths.Keys
          && forall r :: r in row.sync.value.inFlight ==> r.file in row.sync.value.files)
  }

  /** The files whose end is recorded as being of the kind. */
  function EndsRecorded(r: Recorded, kind: FileTerminal): set<FileId> {
    match kind
    case Rejected => r.rejected
    case Completed => r.completed
    case Failed => r.failed
  }

  /** Recording an end adds this file to the records of this kind, when it is a path of the transfer; no other
      record, and nothing else of the transfer, changes. */
  lemma RecordsExactly(row: Row, f: FileId, kind: FileTerminal, g: FileId)
    ensures WithRecorded(Some(row), f, kind).Some?
    ensures var seen, seen' := row.recorded, WithRecorded(Some(row), f, kind).value.recorded;
            var added := g == f && f in row.paths;
            && (g in seen'.rejected <==> g in seen.rejected || (added && kind == Rejected))
            && (g in seen'.completed <==> g in seen.completed || (added && kind == Completed))
            && (g in seen'.failed <==> g in seen.failed || (added && kind == Failed))
            && seen'.ended == seen.ended
    ensures WithRecorded(Some(row), f, kind).value.(recorded := row.recorded) == row
  {
  }

  predicate AnyRecorded(r: Recorded, f: FileId) {
    f in r.rejected || f in r.completed || f in r.failed
  }

  class Db {
    var rows: map<TransferId, Row>

    constructor ()
      ensures rows == map[]
    {
      rows := map[];
    }

    function RowOf(t: TransferId): Option<Row>
      reads this
    {
      if t in rows then Some(rows[t]) else None
    }

    /** Every other transfer's rows are the ones in `before`. */
    ghost predicate OthersKept(t: TransferId, before: map<TransferId, Row>)
      reads this
    {
      forall u :: u != t ==> (u in rows <==> u in before) && (u in rows ==> rows[u] == before[u])
    }

    ghost predicate ForeignKeys()
      reads this
    {
      forall t :: t in rows ==> KeysHold(rows[t])
    }

    /** `insert_transfer`: nothing happens when the id is taken, otherwise the transfer, its paths and
        its sync rows appear together. */
    method InsertTransfer(t: TransferId, peer: Peer, isOutgoing: bool, paths: map<FileId, nat>) returns (inserted: bool)
      modifies this
      ensures inserted <==> old(RowOf(t)).None?
      ensures RowOf(t) == if inserted then Some(Inserted(peer, isOutgoing, paths)) else old(RowOf(t))
      ensures OthersKept(t, old(rows))
      ensures old(ForeignKeys()) ==> ForeignKeys()
    {
      if t in rows {
        return false;
      }
      var sync := Sync(New, map f | f in paths :: Alive, []);
      rows := rows[t := Row(peer, isOutgoing, false, paths, Some(sync), Recorded({}, {}, {}, false))];
      return true;
    }

    method UpdateTransferSyncState(t: TransferId, state: TransferState)
      modifies this
      ensures RowOf(t) == WithState(old(RowOf(t)), state)
      ensures OthersKept(t, old(rows))
      ensures old(ForeignKeys()) ==> ForeignKeys()
      ensures forall f :: StateOfFile(RowOf(t), f) == old(StateOfFile(RowOf(t), f))
    {
      if t in rows && rows[t].sync.Some? {
        rows := rows[t := rows[t].(sync := Some(rows[t].sync.value.(localState := state)))];
      }
    }

    method TransferSyncClear(t: TransferId) returns (cleared: bool)
      modifies this
      ensures cleared <==> old(RowOf(t)).Some? && old(RowOf(t)).value.sync.Some?
      ensures RowOf(t) == WithoutSync(old(RowOf(t)))
      ensures OthersKept(t, old(rows))
      ensures old(ForeignKeys()) ==> ForeignKeys()
    {
      if t !in rows {
        return false;
      }
      cleared := rows[t].sync.Some?;
      rows := rows[t := rows[t].(sync := None)];
    }

    method UpdateFileSyncState(t: TransferId, f: FileId, state: FileSync)
      modifies this
      ensures RowOf(t) == WithFile(old(RowOf(t)), f, state)
      ensures OthersKept(t, old(rows))
      ensures old(ForeignKeys()) ==> ForeignKeys()
    {
      if t in rows && rows[t].sync.Some? && f in rows[t].sync.value.files {
        var sync := rows[t].sync.value;
        rows := rows[t := rows[t].(sync := Some(sync.(files := sync.files[f := state])))];
      }
    }

    method StartIncomingFile(t: TransferId, f: FileId, dir: Dir)
      modifies this
      ensures RowOf(t) == WithStarted(old(RowOf(t)), f, dir)
      ensures OthersKept(t, old(rows))
      ensures old(ForeignKeys()) ==> ForeignKeys()
    {
      if t in rows && rows[t].sync.Some? && f in rows[t].sync.value.files {
        var sync := rows[t].sync.value;
        rows := rows[t := rows[t].(sync := Some(sync.(inFlight := sync.inFlight + [InFlightRow(f, dir)])))];
      }
    }

    /** `stop_incoming_file`: deletes every in-flight row of the file. */
    method StopIncomingFile(t: TransferId, f: FileId)
      modifies this
      ensures RowOf(t) == WithStopped(old(RowOf(t)), f)
      ensures OthersKept(t, old(rows))
      ensures old(ForeignKeys()) ==> ForeignKeys()
    {
      if t !in rows || rows[t].sync.None? || f !in rows[t].sync.value.files {
        return;
      }
      var sync := rows[t].sync.value;
      var kept := [];
      for i := 0 to |sync.inFlight|
        invariant kept == Without(sync.inFlight[..i], f)
      {
        assert sync.inFlight[..i + 1][..i] == sync.inFlight[..i];
        if sync.inFlight[i].file != f {
          kept := kept + [sync.inFlight[i]];
        }
      }
      assert sync.inFlight[..|sync.inFlight|] == sync.inFlight;
      rows := rows[t := rows[t].(sync := Some(sync.(inFlight := kept)))];
    }

    /** `incoming_files_in_flight`: the in-flight rows of files that are still alive. */
    method IncomingFilesInFlight(t: TransferId) returns (found: seq<InFlightRow>)
      ensures RowOf(t).None? || RowOf(t).value.sync.None? ==> found == []
      ensures RowOf(t).Some? && RowOf(t).value.sync.Some? ==> found == AliveInFlight(RowOf(t).value.sync.value)
    {
      if t !in rows || rows[t].sync.None? {
        return [];
      }
      var sync := rows[t].sync.value;
      found := [];
      for i := 0 to |sync.inFlight|
        invariant found == AliveIn(sync.files, sync.inFlight[..i])
      {
        assert sync.inFlight[..i + 1][..i] == sync.inFlight[..i];
        var row := sync.inFlight[i];
        if row.file in sync.files && sync.files[row.file] == Alive {
          found := found + [row];
        }
      }
      assert sync.inFlight[..|sync.inFlight|] == sync.inFlight;
    }

    /** `incoming_file_sync_state` and `outgoing_file_sync_state`. */
    method ReadFileSyncState(t: TransferId, f: FileId) returns (state: Option<FileSyncState>)
      ensures state == StateOfFile(RowOf(t), f)
      ensures state.Some? ==> RowOf(t).Some? && RowOf(t).value.sync.Some?
      ensures ForeignKeys() && state.Some? ==> f in RowOf(t).value.paths
      ensures ForeignKeys() && RowOf(t).Some? && f !in RowOf(t).value.paths ==>
                state.None? && !AnyRecorded(RowOf(t).value.recorded, f)
    {
      if t in rows && rows[t].sync.Some? && f in rows[t].sync.value.files {
        var seen := rows[t].recorded;
        state := Some(FileSyncState(rows[t].sync.value.files[f], f in seen.rejected, f in seen.completed, f in seen.failed));
      } else {
        state := None;
      }
    }

    method RecordFileState(t: TransferId, f: FileId, kind: FileTerminal)
      modifies this
      ensures RowOf(t) == WithRecorded(old(RowOf(t)), f, kind)
      ensures RowOf(t).Some? <==> old(RowOf(t)).Some?
      ensures RowOf(t).Some? ==>
        var row, before := RowOf(t).value, old(RowOf(t)).value;
        && row == before.(recorded := row.recorded) && row.recorded.ended == before.recorded.ended
        && row.recorded.rejected == before.recorded.rejected + (if kind == Rejected && f in row.paths then {f} else {})
        && row.recorded.completed == before.recorded.completed + (if kind == Completed && f in row.paths then {f} else {})
        && row.recorded.failed == before.recorded.failed + (if kind == Failed && f in row.paths then {f} else {})
      ensures OthersKept(t, old(rows))
      ensures old(ForeignKeys()) ==> ForeignKeys()
    {
      if t in rows && f in rows[t].paths {
        var seen := rows[t].recorded;
        match kind {
          case Rejected => seen := seen.(rejected := seen.rejected + {f});
          case Completed => seen := seen.(completed := seen.completed + {f});
          case Failed => seen := seen.(failed := seen.failed + {f});
        }
        rows := rows[t := rows[t].(recorded := seen)];
      }
    }

    /** `purge_transfers`, one id after the other. */
    method PurgeTransfers(ids: seq<TransferId>)
      modifies this
      ensures forall t :: RowOf(t) == if t in ids then Purged(old(RowOf(t))) else old(RowOf(t))
      ensures old(ForeignKeys()) ==> ForeignKeys()
    {
      for i := 0 to |ids|
        invariant forall t :: RowOf(t) == if t in ids[..i] then Purged(old(RowOf(t))) else old(RowOf(t))
        invariant old(ForeignKeys()) ==> ForeignKeys()
      {
        var id := ids[i];
        assert ids[..i + 1] == ids[..i] + [id];
        if id in rows && rows[id].recorded.ended {
          rows := rows[id := rows[id].(isDeleted := true)];
        }
      }
      assert ids[..|ids|] == ids;
    }

    /** `cleanup_garbage_transfers`: a transfer that still has a sync record is never dropped. */
    method CleanupGarbageTransfers()
      modifies this
      ensures forall t :: RowOf(t) == Collected(old(RowOf(t)))
      ensures old(ForeignKeys()) ==> ForeignKeys()
    {
      rows := map t | t in rows && !(rows[t].isDeleted && rows[t].sync.None?) :: rows[t];
    }
  }

  function AliveIn(files: map<FileId, FileSync>, rows: seq<InFlightRow>): seq<InFlightRow> {
    if rows == [] then []
    else
      var last := rows[|rows| - 1];
      AliveIn(files, rows[..|rows| - 1]) + (if last.file in files && files[last.file] == Alive then [last] else [])
  }

  function AliveInFlight(sync: Sync): seq<InFlightRow> {
    AliveIn(sync.files, sync.inFlight)
  }

  function StateOfFile(row: Option<Row>, f: FileId): Option<FileSyncState> {
    if HasSyncFile(row, f) then
      var seen := row.value.recorded;
      Some(FileSyncState(row.value.sync.value.files[f], f in seen.rejected, f in seen.completed, f in seen.failed))
    else None
  }
}
