/** The receiving side of one transfer: the manager's entry for it together with its tables, and the
    effect of each locked manager operation on the pair. */
module Incoming {
  import opened Base
  import opened Storage

  datatype InFile = Idle | InFlight(dir: Dir) | InTerminal(kind: FileTerminal)

  /** `IncomingState`, without the event handles and the directory mappings. */
  datatype InMem = InMem(peer: Peer, sizes: map<FileId, nat>, conn: Option<ConnId>,
                         state: TransferState, files: map<FileId, InFile>)

  datatype InSlot = InSlot(mem: Option<InMem>, row: Option<Row>)

  /** A slot after an operation, what the operation answered, and what it pushed to the connection. */
  datatype InAfter = InAfter(slot: InSlot, result: Result<bool>, pushed: seq<ServerReq>)

  function Refused(s: InSlot, e: Error): InAfter {
    InAfter(s, Err(e), [])
  }

  function FreshIn(peer: Peer, sizes: map<FileId, nat>, conn: ConnId): InMem {
    InMem(peer, sizes, Some(conn), Active, map f | f in sizes :: Idle)
  }

  /** The request that brings the peer up to date about a file after a reconnection. */
  function ResumeRequest(file: InFile, f: FileId): Option<ServerReq> {
    match file
    case Idle => None
    case InFlight(_) => Some(Download(f))
    case InTerminal(Rejected) => Some(Reject(f))
    case InTerminal(Completed) => Some(Done(f))
    case InTerminal(Failed) => Some(Fail(f))
  }

  function PendingIn(files: map<FileId, InFile>): set<ServerReq> {
    set f | f in files && ResumeRequest(files[f], f).Some? :: ResumeRequest(files[f], f).value
  }

  predicate ResumeMatches(mem: InMem, peer: Peer, sizes: map<FileId, nat>) {
    peer == mem.peer && sizes == mem.sizes
  }

  /** `register_incoming`, except for the pending requests of a known transfer, which come in any order
      before `pushed`. Answers `true` for a transfer that is new. `oldConnClosed` tells whether the
      connection still held by the entry has lost its reader. */
  function Register(s: InSlot, peer: Peer, sizes: map<FileId, nat>, conn: ConnId, oldConnClosed: bool): InAfter {
    match s.mem
    case Some(mem) =>
      if !ResumeMatches(mem, peer, sizes) || (mem.conn.Some? && oldConnClosed) then Refused(s, Mismatch)
      else if mem.state == Canceled then InAfter(s, Ok(false), [Close])
      else InAfter(s.(mem := Some(mem.(conn := Some(conn)))), Ok(false), [])
    case None =>
      if s.row.Some? then InAfter(s, Ok(false), [Close])
      else
        InAfter(InSlot(Some(FreshIn(peer, sizes, conn)), WithState(Some(Inserted(peer, false, sizes)), Active)), Ok(true), [])
  }

  predicate Usable(s: InSlot) {
    s.mem.Some? && s.mem.value.state != Canceled
  }

  /** `validate_for_download`: answers whether a download has to be started. */
  function ValidateForDownload(s: InSlot, f: FileId): Result<bool> {
    if !Usable(s) then Err(BadTransfer)
    else if f !in s.mem.value.files then Err(BadFileId)
    else
      match s.mem.value.files[f]
      case Idle => Ok(true)
      case InFlight(_) => Ok(false)
      case InTerminal(kind) => Err(FileStateMismatch(kind))
  }

  /** `Service::download`: validation and, for an idle file, `start_download`. */
  function StartDownload(s: InSlot, f: FileId, dir: Dir): InAfter {
    var verdict := ValidateForDownload(s, f);
    if verdict != Ok(true) then InAfter(s, verdict, [])
    else
      var mem := s.mem.value;
      InAfter(InSlot(Some(mem.(files := mem.files[f := InFlight(dir)])), WithStarted(s.row, f, dir)), Ok(true),
              if mem.conn.Some? then [Download(f)] else [])
  }

  /** Ends a file in memory and in its tables, unless it has ended already. */
  function Terminate(s: InSlot, f: FileId, kind: FileTerminal): InAfter
    requires s.mem.Some?
  {
    var mem := s.mem.value;
    if f !in mem.files then Refused(s, BadFileId)
    else if mem.files[f].InTerminal? then Refused(s, FileStateMismatch(mem.files[f].kind))
    else
      InAfter(InSlot(Some(mem.(files := mem.files[f := InTerminal(kind)])), WithStopped(WithFile(s.row, f, Terminal), f)),
              Ok(true), [])
  }

  function RejectionPost(s: InSlot, f: FileId): InAfter {
    if !Usable(s) then Refused(s, BadTransfer)
    else
      var after := Terminate(s, f, Rejected);
      if after.result.Ok? && s.mem.value.conn.Some? then after.(pushed := [Reject(f)]) else after
  }

  function FinishPost(s: InSlot, f: FileId, success: bool): InAfter {
    if !Usable(s) then Refused(s, BadTransfer) else Terminate(s, f, if success then Completed else Failed)
  }

  function TerminalRecv(s: InSlot, f: FileId, kind: FileTerminal): InAfter {
    if s.mem.None? then Refused(s, BadTransfer)
    else
      var after := Terminate(s, f, kind);
      if after.result.Err? && after.result.error.FileStateMismatch? then InAfter(s, Ok(false), []) else after
  }

  /** Cancelling idles every running download in memory and leaves the file tables alone. */
  function IssueClose(s: InSlot): InAfter {
    if !Usable(s) then Refused(s, BadTransfer)
    else
      var mem := s.mem.value;
      var files := map f | f in mem.files :: if mem.files[f].InFlight? then Idle else mem.files[f];
      InAfter(InSlot(Some(mem.(state := Canceled, conn := None, files := files)), WithState(s.row, Canceled)), Ok(true),
              if mem.conn.Some? then [Close] else [])
  }

  function Remove(s: InSlot): InAfter {
    if s.mem.None? then Refused(s, BadTransfer) else InAfter(InSlot(None, WithoutSync(s.row)), Ok(true), [])
  }

  function Disconnect(s: InSlot): InAfter {
    if s.mem.None? then Refused(s, BadTransfer)
    else InAfter(s.(mem := Some(s.mem.value.(conn := None))), Ok(true), [])
  }

  function RestoredFile(st: FileSyncState): InFile {
    if st.isRejected then InTerminal(Rejected)
    else if st.isSuccess then InTerminal(Completed)
    else if st.isFailed then InTerminal(Failed)
    else if st.sync == Alive then Idle
    else InTerminal(Failed)
  }

  /** Puts the downloads of the in-flight rows, in order, on top of the restored files. */
  function Overlay(files: map<FileId, InFile>, rows: seq<InFlightRow>): map<FileId, InFile> {
    if rows == [] then files
    else
      var m := Overlay(files, rows[..|rows| - 1]);
      var last := rows[|rows| - 1];
      if last.file in m && !m[last.file].InTerminal? then m[last.file := InFlight(last.baseDir)] else m
  }

  /** `restore_incoming` for one transfer: nothing without a sync record or when a path lacks one. */
  function Restore(row: Option<Row>): Option<InMem> {
    if row.Some? && !row.value.isOutgoing && row.value.sync.Some?
       && (forall f :: f in row.value.paths ==> HasSyncFile(row, f)) then
      var files := map f | f in row.value.paths :: RestoredFile(StateOfFile(row, f).value);
      Some(InMem(row.value.peer, row.value.paths, None, row.value.sync.value.localState,
                 Overlay(files, AliveInFlight(row.value.sync.value))))
    else None
  }
}
