/** The sending side of one transfer: the manager's entry for it together with its tables, and the
    effect of each locked manager operation on the pair. */
module Outgoing {
  import opened Base
  import opened Storage

  datatype OutFile = OutAlive | OutTerminal(kind: FileTerminal)

  /** `OutgoingState`, without the event handles. */
  datatype OutMem = OutMem(peer: Peer, sizes: map<FileId, nat>, conn: Option<ConnId>,
                           state: TransferState, files: map<FileId, OutFile>)

  datatype OutSlot = OutSlot(mem: Option<OutMem>, row: Option<Row>)

  /** A slot after an operation, what the operation answered (`true`: this call ended the file), and what
      it pushed to the connection. */
  datatype OutAfter = OutAfter(slot: OutSlot, result: Result<bool>, pushed: seq<ClientReq>)

  function Refused(s: OutSlot, e: Error): OutAfter {
    OutAfter(s, Err(e), [])
  }

  function FreshOut(peer: Peer, sizes: map<FileId, nat>): OutMem {
    OutMem(peer, sizes, None, New, map f | f in sizes :: OutAlive)
  }

  function InsertOutgoing(s: OutSlot, peer: Peer, sizes: map<FileId, nat>): OutAfter {
    if s.mem.Some? then Refused(s, BadTransferState)
    else
      OutAfter(OutSlot(Some(FreshOut(peer, sizes)), if s.row.Some? then s.row else Some(Inserted(peer, true, sizes))),
               Ok(true), [])
  }

  /** The request announcing a file's end to the peer; a completed file is not announced. */
  function EndRequest(file: OutFile, f: FileId): Option<ClientReq> {
    match file
    case OutTerminal(Rejected) => Some(RejectFile(f))
    case OutTerminal(Failed) => Some(FailFile(f))
    case _ => None
  }

  function PendingOut(files: map<FileId, OutFile>): set<ClientReq> {
    set f | f in files && EndRequest(files[f], f).Some? :: EndRequest(files[f], f).value
  }

  /** `outgoing_connected`, except for the pending requests, which come in any order. */
  function Connected(s: OutSlot, conn: ConnId): OutAfter {
    if s.mem.None? then Refused(s, BadTransfer)
    else
      var mem := s.mem.value;
      match mem.state
      case New => OutAfter(OutSlot(Some(mem.(state := Active, conn := Some(conn))), WithState(s.row, Active)), Ok(true), [])
      case Active => OutAfter(s.(mem := Some(mem.(conn := Some(conn)))), Ok(true), [])
      case Canceled => OutAfter(s, Ok(true), [CloseTransfer])
  }

  /** Ends a file in memory and in its table, when it is alive. */
  function Terminate(s: OutSlot, f: FileId, kind: FileTerminal): OutAfter
    requires s.mem.Some?
  {
    var mem := s.mem.value;
    if f !in mem.files then Refused(s, BadFileId)
    else if mem.files[f].OutTerminal? then Refused(s, FileStateMismatch(mem.files[f].kind))
    else
      OutAfter(OutSlot(Some(mem.(files := mem.files[f := OutTerminal(kind)])), WithFile(s.row, f, Terminal)), Ok(true), [])
  }

  predicate Usable(s: OutSlot) {
    s.mem.Some? && s.mem.value.state != Canceled
  }

  function RejectionPost(s: OutSlot, f: FileId): OutAfter {
    if !Usable(s) then Refused(s, BadTransfer)
    else
      var after := Terminate(s, f, Rejected);
      if after.result.Ok? && s.mem.value.conn.Some? then after.(pushed := [RejectFile(f)]) else after
  }

  function FailurePost(s: OutSlot, f: FileId): OutAfter {
    if !Usable(s) then Refused(s, BadTransfer) else Terminate(s, f, Failed)
  }

  /** A message from the peer ends the file unless it has ended already; cancelled transfers included. */
  function TerminalRecv(s: OutSlot, f: FileId, kind: FileTerminal): OutAfter {
    if s.mem.None? then Refused(s, BadTransfer)
    else
      var after := Terminate(s, f, kind);
      if after.result.Err? && after.result.error.FileStateMismatch? then OutAfter(s, Ok(false), []) else after
  }

  function IssueClose(s: OutSlot): OutAfter {
    if s.mem.None? then Refused(s, BadTransfer)
    else
      var mem := s.mem.value;
      match mem.state
      case New => OutAfter(OutSlot(None, WithoutSync(s.row)), Ok(true), [])
      case Active =>
        OutAfter(OutSlot(Some(mem.(state := Canceled, conn := None)), WithState(s.row, Canceled)), Ok(true),
                 if mem.conn.Some? then [CloseTransfer] else [])
      case Canceled => Refused(s, BadTransfer)
  }

  function Remove(s: OutSlot): OutAfter {
    if s.mem.None? then Refused(s, BadTransfer) else OutAfter(OutSlot(None, WithoutSync(s.row)), Ok(true), [])
  }

  function Disconnect(s: OutSlot): OutAfter {
    if s.mem.None? then Refused(s, BadTransfer)
    else OutAfter(s.(mem := Some(s.mem.value.(conn := None))), Ok(true), [])
  }

  function RestoredFile(st: FileSyncState): OutFile {
    if st.isRejected then OutTerminal(Rejected)
    else if st.isSuccess then OutTerminal(Completed)
    else if st.isFailed then OutTerminal(Failed)
    else if st.sync == Alive then OutAlive
    else OutTerminal(Failed)
  }

  /** `restore_outgoing` for one transfer: nothing without a sync record or when a path lacks one. */
  function Restore(row: Option<Row>): Option<OutMem> {
    if row.Some? && row.value.isOutgoing && row.value.sync.Some?
       && (forall f :: f in row.value.paths ==> HasSyncFile(row, f)) then
      Some(OutMem(row.value.peer, row.value.paths, None, row.value.sync.value.localState,
                  map f | f in row.value.paths :: RestoredFile(StateOfFile(row, f).value)))
    else None
  }
}
