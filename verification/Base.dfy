/** Vocabulary shared by the transfer manager, the storage tables and the protocol. */
module Base {

  datatype Option<+T> = None | Some(value: T)

  type TransferId = nat
  type FileId = string
  type Peer = string
  type Dir = string
  type ConnId = nat

  /** How a file ended. */
  datatype FileTerminal = Rejected | Completed | Failed

  /** Local state of a whole transfer, as kept in memory and in `sync_transfer`. */
  datatype TransferState = New | Active | Canceled

  /** Local state of a file, as kept in `sync_incoming_files` and `sync_outgoing_files`. */
  datatype FileSync = Alive | Terminal

  datatype Error = BadPath | BadTransfer | BadTransferState | BadFileId | FileStateMismatch(kind: FileTerminal) | Mismatch

  datatype Result<+T> = Ok(value: T) | Err(error: Error)

  /** `xs` lists the members of `s`, each once, in some order: what iterating a hash map yields. */
  predicate IsListing<T(==)>(xs: seq<T>, s: set<T>) {
    && (forall x | x in s :: x in xs)
    && (forall i | 0 <= i < |xs| :: xs[i] in s)
    && (forall i, j | 0 <= i < j < |xs| :: xs[i] != xs[j])
  }

  /** Requests the manager pushes to the connection loop of the receiving side. */
  datatype ServerReq = Download(file: FileId) | Start(file: FileId) | Reject(file: FileId)
                     | Done(file: FileId) | Fail(file: FileId) | Close

  /** Requests the manager pushes to the connection loop of the sending side. */
  datatype ClientReq = RejectFile(file: FileId) | FailFile(file: FileId) | CloseTransfer
}
