/** What the locked operations of the manager promise their callers: which call ends a file and as what, who is
    refused and why, when the peer is told, and that the first end of a file is the one that counts. */
module Operations {
  import opened Base
  import opened Storage
  import O = Outgoing
  import I = Incoming

  // ----- Ending a file on the receiver

  /** The calls that end a received file: a local rejection, the end of a job, a message from the peer. */
  datatype InEnd = RejectedHere | Finished(success: bool) | ToldOf(kind: FileTerminal)

  function InKind(e: InEnd): FileTerminal {
    match e
    case RejectedHere => Rejected
    case Finished(success) => if success then Completed else Failed
    case ToldOf(kind) => kind
  }

  function InEndCall(s: I.InSlot, f: FileId, e: InEnd): I.InAfter {
    match e
    case RejectedHere => I.RejectionPost(s, f)
    case Finished(success) => I.FinishPost(s, f, success)
    case ToldOf(kind) => I.TerminalRecv(s, f, kind)
  }

  /** A message from the peer counts in a cancelled transfer, too. */
  predicate InAllowed(s: I.InSlot, e: InEnd) {
    s.mem.Some? && (e.ToldOf? || s.mem.value.state != Canceled)
  }

  predicate InLive(s: I.InSlot, f: FileId) {
    s.mem.Some? && f in s.mem.value.files && !s.mem.value.files[f].InTerminal?
  }

  /** A call ends the file, with its own kind and no other file with it, exactly when it is allowed and the file has
      not ended; otherwise nothing changes and the answer says why. Only a rejection is pushed. */
  lemma ReceiverEnds(s: I.InSlot, f: FileId, e: InEnd)
    ensures var after := InEndCall(s, f, e);
            && (after.result == Ok(true) <==> InAllowed(s, e) && InLive(s, f))
            && (after.result == Ok(true) ==>
                  after.slot.mem == Some(s.mem.value.(files := s.mem.value.files[f := I.InTerminal(InKind(e))])))
            && (after.result != Ok(true) ==> after.slot == s)
            && after.pushed == (if e.RejectedHere? && after.result == Ok(true) && s.mem.value.conn.Some? then [Reject(f)] else [])
            && (after.result == Err(BadTransfer) <==> !InAllowed(s, e))
            && (after.result == Err(BadFileId) <==> InAllowed(s, e) && f !in s.mem.value.files)
            && forall k :: InAllowed(s, e) && f in s.mem.value.files && s.mem.value.files[f] == I.InTerminal(k) ==>
                 after.result == if e.ToldOf? then Ok(false) else Err(FileStateMismatch(k))
  {
  }

  /** In the tables the file is terminal then, without a row that says it is in flight; other files keep theirs. */
  lemma ReceiverEndsRows(s: I.InSlot, f: FileId, e: InEnd, g: FileId, r: InFlightRow)
    requires InEndCall(s, f, e).result == Ok(true) && HasSyncFile(s.row, f)
    ensures var row := InEndCall(s, f, e).slot.row;
            && row.Some? && row.value.sync.Some? && row.value.recorded == s.row.value.recorded
            && var sync, before := row.value.sync.value, s.row.value.sync.value;
               && sync.files == before.files[f := Terminal] && sync.localState == before.localState
               && (r in sync.inFlight <==> r in before.inFlight && r.file != f)
  {
  }

  /** The first end counts: whatever call comes next for the file, it does not win, and the kind stays. */
  lemma ReceiverEndedForGood(s: I.InSlot, f: FileId, first: InEnd, next: InEnd)
    requires InEndCall(s, f, first).result == Ok(true)
    ensures var after := InEndCall(InEndCall(s, f, first).slot, f, next);
            && after.result != Ok(true) && after.slot.mem.Some? && f in after.slot.mem.value.files
            && after.slot.mem.value.files[f] == I.InTerminal(InKind(first))
  {
    ReceiverEnds(s, f, first);
    ReceiverEnds(InEndCall(s, f, first).slot, f, next);
  }

  /** What is replayed for a file after such a call is the announcement of that very end, and no download. */
  lemma EndIsReplayed(s: I.InSlot, f: FileId, e: InEnd)
    requires InEndCall(s, f, e).result == Ok(true)
    ensures var pending := I.PendingIn(InEndCall(s, f, e).slot.mem.value.files);
            && (Reject(f) in pending <==> InKind(e) == Rejected)
            && (Done(f) in pending <==> InKind(e) == Completed)
            && (Fail(f) in pending <==> InKind(e) == Failed)
            && ServerReq.Download(f) !in pending
  {
    ReceiverEnds(s, f, e);
    var files := InEndCall(s, f, e).slot.mem.value.files;
    assert I.ResumeRequest(files[f], f).value in I.PendingIn(files);
  }

  // ----- Starting a download

  /** A download starts exactly for an idle file of a transfer that is not cancelled, in the directory asked for;
      one that runs already is left where it is, everything else is refused with the reason. */
  lemma DownloadStarts(s: I.InSlot, f: FileId, dir: Dir)
    ensures var after := I.StartDownload(s, f, dir);
            var usable := s.mem.Some? && s.mem.value.state != Canceled;
            && (after.result == Ok(true) <==> usable && f in s.mem.value.files && s.mem.value.files[f] == I.Idle)
            && (after.result == Ok(false) <==> usable && f in s.mem.value.files && s.mem.value.files[f].InFlight?)
            && (after.result == Err(BadTransfer) <==> !usable)
            && (after.result == Err(BadFileId) <==> usable && f !in s.mem.value.files)
            && (forall k :: after.result == Err(FileStateMismatch(k)) <==>
                              usable && f in s.mem.value.files && s.mem.value.files[f] == I.InTerminal(k))
            && (after.result == Ok(true) ==>
                  after.slot.mem == Some(s.mem.value.(files := s.mem.value.files[f := I.InFlight(dir)])))
            && (after.result != Ok(true) ==> after.slot == s)
            && after.pushed == (if after.result == Ok(true) && s.mem.value.conn.Some? then [ServerReq.Download(f)] else [])
  {
  }

  // ----- Registering

  /** The connection the entry holds has lost its reader. */
  predicate HoldsDead(mem: I.InMem, oldConnClosed: bool) {
    mem.conn.Some? && oldConnClosed
  }

  /** A request for a known transfer is refused, and nothing changes or is pushed, exactly when it comes from another
      peer, names a file the transfer does not have or leaves one out, gives a file another size, or finds a dead
      connection held. */
  lemma RegistrationRefusedIff(s: I.InSlot, peer: Peer, sizes: map<FileId, nat>, conn: ConnId, oldConnClosed: bool)
    requires s.mem.Some?
    ensures var mem, after := s.mem.value, I.Register(s, peer, sizes, conn, oldConnClosed);
            && (after.result == Err(Mismatch) <==>
                  || peer != mem.peer
                  || (exists f :: f in sizes && f !in mem.sizes)
                  || (exists f :: f !in sizes && f in mem.sizes)
                  || (exists f :: f in sizes && f in mem.sizes && sizes[f] != mem.sizes[f])
                  || HoldsDead(mem, oldConnClosed))
            && (after.result.Err? ==> after.slot == s && after.pushed == [] && after.result == Err(Mismatch))
  {
    if forall f :: (f in sizes <==> f in s.mem.value.sizes) && (f in sizes ==> sizes[f] == s.mem.value.sizes[f]) {
      assert sizes == s.mem.value.sizes;
    }
  }

  /** An accepted request: the entry of an active transfer takes the connection and nothing else changes; a cancelled
      or removed transfer is answered with Close and stays as it is; an unknown one is entered with all files idle. */
  lemma RegistrationAccepted(s: I.InSlot, peer: Peer, sizes: map<FileId, nat>, conn: ConnId, oldConnClosed: bool)
    requires I.Register(s, peer, sizes, conn, oldConnClosed).result.Ok?
    ensures var after := I.Register(s, peer, sizes, conn, oldConnClosed);
            && (after.result == Ok(true) <==> s.mem.None? && s.row.None?)
            && (s.mem.Some? && s.mem.value.state != Canceled ==>
                  after.slot == s.(mem := Some(s.mem.value.(conn := Some(conn)))) && after.pushed == [])
            && (s.mem.Some? && s.mem.value.state == Canceled ==> after.slot == s && after.pushed == [Close])
            && (s.mem.None? && s.row.Some? ==> after.slot == s && after.pushed == [Close])
            && (after.result == Ok(true) ==>
                  && after.pushed == [] && after.slot.mem.Some?
                  && var mem := after.slot.mem.value;
                     && mem.peer == peer && mem.sizes == sizes && mem.conn == Some(conn) && mem.state == Active
                     && mem.files.Keys == sizes.Keys && forall f :: f in mem.files ==> mem.files[f] == I.Idle)
  {
  }

  // ----- Cancelling, removing, disconnecting

  /** Cancelling: exactly a transfer in use; ended files stay as they are, running downloads are idle in memory and
      keep their rows, and the peer is told at once when a connection is held. */
  lemma ReceiverCancels(s: I.InSlot)
    ensures var after := I.IssueClose(s);
            && (after.result == Ok(true) <==> s.mem.Some? && s.mem.value.state != Canceled)
            && (after.result != Ok(true) ==> after == I.InAfter(s, Err(BadTransfer), []))
            && (after.result == Ok(true) ==>
                  && after.slot.mem.Some?
                  && var mem, mem' := s.mem.value, after.slot.mem.value;
                     && mem'.state == Canceled && mem'.conn.None? && mem'.peer == mem.peer && mem'.sizes == mem.sizes
                     && mem'.files.Keys == mem.files.Keys
                     && (forall f :: f in mem.files ==>
                           mem'.files[f] == if mem.files[f].InFlight? then I.Idle else mem.files[f])
                     && after.pushed == (if mem.conn.Some? then [Close] else []))
            && (after.result == Ok(true) && s.row.Some? && s.row.value.sync.Some? ==>
                  && after.slot.row.Some? && after.slot.row.value.sync.Some?
                  && after.slot.row.value.sync.value == s.row.value.sync.value.(localState := Canceled))
  {
  }

  /** Sooner or later the peer of a cancelled transfer is told: at once when it is connected, and otherwise by what
      any later request of its is answered with, which gets it no connection. */
  lemma ReceiverCancelIsTold(s: I.InSlot, conn: ConnId, oldConnClosed: bool)
    requires I.IssueClose(s).result.Ok?
    ensures s.mem.value.conn.Some? ==> I.IssueClose(s).pushed == [Close]
    ensures var canceled := I.IssueClose(s).slot;
            I.Register(canceled, s.mem.value.peer, s.mem.value.sizes, conn, oldConnClosed) == I.InAfter(canceled, Ok(false), [Close])
  {
    ReceiverCancels(s);
  }

  lemma ReceiverLeaves(s: I.InSlot)
    requires s.mem.Some?
    ensures I.Remove(s).slot.mem.None? && I.Remove(s).result == Ok(true) && I.Remove(s).pushed == []
    ensures s.row.Some? ==> I.Remove(s).slot.row == Some(s.row.value.(sync := None))
    ensures I.Disconnect(s) == I.InAfter(s.(mem := Some(s.mem.value.(conn := None))), Ok(true), [])
  {
  }

  // ----- Ending a file on the sender

  datatype OutEnd = RejectedThere | FailedThere | HeardOf(kind: FileTerminal)

  function OutKind(e: OutEnd): FileTerminal {
    match e
    case RejectedThere => Rejected
    case FailedThere => Failed
    case HeardOf(kind) => kind
  }

  function OutEndCall(s: O.OutSlot, f: FileId, e: OutEnd): O.OutAfter {
    match e
    case RejectedThere => O.RejectionPost(s, f)
    case FailedThere => O.FailurePost(s, f)
    case HeardOf(kind) => O.TerminalRecv(s, f, kind)
  }

  predicate OutAllowed(s: O.OutSlot, e: OutEnd) {
    s.mem.Some? && (e.HeardOf? || s.mem.value.state != Canceled)
  }

  predicate OutLive(s: O.OutSlot, f: FileId) {
    s.mem.Some? && f in s.mem.value.files && s.mem.value.files[f] == O.OutAlive
  }

  lemma SenderEnds(s: O.OutSlot, f: FileId, e: OutEnd)
    ensures var after := OutEndCall(s, f, e);
            && (after.result == Ok(true) <==> OutAllowed(s, e) && OutLive(s, f))
            && (after.result == Ok(true) ==>
                  && after.slot.mem == Some(s.mem.value.(files := s.mem.value.files[f := O.OutTerminal(OutKind(e))]))
                  && (HasSyncFile(s.row, f) ==> HasSyncFile(after.slot.row, f) && after.slot.row.value.sync.value.files
                                                == s.row.value.sync.value.files[f := Terminal]))
            && (after.result != Ok(true) ==> after.slot == s)
            && after.pushed == (if e.RejectedThere? && after.result == Ok(true) && s.mem.value.conn.Some? then [RejectFile(f)] else [])
            && (after.result == Err(BadTransfer) <==> !OutAllowed(s, e))
            && (after.result == Err(BadFileId) <==> OutAllowed(s, e) && f !in s.mem.value.files)
            && forall k :: OutAllowed(s, e) && f in s.mem.value.files && s.mem.value.files[f] == O.OutTerminal(k) ==>
                 after.result == if e.HeardOf? then Ok(false) else Err(FileStateMismatch(k))
  {
  }

  lemma SenderEndedForGood(s: O.OutSlot, f: FileId, first: OutEnd, next: OutEnd)
    requires OutEndCall(s, f, first).result == Ok(true)
    ensures var after := OutEndCall(OutEndCall(s, f, first).slot, f, next);
            && after.result != Ok(true) && after.slot.mem.Some? && f in after.slot.mem.value.files
            && after.slot.mem.value.files[f] == O.OutTerminal(OutKind(first))
  {
    SenderEnds(s, f, first);
    SenderEnds(OutEndCall(s, f, first).slot, f, next);
  }

  // ----- Connecting and cancelling on the sender

  /** Connecting makes a new transfer active and stores the connection, unless the transfer is cancelled: then the
      peer is told, and nothing is stored. */
  lemma SenderConnects(s: O.OutSlot, conn: ConnId)
    ensures var after := O.Connected(s, conn);
            && (after.result == Err(BadTransfer) <==> s.mem.None?) && (s.mem.None? ==> after.slot == s && after.pushed == [])
            && (s.mem.Some? && s.mem.value.state == Canceled ==> after == O.OutAfter(s, Ok(true), [CloseTransfer]))
            && (s.mem.Some? && s.mem.value.state != Canceled ==>
                  && after.slot.mem == Some(s.mem.value.(state := Active, conn := Some(conn)))
                  && after.pushed == [] && after.result == Ok(true)
                  && (s.row.Some? && s.row.value.sync.Some? ==>
                        && after.slot.row.Some? && after.slot.row.value.sync.Some?
                        && after.slot.row.value.sync.value.files == s.row.value.sync.value.files
                        && after.slot.row.value.sync.value.localState
                           == if s.mem.value.state == New then Active else s.row.value.sync.value.localState))
  {
  }

  /** Cancelling: a new transfer is forgotten without a word, an active one is cancelled and its peer told at once
      when it is connected and at the next connection otherwise, a cancelled one is refused. */
  lemma SenderCancels(s: O.OutSlot, conn: ConnId)
    requires s.mem.Some?
    ensures var after := O.IssueClose(s);
            match s.mem.value.state
            case New => after.result == Ok(true) && after.slot.mem.None? && after.pushed == []
                        && (s.row.Some? ==> after.slot.row == Some(s.row.value.(sync := None)))
            case Canceled => after == O.OutAfter(s, Err(BadTransfer), [])
            case Active =>
              && after.result == Ok(true)
              && after.slot.mem == Some(s.mem.value.(state := Canceled, conn := None))
              && after.pushed == (if s.mem.value.conn.Some? then [CloseTransfer] else [])
              && O.Connected(after.slot, conn) == O.OutAfter(after.slot, Ok(true), [CloseTransfer])
  {
  }

  lemma SenderLeaves(s: O.OutSlot)
    requires s.mem.Some?
    ensures O.Remove(s).slot.mem.None? && O.Remove(s).result == Ok(true) && O.Remove(s).pushed == []
    ensures s.row.Some? ==> O.Remove(s).slot.row == Some(s.row.value.(sync := None))
    ensures O.Disconnect(s) == O.OutAfter(s.(mem := Some(s.mem.value.(conn := None))), Ok(true), [])
  {
  }

  /** A transfer that is inserted is new, with every file alive in memory and in the tables, and nothing recorded. */
  lemma SenderInserts(s: O.OutSlot, peer: Peer, sizes: map<FileId, nat>)
    requires s.mem.None? && s.row.None?
    ensures var after := O.InsertOutgoing(s, peer, sizes);
            && after.result == Ok(true) && after.slot.mem.Some? && after.slot.row.Some? && after.slot.row.value.sync.Some?
            && var mem, row := after.slot.mem.value, after.slot.row.value;
               && mem.peer == peer && row.peer == peer && mem.sizes == sizes && row.paths == sizes && row.isOutgoing
               && mem.conn.None? && mem.state == New && row.sync.value.localState == New
               && mem.files.Keys == sizes.Keys && row.sync.value.files.Keys == sizes.Keys
               && (forall f :: f in sizes ==> mem.files[f] == O.OutAlive && row.sync.value.files[f] == Alive)
               && (forall f :: !AnyRecorded(row.recorded, f)) && !row.recorded.ended && !row.isDeleted
  {
  }
}
