/** `TransferManager`: the in-memory maps of transfers, updated together with the tables. Every method
    is one critical section and is proved to do what the slot functions of `Incoming` and `Outgoing` say
    to its own transfer, and nothing to the others. A connection handle is an id; its queue is gone once
    the reader is dropped, and pushing to it then is a no-op, as sending to a closed channel is. */
module Manager {
  import opened Base
  import opened Storage
  import O = Outgoing
  import I = Incoming

  /** The queues after pushing `reqs` to `conn`: they come last in its queue, if it has one, in their order, and no
      other queue changes. */
  function Pushed<T>(queues: map<ConnId, seq<T>>, conn: Option<ConnId>, reqs: seq<T>): (after: map<ConnId, seq<T>>)
    ensures after.Keys == queues.Keys
    ensures forall c :: c in queues && conn != Some(c) ==> after[c] == queues[c]
    ensures conn.Some? && conn.value in queues ==>
              && |after[conn.value]| == |queues[conn.value]| + |reqs| && queues[conn.value] <= after[conn.value]
              && forall i :: 0 <= i < |reqs| ==> after[conn.value][|queues[conn.value]| + i] == reqs[i]
  {
    if conn.Some? && conn.value in queues then queues[conn.value := queues[conn.value] + reqs] else queues
  }

  /** `issue_pending_requests` of the receiving side, in whatever order the map yields. */
  method IssuePendingIn(files: map<FileId, I.InFile>) returns (reqs: seq<ServerReq>)
    ensures IsListing(reqs, I.PendingIn(files))
  {
    reqs := [];
    var todo := files.Keys;
    while todo != {}
      invariant todo <= files.Keys
      invariant forall r :: r in reqs <==>
                  r in I.PendingIn(files) && r.file !in todo
      invariant forall i, j :: 0 <= i < j < |reqs| ==> reqs[i] != reqs[j]
      decreases todo
    {
      ghost var before := todo;
      var f :| f in todo;
      todo := todo - {f};
      match files[f] {
        case Idle =>
        case InFlight(_) => reqs := reqs + [Download(f)];
        case InTerminal(Rejected) => reqs := reqs + [Reject(f)];
        case InTerminal(Completed) => reqs := reqs + [Done(f)];
        case InTerminal(Failed) => reqs := reqs + [Fail(f)];
      }
      assert forall r :: r in I.PendingIn(files) && r.file == f ==> I.ResumeRequest(files[f], f) == Some(r);
      assert I.ResumeRequest(files[f], f).Some? ==> I.ResumeRequest(files[f], f).value in I.PendingIn(files);
    }
  }

  /** `issue_pending_requests` of the sending side. */
  method IssuePendingOut(files: map<FileId, O.OutFile>) returns (reqs: seq<ClientReq>)
    ensures IsListing(reqs, O.PendingOut(files))
  {
    reqs := [];
    var todo := files.Keys;
    while todo != {}
      invariant todo <= files.Keys
      invariant forall r :: r in reqs <==> r in O.PendingOut(files) && r.file !in todo
      invariant forall i, j :: 0 <= i < j < |reqs| ==> reqs[i] != reqs[j]
      decreases todo
    {
      var f :| f in todo;
      todo := todo - {f};
      match files[f] {
        case OutTerminal(Rejected) => reqs := reqs + [RejectFile(f)];
        case OutTerminal(Failed) => reqs := reqs + [FailFile(f)];
        case _ =>
      }
      assert forall r :: r in O.PendingOut(files) && r.file == f ==> O.EndRequest(files[f], f) == Some(r);
      assert O.EndRequest(files[f], f).Some? ==> O.EndRequest(files[f], f).value in O.PendingOut(files);
    }
  }

  class TransferManager {
    var incoming: map<TransferId, I.InMem>
    var outgoing: map<TransferId, O.OutMem>
    var serverQueues: map<ConnId, seq<ServerReq>>
    var clientQueues: map<ConnId, seq<ClientReq>>
    const db: Db

    constructor (db: Db)
      ensures this.db == db && incoming == map[] && outgoing == map[]
      ensures serverQueues == map[] && clientQueues == map[]
    {
      this.db := db;
      incoming, outgoing := map[], map[];
      serverQueues, clientQueues := map[], map[];
    }

    ghost function InSlot(t: TransferId): I.InSlot
      reads this, db
    {
      I.InSlot(if t in incoming then Some(incoming[t]) else None, db.RowOf(t))
    }

    ghost function OutSlot(t: TransferId): O.OutSlot
      reads this, db
    {
      O.OutSlot(if t in outgoing then Some(outgoing[t]) else None, db.RowOf(t))
    }

    ghost function InConn(t: TransferId): Option<ConnId>
      reads this
    {
      if t in incoming then incoming[t].conn else None
    }

    ghost function OutConn(t: TransferId): Option<ConnId>
      reads this
    {
      if t in outgoing then outgoing[t].conn else None
    }

    /** Nothing but transfer `t` differs from the given maps. */
    ghost predicate InOthersKept(t: TransferId, mems: map<TransferId, I.InMem>, rows: map<TransferId, Row>)
      reads this, db
    {
      && db.OthersKept(t, rows)
      && forall u :: u != t ==> (u in incoming <==> u in mems) && (u in incoming ==> incoming[u] == mems[u])
    }

    ghost predicate OutOthersKept(t: TransferId, mems: map<TransferId, O.OutMem>, rows: map<TransferId, Row>)
      reads this, db
    {
      && db.OthersKept(t, rows)
      && forall u :: u != t ==> (u in outgoing <==> u in mems) && (u in outgoing ==> outgoing[u] == mems[u])
    }

    // ----- Receiving side

    /** A new transfer is stored and registered; a known one gets its pending requests replayed on the new
        connection; one that was closed before is answered with Close and not registered again. */
    method RegisterIncoming(t: TransferId, peer: Peer, sizes: map<FileId, nat>, conn: ConnId)
      returns (result: Result<bool>, ghost replay: seq<ServerReq>)
      requires conn in serverQueues
      modifies this`incoming, this`serverQueues, db
      ensures var closed := old(InConn(t)).Some? && old(InConn(t)).value !in old(serverQueues);
              var after := I.Register(old(InSlot(t)), peer, sizes, conn, closed);
              && InSlot(t) == after.slot && result == after.result
              && serverQueues == Pushed(old(serverQueues), Some(conn), replay + after.pushed)
      ensures if result.Ok? && t in old(incoming) then IsListing(replay, I.PendingIn(old(incoming)[t].files)) else replay == []
      ensures t in old(incoming) ==>
        var before := old(incoming)[t];
        result == Err(Mismatch) <==>
          peer != before.peer || sizes != before.sizes || (before.conn.Some? && before.conn.value !in old(serverQueues))
      ensures result.Err? ==> incoming == old(incoming) && serverQueues == old(serverQueues) && db.rows == old(db.rows)
      ensures t in incoming && result.Ok? ==> incoming[t].peer == peer && incoming[t].sizes == sizes
      ensures InOthersKept(t, old(incoming), old(db.rows))
    {
      replay := [];
      PushNothing();
      assert replay + [] == [];
      if t in incoming {
        var state := incoming[t];
        if peer != state.peer || sizes != state.sizes {
          return Err(Mismatch), [];
        }
        if state.conn.Some? && state.conn.value !in serverQueues {
          return Err(Mismatch), [];
        }
        var reqs := IssuePendingIn(state.files);
        replay := reqs;
        if state.state == Canceled {
          serverQueues := serverQueues[conn := serverQueues[conn] + (reqs + [Close])];
        } else {
          serverQueues := serverQueues[conn := serverQueues[conn] + (reqs + [])];
          incoming := incoming[t := state.(conn := Some(conn))];
        }
        return Ok(false), replay;
      }
      var inserted := db.InsertTransfer(t, peer, false, sizes);
      if !inserted {
        serverQueues := serverQueues[conn := serverQueues[conn] + ([] + [Close])];
        return Ok(false), [];
      }
      db.UpdateTransferSyncState(t, Active);
      var files := map f | f in sizes :: I.Idle;
      incoming := incoming[t := I.InMem(peer, sizes, Some(conn), Active, files)];
      return Ok(true), [];
    }

    method Download(t: TransferId, f: FileId, dir: Dir) returns (result: Result<bool>)
      modifies this`incoming, this`serverQueues, db
      ensures var after := I.StartDownload(old(InSlot(t)), f, dir);
              && InSlot(t) == after.slot && result == after.result
              && serverQueues == Pushed(old(serverQueues), old(InConn(t)), after.pushed)
      ensures InOthersKept(t, old(incoming), old(db.rows))
    {
      if t !in incoming || incoming[t].state == Canceled {
        PushNothing();
        return Err(BadTransfer);
      }
      var state := incoming[t];
      if f !in state.files {
        PushNothing();
        return Err(BadFileId);
      }
      match state.files[f] {
        case InTerminal(kind) =>
          PushNothing();
          return Err(FileStateMismatch(kind));
        case InFlight(_) =>
          PushNothing();
          return Ok(false);
        case Idle =>
          incoming := incoming[t := state.(files := state.files[f := I.InFlight(dir)])];
          db.StartIncomingFile(t, f, dir);
          PushServer(state.conn, ServerReq.Download(f));
          return Ok(true);
      }
    }

    /** Pushing an empty list to any queue changes nothing. */
    lemma PushNothing()
      ensures forall c :: Pushed(serverQueues, c, []) == serverQueues
      ensures forall c :: Pushed(clientQueues, c, []) == clientQueues
    {
      forall c: Option<ConnId>
        ensures Pushed(serverQueues, c, []) == serverQueues && Pushed(clientQueues, c, []) == clientQueues
      {
        if c.Some? && c.value in serverQueues {
          assert serverQueues[c.value] + [] == serverQueues[c.value];
        }
        if c.Some? && c.value in clientQueues {
          assert clientQueues[c.value] + [] == clientQueues[c.value];
        }
      }
    }

    method PushServer(conn: Option<ConnId>, req: ServerReq)
      modifies this`serverQueues
      ensures serverQueues == Pushed(old(serverQueues), conn, if conn.Some? then [req] else [])
    {
      if conn.Some? && conn.value in serverQueues {
        serverQueues := serverQueues[conn.value := serverQueues[conn.value] + [req]];
      }
    }

    method PushClient(conn: Option<ConnId>, req: ClientReq)
      modifies this`clientQueues
      ensures clientQueues == Pushed(old(clientQueues), conn, if conn.Some? then [req] else [])
    {
      if conn.Some? && conn.value in clientQueues {
        clientQueues := clientQueues[conn.value := clientQueues[conn.value] + [req]];
      }
    }

    /** Marks a live file as ended in memory, then in the tables, and drops its in-flight rows. */
    method TerminateIncoming(t: TransferId, f: FileId, kind: FileTerminal) returns (result: Result<bool>)
      requires t in incoming
      modifies this`incoming, db
      ensures var after := I.Terminate(old(InSlot(t)), f, kind);
              InSlot(t) == after.slot && result == after.result
      ensures t in incoming && InConn(t) == old(InConn(t))
      ensures result == Ok(true) ==> incoming[t].files == old(incoming)[t].files[f := I.InTerminal(kind)]
      ensures result != Ok(true) ==> incoming == old(incoming) && db.rows == old(db.rows)
      ensures InOthersKept(t, old(incoming), old(db.rows))
    {
      var state := incoming[t];
      if f !in state.files {
        return Err(BadFileId);
      }
      if state.files[f].InTerminal? {
        return Err(FileStateMismatch(state.files[f].kind));
      }
      incoming := incoming[t := state.(files := state.files[f := I.InTerminal(kind)])];
      db.UpdateFileSyncState(t, f, Terminal);
      db.StopIncomingFile(t, f);
      return Ok(true);
    }

    method IncomingRejectionPost(t: TransferId, f: FileId) returns (result: Result<bool>)
      modifies this`incoming, this`serverQueues, db
      ensures var after := I.RejectionPost(old(InSlot(t)), f);
              && InSlot(t) == after.slot && result == after.result
              && serverQueues == Pushed(old(serverQueues), old(InConn(t)), after.pushed)
      ensures InOthersKept(t, old(incoming), old(db.rows))
    {
      PushNothing();
      if t !in incoming || incoming[t].state == Canceled {
        return Err(BadTransfer);
      }
      result := TerminateIncoming(t, f, Rejected);
      if result.Ok? {
        PushServer(incoming[t].conn, ServerReq.Reject(f));
      }
    }

    method IncomingFinishPost(t: TransferId, f: FileId, success: bool) returns (result: Result<bool>)
      modifies this`incoming, db
      ensures var after := I.FinishPost(old(InSlot(t)), f, success);
              InSlot(t) == after.slot && result == after.result
      ensures InOthersKept(t, old(incoming), old(db.rows))
    {
      if t !in incoming || incoming[t].state == Canceled {
        return Err(BadTransfer);
      }
      result := TerminateIncoming(t, f, if success then Completed else Failed);
    }

    method IncomingTerminalRecv(t: TransferId, f: FileId, kind: FileTerminal) returns (result: Result<bool>)
      modifies this`incoming, db
      ensures var after := I.TerminalRecv(old(InSlot(t)), f, kind);
              InSlot(t) == after.slot && result == after.result
      ensures InOthersKept(t, old(incoming), old(db.rows))
    {
      if t !in incoming {
        return Err(BadTransfer);
      }
      result := TerminateIncoming(t, f, kind);
      if result.Err? && result.error.FileStateMismatch? {
        result := Ok(false);
      }
    }

    /** The state is stored and set, the peer told, and every running download idled in memory. */
    method IncomingIssueClose(t: TransferId) returns (result: Result<bool>)
      modifies this`incoming, this`serverQueues, db
      ensures var after := I.IssueClose(old(InSlot(t)));
              && InSlot(t) == after.slot && result == after.result
              && serverQueues == Pushed(old(serverQueues), old(InConn(t)), after.pushed)
      ensures InOthersKept(t, old(incoming), old(db.rows))
    {
      PushNothing();
      if t !in incoming || incoming[t].state == Canceled {
        return Err(BadTransfer);
      }
      var state := incoming[t];
      db.UpdateTransferSyncState(t, Canceled);
      PushServer(state.conn, Close);
      var files := state.files;
      var todo := files.Keys;
      while todo != {}
        invariant todo <= state.files.Keys && files.Keys == state.files.Keys
        invariant forall f :: f in files ==>
                    files[f] == if f !in todo && state.files[f].InFlight? then I.Idle else state.files[f]
        decreases todo
      {
        var f :| f in todo;
        if files[f].InFlight? {
          files := files[f := I.Idle];
        }
        todo := todo - {f};
      }
      assert files == map f | f in state.files :: if state.files[f].InFlight? then I.Idle else state.files[f];
      incoming := incoming[t := state.(state := Canceled, conn := None, files := files)];
      return Ok(true);
    }

    method IncomingRemove(t: TransferId) returns (result: Result<bool>)
      modifies this`incoming, db
      ensures var after := I.Remove(old(InSlot(t)));
              InSlot(t) == after.slot && result == after.result
      ensures InOthersKept(t, old(incoming), old(db.rows))
    {
      if t !in incoming {
        return Err(BadTransfer);
      }
      incoming := incoming - {t};
      var _ := db.TransferSyncClear(t);
      return Ok(true);
    }

    /** Takes whatever connection the entry holds, also one that a later session has put there. */
    method IncomingDisconnect(t: TransferId) returns (result: Result<bool>)
      modifies this`incoming
      ensures var after := I.Disconnect(old(InSlot(t)));
              InSlot(t) == after.slot && result == after.result
      ensures InOthersKept(t, old(incoming), old(db.rows))
    {
      if t !in incoming {
        return Err(BadTransfer);
      }
      incoming := incoming[t := incoming[t].(conn := None)];
      return Ok(true);
    }

    // ----- Sending side

    method InsertOutgoing(t: TransferId, peer: Peer, sizes: map<FileId, nat>) returns (result: Result<bool>)
      modifies this`outgoing, db
      ensures var after := O.InsertOutgoing(old(OutSlot(t)), peer, sizes);
              OutSlot(t) == after.slot && result == after.result
      ensures OutOthersKept(t, old(outgoing), old(db.rows))
    {
      if t in outgoing {
        return Err(BadTransferState);
      }
      var _ := db.InsertTransfer(t, peer, true, sizes);
      var files := map f | f in sizes :: O.OutAlive;
      outgoing := outgoing[t := O.OutMem(peer, sizes, None, New, files)];
      return Ok(true);
    }

    method OutgoingConnected(t: TransferId, conn: ConnId) returns (result: Result<bool>, ghost replay: seq<ClientReq>)
      requires conn in clientQueues
      modifies this`outgoing, this`clientQueues, db
      ensures var after := O.Connected(old(OutSlot(t)), conn);
              && OutSlot(t) == after.slot && result == after.result
              && clientQueues == Pushed(old(clientQueues), Some(conn), replay + after.pushed)
      ensures if O.Usable(old(OutSlot(t))) then IsListing(replay, O.PendingOut(old(outgoing)[t].files)) else replay == []
      ensures OutOthersKept(t, old(outgoing), old(db.rows))
    {
      replay := [];
      PushNothing();
      assert replay + [] == [];
      if t !in outgoing {
        return Err(BadTransfer), [];
      }
      var state := outgoing[t];
      if state.state == New {
        db.UpdateTransferSyncState(t, Active);
        state := state.(state := Active);
      }
      if state.state == Canceled {
        clientQueues := clientQueues[conn := clientQueues[conn] + ([] + [CloseTransfer])];
        return Ok(true), [];
      }
      var reqs := IssuePendingOut(state.files);
      replay := reqs;
      clientQueues := clientQueues[conn := clientQueues[conn] + (reqs + [])];
      outgoing := outgoing[t := state.(conn := Some(conn))];
      return Ok(true), replay;
    }

    method TerminateOutgoing(t: TransferId, f: FileId, kind: FileTerminal) returns (result: Result<bool>)
      requires t in outgoing
      modifies this`outgoing, db
      ensures var after := O.Terminate(old(OutSlot(t)), f, kind);
              OutSlot(t) == after.slot && result == after.result
      ensures t in outgoing && OutConn(t) == old(OutConn(t))
      ensures result == Ok(true) ==> outgoing[t].files == old(outgoing)[t].files[f := O.OutTerminal(kind)]
      ensures result != Ok(true) ==> outgoing == old(outgoing) && db.rows == old(db.rows)
      ensures OutOthersKept(t, old(outgoing), old(db.rows))
    {
      var state := outgoing[t];
      if f !in state.files {
        return Err(BadFileId);
      }
      if state.files[f].OutTerminal? {
        return Err(FileStateMismatch(state.files[f].kind));
      }
      outgoing := outgoing[t := state.(files := state.files[f := O.OutTerminal(kind)])];
      db.UpdateFileSyncState(t, f, Terminal);
      return Ok(true);
    }

    method OutgoingRejectionPost(t: TransferId, f: FileId) returns (result: Result<bool>)
      modifies this`outgoing, this`clientQueues, db
      ensures var after := O.RejectionPost(old(OutSlot(t)), f);
              && OutSlot(t) == after.slot && result == after.result
              && clientQueues == Pushed(old(clientQueues), old(OutConn(t)), after.pushed)
      ensures OutOthersKept(t, old(outgoing), old(db.rows))
    {
      PushNothing();
      if t !in outgoing || outgoing[t].state == Canceled {
        return Err(BadTransfer);
      }
      result := TerminateOutgoing(t, f, Rejected);
      if result.Ok? {
        PushClient(outgoing[t].conn, RejectFile(f));
      }
    }

    method OutgoingFailurePost(t: TransferId, f: FileId) returns (result: Result<bool>)
      modifies this`outgoing, db
      ensures var after := O.FailurePost(old(OutSlot(t)), f);
              OutSlot(t) == after.slot && result == after.result
      ensures OutOthersKept(t, old(outgoing), old(db.rows))
    {
      if t !in outgoing || outgoing[t].state == Canceled {
        return Err(BadTransfer);
      }
      result := TerminateOutgoing(t, f, Failed);
    }

    method OutgoingTerminalRecv(t: TransferId, f: FileId, kind: FileTerminal) returns (result: Result<bool>)
      modifies this`outgoing, db
      ensures var after := O.TerminalRecv(old(OutSlot(t)), f, kind);
              OutSlot(t) == after.slot && result == after.result
      ensures OutOthersKept(t, old(outgoing), old(db.rows))
    {
      if t !in outgoing {
        return Err(BadTransfer);
      }
      result := TerminateOutgoing(t, f, kind);
      if result.Err? && result.error.FileStateMismatch? {
        result := Ok(false);
      }
    }

    /** A transfer still new is forgotten, an active one becomes cancelled and the peer is told. */
    method OutgoingIssueClose(t: TransferId) returns (result: Result<bool>)
      modifies this`outgoing, this`clientQueues, db
      ensures var after := O.IssueClose(old(OutSlot(t)));
              && OutSlot(t) == after.slot && result == after.result
              && clientQueues == Pushed(old(clientQueues), old(OutConn(t)), after.pushed)
      ensures OutOthersKept(t, old(outgoing), old(db.rows))
    {
      PushNothing();
      if t !in outgoing {
        return Err(BadTransfer);
      }
      var state := outgoing[t];
      match state.state {
        case New =>
          var _ := db.TransferSyncClear(t);
          outgoing := outgoing - {t};
          return Ok(true);
        case Active =>
          db.UpdateTransferSyncState(t, Canceled);
          outgoing := outgoing[t := state.(state := Canceled, conn := None)];
          PushClient(state.conn, CloseTransfer);
          return Ok(true);
        case Canceled =>
          return Err(BadTransfer);
      }
    }

    method OutgoingRemove(t: TransferId) returns (result: Result<bool>)
      modifies this`outgoing, db
      ensures var after := O.Remove(old(OutSlot(t)));
              OutSlot(t) == after.slot && result == after.result
      ensures OutOthersKept(t, old(outgoing), old(db.rows))
    {
      if t !in outgoing {
        return Err(BadTransfer);
      }
      outgoing := outgoing - {t};
      var _ := db.TransferSyncClear(t);
      return Ok(true);
    }

    method OutgoingDisconnect(t: TransferId) returns (result: Result<bool>)
      modifies this`outgoing
      ensures var after := O.Disconnect(old(OutSlot(t)));
              OutSlot(t) == after.slot && result == after.result
      ensures OutOthersKept(t, old(outgoing), old(db.rows))
    {
      if t !in outgoing {
        return Err(BadTransfer);
      }
      outgoing := outgoing[t := outgoing[t].(conn := None)];
      return Ok(true);
    }

    // ----- Restart

    /** `restore_incoming` for one transfer: file states first, then the in-flight rows on top. A transfer whose rows
        make no valid transfer is skipped. */
    method RestoreIncoming(t: TransferId, valid: bool) returns (entry: Option<I.InMem>)
      ensures entry == if valid then I.Restore(db.RowOf(t)) else None
    {
      if !valid || t !in db.rows || db.rows[t].isOutgoing || db.rows[t].sync.None? {
        return None;
      }
      var row := db.rows[t];
      var files: map<FileId, I.InFile> := map[];
      var todo := row.paths.Keys;
      while todo != {}
        invariant todo <= row.paths.Keys && files.Keys == row.paths.Keys - todo
        invariant forall f :: f in files ==> HasSyncFile(Some(row), f)
        invariant forall f :: f in files ==> files[f] == I.RestoredFile(StateOfFile(Some(row), f).value)
        decreases todo
      {
        var f :| f in todo;
        var state := db.ReadFileSyncState(t, f);
        if state.None? {
          return None;
        }
        files := files[f := I.RestoredFile(state.value)];
        todo := todo - {f};
      }
      assert files == map f | f in row.paths :: I.RestoredFile(StateOfFile(Some(row), f).value);
      var found := db.IncomingFilesInFlight(t);
      ghost var base := files;
      for i := 0 to |found|
        invariant files == I.Overlay(base, found[..i])
      {
        assert found[..i + 1][..i] == found[..i];
        var download := found[i];
        if download.file in files && !files[download.file].InTerminal? {
          files := files[download.file := I.InFlight(download.baseDir)];
        }
      }
      assert found[..|found|] == found;
      return Some(I.InMem(row.peer, row.paths, None, row.sync.value.localState, files));
    }

    /** `restore_outgoing` for one transfer; one whose files cannot be opened again is skipped, too. */
    method RestoreOutgoing(t: TransferId, valid: bool) returns (entry: Option<O.OutMem>)
      ensures entry == if valid then O.Restore(db.RowOf(t)) else None
    {
      if !valid || t !in db.rows || !db.rows[t].isOutgoing || db.rows[t].sync.None? {
        return None;
      }
      var row := db.rows[t];
      var files: map<FileId, O.OutFile> := map[];
      var todo := row.paths.Keys;
      while todo != {}
        invariant todo <= row.paths.Keys && files.Keys == row.paths.Keys - todo
        invariant forall f :: f in files ==> HasSyncFile(Some(row), f)
        invariant forall f :: f in files ==> files[f] == O.RestoredFile(StateOfFile(Some(row), f).value)
        decreases todo
      {
        var f :| f in todo;
        var state := db.ReadFileSyncState(t, f);
        if state.None? {
          return None;
        }
        files := files[f := O.RestoredFile(state.value)];
        todo := todo - {f};
      }
      assert files == map f | f in row.paths :: O.RestoredFile(StateOfFile(Some(row), f).value);
      return Some(O.OutMem(row.peer, row.paths, None, row.sync.value.localState, files));
    }

    /** `restore_transfers_state`: both maps are rebuilt from the tables alone. `broken` transfers cannot be restored;
        they keep their rows, stay out of the maps and do not keep others from being restored. */
    method RestoreTransfersState(broken: set<TransferId>)
      modifies this`incoming, this`outgoing
      ensures forall t :: InSlot(t) == I.InSlot(if t in broken then None else I.Restore(db.RowOf(t)), db.RowOf(t))
      ensures forall t :: OutSlot(t) == O.OutSlot(if t in broken then None else O.Restore(db.RowOf(t)), db.RowOf(t))
    {
      var ins: map<TransferId, I.InMem> := map[];
      var outs: map<TransferId, O.OutMem> := map[];
      var todo := db.rows.Keys;
      while todo != {}
        invariant todo <= db.rows.Keys
        invariant forall t :: t in ins <==> t in db.rows && t !in todo && t !in broken && I.Restore(db.RowOf(t)).Some?
        invariant forall t :: t in ins ==> ins[t] == I.Restore(db.RowOf(t)).value
        invariant forall t :: t in outs <==> t in db.rows && t !in todo && t !in broken && O.Restore(db.RowOf(t)).Some?
        invariant forall t :: t in outs ==> outs[t] == O.Restore(db.RowOf(t)).value
        decreases todo
      {
        var t :| t in todo;
        todo := todo - {t};
        var entry := RestoreIncoming(t, t !in broken);
        if entry.Some? {
          ins := ins[t := entry.value];
        }
        var sending := RestoreOutgoing(t, t !in broken);
        if sending.Some? {
          outs := outs[t := sending.value];
        }
      }
      incoming, outgoing := ins, outs;
    }
  }
}
