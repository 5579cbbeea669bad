/** The whole life of one incoming transfer id on its device: manager operations, download jobs, the events they
    lead to, purging, and restarts, which collect garbage and rebuild memory from the tables.

    Over every such life memory agrees with the tables, and until the transfer's row is collected it is
    reported as cancelled at most once, with nothing reported about it afterwards, and once removed it is
    never registered again. */
module DownloadLife {
  import opened Base
  import opened Storage
  import opened Agreement
  import opened Reports
  import I = Incoming
  import E = Events

  datatype Life = Life(
    slot: I.InSlot,
    txs: map<FileId, E.FileTx>,       // file event handles of this process
    xtx: Option<E.TransferTx>,        // transfer event handle of this process
    requests: multiset<FileId>,       // downloads a connection loop was asked to start
    jobs: multiset<FileId>,           // downloads running, also those whose connection is gone
    closers: seq<E.TransferEvent>,    // closing events still to be emitted
    deciding: multiset<Report>,       // file ends still to be emitted
    log: seq<Report>,                 // everything reported since the row was created
    collections: nat                  // how often the row was garbage collected
  )

  function Unborn(collections: nat): Life {
    Life(I.InSlot(None, None), map[], None, multiset{}, multiset{}, [], multiset{}, [], collections)
  }

  datatype Step =
    | Register(peer: Peer, sizes: map<FileId, nat>, conn: ConnId, oldConnClosed: bool)
    | Announce(event: E.TransferEvent)
    | BeginDownload(file: FileId, dir: Dir)
    | StartJob(file: FileId)
    | AbortJob(file: FileId)
    | DropRequest(file: FileId)
    | FinishDownload(file: FileId, success: bool)
    | Receive(file: FileId, kind: FileTerminal)
    | RejectLocally(file: FileId)
    | EmitEnd(report: Report)
    | Touch(file: FileId, op: E.FileOp)
    | Cancel
    | RemoveWith(byPeer: bool)
    | Disconnect
    | EmitClosing
    | RecordEnd(file: FileId, kind: FileTerminal)
    | RecordClosing
    | Purge
    | Restart

  // ----- Steps

  /** The downloads replayed on a new connection. */
  function Replayed(mem: Option<I.InMem>): multiset<FileId> {
    if mem.None? then multiset{}
    else multiset(set f | f in mem.value.files && mem.value.files[f].InFlight?)
  }

  function Registering(l: Life, peer: Peer, sizes: map<FileId, nat>, conn: ConnId, closed: bool): Life {
    var after := I.Register(l.slot, peer, sizes, conn, closed);
    l.(slot := after.slot,
       txs := if after.result == Ok(true) then map f | f in sizes :: E.Idle else l.txs,
       xtx := if after.result == Ok(true) then Some(E.Ongoing) else l.xtx,
       requests := if after.result == Ok(false) then l.requests + Replayed(l.slot.mem) else l.requests)
  }

  function Beginning(l: Life, f: FileId, dir: Dir): Life {
    var after := I.StartDownload(l.slot, f, dir);
    l.(slot := after.slot, requests := if after.pushed != [] then l.requests + multiset{f} else l.requests)
  }

  function Announcing(l: Life, event: E.TransferEvent): Life {
    if l.xtx == Some(E.Ongoing) && !E.IsClosing(event) then l.(log := l.log + [Transfer(event)]) else l
  }

  /** An end that was won is reported by the call that won. */
  function Winning(l: Life, after: I.InAfter, f: FileId, kind: FileTerminal): Life {
    l.(slot := after.slot,
       deciding := if after.result == Ok(true) then l.deciding + multiset{FileEnded(f, kind)} else l.deciding)
  }

  /** A finished job reports its end whatever the manager answered. */
  function Finishing(l: Life, f: FileId, kind: FileTerminal): Life
    requires kind != Rejected
  {
    if f !in l.jobs then l
    else
      l.(slot := I.FinishPost(l.slot, f, kind == Completed).slot, jobs := l.jobs - multiset{f},
         deciding := l.deciding + multiset{FileEnded(f, kind)})
  }

  /** The call that reports an end, on the file's event handle. */
  function EmittingEnd(l: Life, r: Report): Life {
    if r !in l.deciding || !r.FileEnded? || r.file !in l.txs then l
    else
      l.(deciding := l.deciding - multiset{r}, txs := l.txs[r.file := E.Ended],
         log := if l.txs[r.file] == E.Ended then l.log else l.log + [r])
  }

  /** A call that reports no end. */
  predicate Harmless(op: E.FileOp) {
    !op.End? && (op.EmitFlying? ==> !op.event.EndedAs?)
  }

  function Touching(l: Life, f: FileId, op: E.FileOp): Life {
    if f !in l.txs || !Harmless(op) then l
    else
      l.(txs := l.txs[f := E.StateAfter(l.txs[f], op)],
         log := if E.Emitted(l.txs[f], op) == [] then l.log else l.log + [FileNews(f)])
  }

  function Closing(l: Life, after: I.InAfter, events: seq<E.TransferEvent>): Life {
    l.(slot := after.slot, closers := if after.result.Ok? then l.closers + events else l.closers)
  }

  /** The peer closed the connection or is gone (one event), or the local close was delivered (none). */
  function Removing(l: Life, byPeer: bool): Life {
    Closing(l, I.Remove(l.slot), if byPeer then [E.CanceledBy(true)] else [])
  }

  function EmittingClosing(l: Life): Life {
    if l.closers == [] || l.xtx.None? then l
    else
      l.(closers := l.closers[1..], xtx := Some(E.Terminated),
         log := if l.xtx == Some(E.Ongoing) then l.log + [Transfer(l.closers[0])] else l.log)
  }

  function Recording(l: Life, f: FileId, kind: FileTerminal): Life {
    if FileEnded(f, kind) in l.log then l.(slot := l.slot.(row := WithRecorded(l.slot.row, f, kind))) else l
  }

  function RecordingClosing(l: Life): Life {
    if Closings(l.log) > 0 then l.(slot := l.slot.(row := WithEnded(l.slot.row))) else l
  }

  function Purging(l: Life): Life {
    l.(slot := l.slot.(row := Purged(l.slot.row)))
  }

  /** Garbage is collected, then the transfer is restored with a fresh event handle. */
  function Restarting(l: Life): Life {
    var row := Collected(l.slot.row);
    if row.None? then Unborn(l.collections + if l.slot.row.Some? then 1 else 0)
    else
      var mem := I.Restore(row);
      Life(I.InSlot(mem, row),
           if mem.None? then map[] else map f | f in mem.value.files :: E.Idle,
           if mem.None? then None else Some(if mem.value.state == Canceled then E.Terminated else E.Ongoing),
           multiset{}, multiset{}, [], multiset{}, l.log, l.collections)
  }

  function Next(l: Life, step: Step): Life {
    match step
    case Register(peer, sizes, conn, closed) => Registering(l, peer, sizes, conn, closed)
    case Announce(event) => Announcing(l, event)
    case BeginDownload(f, dir) => Beginning(l, f, dir)
    case StartJob(f) =>
      if f in l.requests then l.(requests := l.requests - multiset{f}, jobs := l.jobs + multiset{f}) else l
    case AbortJob(f) => l.(jobs := l.jobs - multiset{f})
    case DropRequest(f) => l.(requests := l.requests - multiset{f})
    case FinishDownload(f, success) => Finishing(l, f, if success then Completed else Failed)
    case Receive(f, kind) => Winning(l, I.TerminalRecv(l.slot, f, kind), f, kind)
    case RejectLocally(f) => Winning(l, I.RejectionPost(l.slot, f), f, Rejected)
    case EmitEnd(r) => EmittingEnd(l, r)
    case Touch(f, op) => Touching(l, f, op)
    case Cancel => Closing(l, I.IssueClose(l.slot), [E.CanceledBy(false)])
    case RemoveWith(byPeer) => Removing(l, byPeer)
    case Disconnect => l.(slot := I.Disconnect(l.slot).slot)
    case EmitClosing => EmittingClosing(l)
    case RecordEnd(f, kind) => Recording(l, f, kind)
    case RecordClosing => RecordingClosing(l)
    case Purge => Purging(l)
    case Restart => Restarting(l)
  }

  function Live(l: Life, steps: seq<Step>): Life
    decreases |steps|
  {
    if steps == [] then l else Live(Next(l, steps[0]), steps[1..])
  }

  // ----- The invariant

  /** Cancelled or removed. */
  predicate Over(l: Life) {
    l.slot.row.Some? && (l.slot.mem.None? || l.slot.mem.value.state == Canceled)
  }

  ghost predicate TransferInv(l: Life) {
    && ClosingIsLast(l.log) && Closings(l.log) <= 1
    && (l.closers != [] || Closings(l.log) == 1 || l.xtx == Some(E.Terminated) ==> Over(l))
    && (l.xtx == Some(E.Ongoing) ==> Closings(l.log) == 0)
    && (l.slot.mem.Some? ==> l.xtx.Some?)
    && (forall i :: 0 <= i < |l.closers| ==> E.IsClosing(l.closers[i]))
    && (l.xtx.None? ==> l.closers == [])
  }

  ghost predicate RowInv(l: Life) {
    && (l.slot.row.None? ==> l == Unborn(l.collections))
    && (l.slot.row.Some? ==> !l.slot.row.value.isOutgoing)
    && (l.slot.row.Some? && l.slot.row.value.isDeleted ==> l.slot.row.value.recorded.ended)
    && (l.slot.row.Some? && l.slot.row.value.recorded.ended ==> Closings(l.log) == 1)
  }

  predicate Told(l: Life, f: FileId, kind: FileTerminal) {
    FileEnded(f, kind) in l.deciding || FileEnded(f, kind) in l.log
  }

  /** A file is reported as ended only after it ended in a transfer that is still in use. */
  ghost predicate EndInv(l: Life) {
    && (forall r :: r in l.deciding ==> r.FileEnded?)
    && forall f, kind :: Told(l, f, kind) && I.Usable(l.slot) && f in l.slot.mem.value.files ==>
         l.slot.mem.value.files[f].InTerminal?
  }

  ghost predicate Inv(l: Life) {
    InAgree(l.slot) && TransferInv(l) && RowInv(l) && EndInv(l)
  }

  // ----- Preservation

  lemma RegisterInv(l: Life, peer: Peer, sizes: map<FileId, nat>, conn: ConnId, closed: bool)
    requires Inv(l)
    ensures Inv(Registering(l, peer, sizes, conn, closed))
  {
    RegisterAgrees(l.slot, peer, sizes, conn, closed);
    var l' := Registering(l, peer, sizes, conn, closed);
    forall f, kind | Told(l', f, kind) && I.Usable(l'.slot) && f in l'.slot.mem.value.files
      ensures l'.slot.mem.value.files[f].InTerminal?
    {
      assert Told(l, f, kind);
    }
  }

  lemma AnnounceInv(l: Life, event: E.TransferEvent)
    requires Inv(l)
    ensures Inv(Announcing(l, event))
  {
    Appended(l.log, Transfer(event), "");
    ToldAppended(l, Announcing(l, event), Transfer(event));
  }

  lemma ToldAppended(l: Life, l': Life, r: Report)
    requires EndInv(l) && l'.slot == l.slot && l'.deciding <= l.deciding
    requires l'.log == l.log || l'.log == l.log + [r]
    requires r.FileEnded? ==> r in l.deciding
    ensures EndInv(l')
  {
    forall q | q in l'.deciding
      ensures q.FileEnded?
    {
      assert q in l.deciding;
    }
    forall f, kind | Told(l', f, kind) && I.Usable(l'.slot) && f in l'.slot.mem.value.files
      ensures l'.slot.mem.value.files[f].InTerminal?
    {
      assert Told(l, f, kind);
    }
  }

  lemma BeginInv(l: Life, f: FileId, dir: Dir)
    requires Inv(l)
    ensures Inv(Beginning(l, f, dir))
  {
    StartDownloadAgrees(l.slot, f, dir);
    var l' := Beginning(l, f, dir);
    forall g, kind | Told(l', g, kind) && I.Usable(l'.slot) && g in l'.slot.mem.value.files
      ensures l'.slot.mem.value.files[g].InTerminal?
    {
      assert Told(l, g, kind);
    }
  }

  /** Only requests and jobs changed, of a transfer that has a row. */
  lemma JobsInv(l: Life, l': Life)
    requires Inv(l) && l' == l.(requests := l'.requests, jobs := l'.jobs)
    requires l.slot.row.None? ==> l' == l
    ensures Inv(l')
  {
    forall f, kind | Told(l', f, kind) && I.Usable(l'.slot) && f in l'.slot.mem.value.files
      ensures l'.slot.mem.value.files[f].InTerminal?
    {
      assert Told(l, f, kind);
    }
  }

  /** The ways to end a file leave the slot alone or end that file; who reports it has seen it ended. */
  lemma DecideInv(l: Life, l': Life, after: I.InAfter, f: FileId, kind: FileTerminal)
    requires Inv(l) && l' == l.(slot := after.slot, jobs := l'.jobs, deciding := l'.deciding)
    requires l.slot.row.None? ==> l' == l
    requires after.result != Ok(true) ==> after.slot == l.slot
    requires after.result == Ok(true) ==> l.slot.mem.Some? && after.slot == I.Terminate(l.slot, f, kind).slot
    requires after.result == Ok(true) ==> I.Terminate(l.slot, f, kind).result == Ok(true)
    requires l'.deciding == l.deciding || l'.deciding == l.deciding + multiset{FileEnded(f, kind)}
    requires after.result != Ok(true) && l'.deciding != l.deciding && I.Usable(l.slot) && f in l.slot.mem.value.files ==>
               l.slot.mem.value.files[f].InTerminal?
    ensures Inv(l')
  {
    if after.result == Ok(true) {
      TerminateAgrees(l.slot, f, kind);
    }
    forall g, k | Told(l', g, k) && I.Usable(l'.slot) && g in l'.slot.mem.value.files
      ensures l'.slot.mem.value.files[g].InTerminal?
    {
      assert Told(l, g, k) || (g == f && k == kind && l'.deciding != l.deciding);
    }
  }

  lemma FinishInv(l: Life, f: FileId, kind: FileTerminal)
    requires Inv(l) && kind != Rejected
    ensures Inv(Finishing(l, f, kind))
  {
    if f in l.jobs {
      DecideInv(l, Finishing(l, f, kind), I.FinishPost(l.slot, f, kind == Completed), f, kind);
    }
  }

  lemma ReceiveInv(l: Life, f: FileId, kind: FileTerminal)
    requires Inv(l)
    ensures Inv(Winning(l, I.TerminalRecv(l.slot, f, kind), f, kind))
  {
    DecideInv(l, Winning(l, I.TerminalRecv(l.slot, f, kind), f, kind), I.TerminalRecv(l.slot, f, kind), f, kind);
  }

  lemma RejectInv(l: Life, f: FileId)
    requires Inv(l)
    ensures Inv(Winning(l, I.RejectionPost(l.slot, f), f, Rejected))
  {
    DecideInv(l, Winning(l, I.RejectionPost(l.slot, f), f, Rejected), I.RejectionPost(l.slot, f), f, Rejected);
  }

  lemma EmitEndInv(l: Life, r: Report)
    requires Inv(l)
    ensures Inv(EmittingEnd(l, r))
  {
    if EmittingEnd(l, r) != l {
      Appended(l.log, r, "");
      ToldAppended(l, EmittingEnd(l, r), r);
    }
  }

  lemma TouchInv(l: Life, f: FileId, op: E.FileOp)
    requires Inv(l)
    ensures Inv(Touching(l, f, op))
  {
    Appended(l.log, FileNews(f), "");
    ToldAppended(l, Touching(l, f, op), FileNews(f));
  }

  /** Closing keeps what was told and leaves no file usable, or leaves everything as it is. */
  lemma ClosedInv(l: Life, l': Life, events: seq<E.TransferEvent>)
    requires Inv(l) && InAgree(l'.slot) && l.slot.mem.Some? && Over(l')
    requires l'.log == l.log && l'.deciding == l.deciding && l'.xtx == l.xtx && l'.collections == l.collections
    requires l'.closers == l.closers + events
    requires forall i :: 0 <= i < |events| ==> E.IsClosing(events[i])
    requires l'.slot.row.value.recorded == l.slot.row.value.recorded
    requires l'.slot.row.value.isDeleted == l.slot.row.value.isDeleted
    requires !l'.slot.row.value.isOutgoing
    ensures Inv(l')
  {
  }

  lemma CancelInv(l: Life)
    requires Inv(l)
    ensures Inv(Next(l, Cancel))
  {
    if I.IssueClose(l.slot).result.Ok? {
      CloseAndRemoveAgree(l.slot);
      ClosedInv(l, Next(l, Cancel), [E.CanceledBy(false)]);
    }
  }

  lemma RemoveInv(l: Life, byPeer: bool)
    requires Inv(l)
    ensures Inv(Removing(l, byPeer))
  {
    if l.slot.mem.Some? {
      CloseAndRemoveAgree(l.slot);
      ClosedInv(l, Removing(l, byPeer), if byPeer then [E.CanceledBy(true)] else []);
    }
  }

  lemma DisconnectInv(l: Life)
    requires Inv(l)
    ensures Inv(Next(l, Disconnect))
  {
    CloseAndRemoveAgree(l.slot);
    var l' := Next(l, Disconnect);
    forall f, kind | Told(l', f, kind) && I.Usable(l'.slot) && f in l'.slot.mem.value.files
      ensures l'.slot.mem.value.files[f].InTerminal?
    {
      assert Told(l, f, kind);
    }
  }

  lemma EmitClosingInv(l: Life)
    requires Inv(l)
    ensures Inv(EmittingClosing(l))
  {
    if l.closers != [] && l.xtx.Some? {
      Appended(l.log, Transfer(l.closers[0]), "");
      ToldAppended(l, EmittingClosing(l), Transfer(l.closers[0]));
    }
  }

  /** Notes in the tables that no operation looks at. */
  lemma NoteInv(l: Life, l': Life)
    requires Inv(l) && RowInv(l') && InAgree(l'.slot)
    requires l'.slot.mem == l.slot.mem && l'.slot.row.Some? == l.slot.row.Some?
    requires l' == l.(slot := l'.slot)
    ensures Inv(l')
  {
    forall f, kind | Told(l', f, kind) && I.Usable(l'.slot) && f in l'.slot.mem.value.files
      ensures l'.slot.mem.value.files[f].InTerminal?
    {
      assert Told(l, f, kind);
    }
  }

  lemma NotesAgree(s: I.InSlot)
    requires InAgree(s)
    ensures InAgree(s.(row := WithEnded(s.row))) && InAgree(s.(row := Purged(s.row)))
  {
    if I.Usable(s) {
      forall f | f in s.mem.value.files
        ensures InFileAgrees(s.mem.value.files[f], f, s.row.value.sync.value, WithEnded(s.row).value.recorded)
      {
        assert InFileAgrees(s.mem.value.files[f], f, s.row.value.sync.value, s.row.value.recorded);
      }
    }
  }

  lemma RecordEndInv(l: Life, f: FileId, kind: FileTerminal)
    requires Inv(l)
    ensures Inv(Recording(l, f, kind))
  {
    if FileEnded(f, kind) in l.log {
      assert Told(l, f, kind);
      RecordAgrees(l.slot, f, kind);
      NoteInv(l, Recording(l, f, kind));
    }
  }

  lemma RecordClosingInv(l: Life)
    requires Inv(l)
    ensures Inv(RecordingClosing(l))
  {
    NotesAgree(l.slot);
    NoteInv(l, RecordingClosing(l));
  }

  lemma PurgeInv(l: Life)
    requires Inv(l)
    ensures Inv(Purging(l))
  {
    NotesAgree(l.slot);
    NoteInv(l, Purging(l));
  }

  lemma RestartInv(l: Life)
    requires Inv(l)
    ensures Inv(Restarting(l))
  {
    RestoreKeepsAgreement(l.slot);
    var l' := Restarting(l);
    if l.slot.mem.Some? {
      RestartUsable(l);
    }
  }

  lemma RestartUsable(l: Life)
    requires Inv(l) && l.slot.mem.Some?
    ensures EndInv(Restarting(l))
  {
    var l' := Restarting(l);
    RestoreKeepsAgreement(l.slot);
    forall f, kind | Told(l', f, kind) && I.Usable(l'.slot) && f in l'.slot.mem.value.files
      ensures l'.slot.mem.value.files[f].InTerminal?
    {
      assert Told(l, f, kind);
      RestoreIncoming(l.slot);
      assert RestoredAs(l.slot.mem.value.files[f], l'.slot.mem.value.files[f], f, l.slot.row.value.recorded);
    }
  }

  /** The steps by which a transfer and its files move on. */
  predicate Moves(step: Step) {
    step.Register? || step.Announce? || step.BeginDownload? || step.StartJob? || step.AbortJob?
    || step.DropRequest? || step.FinishDownload? || step.Receive? || step.RejectLocally?
  }

  lemma MoveInv(l: Life, step: Step)
    requires Inv(l) && Moves(step)
    ensures Inv(Next(l, step))
  {
    match step
    case Register(peer, sizes, conn, closed) => RegisterInv(l, peer, sizes, conn, closed);
    case Announce(event) => AnnounceInv(l, event);
    case BeginDownload(f, dir) => BeginInv(l, f, dir);
    case StartJob(_) => JobsInv(l, Next(l, step));
    case AbortJob(_) => JobsInv(l, Next(l, step));
    case DropRequest(_) => JobsInv(l, Next(l, step));
    case FinishDownload(f, success) => FinishInv(l, f, if success then Completed else Failed);
    case Receive(f, kind) => ReceiveInv(l, f, kind);
    case RejectLocally(f) => RejectInv(l, f);
    case _ =>
  }

  lemma OtherInv(l: Life, step: Step)
    requires Inv(l) && !Moves(step)
    ensures Inv(Next(l, step))
  {
    match step
    case EmitEnd(r) => EmitEndInv(l, r);
    case Touch(f, op) => TouchInv(l, f, op);
    case Cancel => CancelInv(l);
    case RemoveWith(byPeer) => RemoveInv(l, byPeer);
    case Disconnect => DisconnectInv(l);
    case EmitClosing => EmitClosingInv(l);
    case RecordEnd(f, kind) => RecordEndInv(l, f, kind);
    case RecordClosing => RecordClosingInv(l);
    case Purge => PurgeInv(l);
    case Restart => RestartInv(l);
    case _ =>
  }

  lemma StepInv(l: Life, step: Step)
    requires Inv(l)
    ensures Inv(Next(l, step))
  {
    if Moves(step) {
      MoveInv(l, step);
    } else {
      OtherInv(l, step);
    }
  }

  lemma {:induction false} LiveInv(l: Life, steps: seq<Step>)
    requires Inv(l)
    ensures Inv(Live(l, steps))
    decreases |steps|
  {
    if steps != [] {
      StepInv(l, steps[0]);
      LiveInv(Next(l, steps[0]), steps[1..]);
    }
  }

  // ----- Over every life

  /** For a transfer that is not cancelled, each state of a file in memory is exactly one state of its tables. */
  lemma MemoryMirrorsTables(steps: seq<Step>, f: FileId, dir: Dir)
    ensures var s := Live(Unborn(0), steps).slot;
            I.Usable(s) && f in s.mem.value.files ==>
              && s.row.Some? && s.row.value.sync.Some? && f in s.row.value.sync.value.files
              && var file, sync := s.mem.value.files[f], s.row.value.sync.value;
                 var rows := RowsOf(sync.inFlight, f);
                 && (file == I.InFlight(dir) <==> sync.files[f] == Alive && rows == [InFlightRow(f, dir)])
                 && (file == I.Idle <==> sync.files[f] == Alive && rows == [])
                 && (file.InTerminal? <==> sync.files[f] == Terminal && rows == [])
  {
    LiveInv(Unborn(0), steps);
    var s := Live(Unborn(0), steps).slot;
    if I.Usable(s) && f in s.mem.value.files {
      assert InFileAgrees(s.mem.value.files[f], f, s.row.value.sync.value, s.row.value.recorded);
    }
  }

  /** At any point of any life, stopping and starting again rebuilds the entry of a transfer in use: every
      download where it was, every ended file ended, with the kind that was recorded. */
  lemma RestartRebuilds(steps: seq<Step>, f: FileId)
    ensures var l := Live(Unborn(0), steps);
            var l' := Next(l, Restart);
            && (l.slot.mem.Some? <==> l'.slot.mem.Some?)
            && (l.slot.mem.Some? ==> l'.slot.mem.value.state == l.slot.mem.value.state)
            && (I.Usable(l.slot) && f in l.slot.mem.value.files ==>
                  && f in l'.slot.mem.value.files
                  && RestoredAs(l.slot.mem.value.files[f], l'.slot.mem.value.files[f], f, l.slot.row.value.recorded))
  {
    LiveInv(Unborn(0), steps);
    var l := Live(Unborn(0), steps);
    RestoreKeepsAgreement(l.slot);
    if I.Usable(l.slot) {
      RestoreIncoming(l.slot);
    }
  }

  /** Until its row is collected a transfer is reported as cancelled at most once, and no received or
      cancelled event about it follows. The row is collected only after that report. */
  lemma CanceledAtMostOnce(steps: seq<Step>, i: nat)
    ensures var l := Live(Unborn(0), steps);
            && Closings(l.log) <= 1
            && (i < |l.log| && l.log[i].Transfer? && E.IsClosing(l.log[i].event) ==>
                  forall j :: i < j < |l.log| ==> !l.log[j].Transfer?)
            && (Next(l, Restart).collections != l.collections ==> Closings(l.log) == 1 && l.slot.row.value.sync.None?)
  {
    LiveInv(Unborn(0), steps);
    var log := Live(Unborn(0), steps).log;
    if i < |log| && log[i].Transfer? && E.IsClosing(log[i].event) {
      ClosingSplits(log, i);
    }
  }

  ghost predicate Removed(l: Life) {
    l.slot.row.Some? && l.slot.mem.None?
  }

  lemma {:induction false} StaysRemoved(l: Life, steps: seq<Step>)
    requires Inv(l) && Removed(l)
    ensures l.collections <= Live(l, steps).collections
    ensures Live(l, steps).collections == l.collections ==> Removed(Live(l, steps))
    decreases |steps|
  {
    if steps != [] {
      StepInv(l, steps[0]);
      RemovedStep(l, steps[0]);
      StepCollects(l, steps[0]);
      var l' := Next(l, steps[0]);
      if Removed(l') {
        StaysRemoved(l', steps[1..]);
      } else {
        CollectionsRise(l', steps[1..]);
      }
    }
  }

  lemma RestartStaysRemoved(l: Life)
    requires InAgree(l.slot) && Removed(l)
    ensures Removed(Restarting(l)) || l.collections < Restarting(l).collections
  {
    RestoreKeepsAgreement(l.slot);
  }

  lemma RemovedStep(l: Life, step: Step)
    requires InAgree(l.slot) && Removed(l)
    ensures Removed(Next(l, step)) || l.collections < Next(l, step).collections
  {
    if step.Restart? {
      RestartStaysRemoved(l);
    } else {
      RemovedMove(l, step);
    }
  }

  lemma RemovedMove(l: Life, step: Step)
    requires Removed(l) && !step.Restart?
    ensures Removed(Next(l, step))
  {
  }

  lemma StepCollects(l: Life, step: Step)
    ensures l.collections <= Next(l, step).collections
  {
  }

  lemma {:induction false} CollectionsRise(l: Life, steps: seq<Step>)
    ensures l.collections <= Live(l, steps).collections
    decreases |steps|
  {
    if steps != [] {
      StepCollects(l, steps[0]);
      CollectionsRise(Next(l, steps[0]), steps[1..]);
    }
  }

  /** A transfer that was removed and is asked for again is answered with a close request and not
      registered, however long ago that was, as long as its row has not been collected. */
  lemma RemovedIsRefused(before: seq<Step>, after: seq<Step>, peer: Peer, sizes: map<FileId, nat>, conn: ConnId, closed: bool)
    ensures var l := Live(Unborn(0), before);
            var l' := Live(l, after);
            Removed(l) && l'.collections == l.collections ==>
              I.Register(l'.slot, peer, sizes, conn, closed) == I.InAfter(l'.slot, Ok(false), [Close])
  {
    LiveInv(Unborn(0), before);
    var l := Live(Unborn(0), before);
    if Removed(l) {
      StaysRemoved(l, after);
    }
  }
}
