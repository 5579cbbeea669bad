/** The whole life of one outgoing transfer on its device: manager operations, the events they lead to, the
    transfer request, and restarts from the tables. An operation that ends a file or the transfer returns
    the event handle, and the event is emitted later, unless the process dies in between.

    Over every such life: each file is reported as ended at most once, the transfer as closed at most once
    and nothing is reported about it afterwards, and a transfer cancelled while still new is never shown to
    the peer. */
module UploadLife {
  import opened Base
  import opened Storage
  import opened Agreement
  import opened Reports
  import O = Outgoing
  import E = Events

  datatype Life = Life(
    slot: O.OutSlot,
    txs: map<FileId, E.FileTx>,           // file event handles of this process
    xtx: Option<E.TransferTx>,            // transfer event handle of this process
    winners: map<FileId, FileTerminal>,   // ended files whose event is still to be emitted
    closers: seq<E.TransferEvent>,        // closing events still to be emitted
    log: seq<Report>,                     // everything reported, over all restarts
    dialing: bool,                        // connected, transfer request not sent yet
    sent: bool,                           // the transfer request has reached the wire
    silent: bool,                         // cancelled while new
    inserted: bool
  )

  const UNBORN := Life(O.OutSlot(None, None), map[], None, map[], [], [], false, false, false, false)

  datatype Step =
    | Insert(peer: Peer, sizes: map<FileId, nat>)
    | Announce(event: E.TransferEvent)
    | Connect(conn: ConnId)
    | SendRequest
    | DialFails
    | Reject(file: FileId)
    | Fail(file: FileId)
    | Receive(file: FileId, kind: FileTerminal)
    | EmitEnd(file: FileId)
    | Touch(file: FileId, op: E.FileOp)
    | Cancel
    | CloseFrame
    | GiveUp
    | DropClosed
    | EmitClosing
    | RecordEnd(file: FileId, kind: FileTerminal)
    | RecordClosing
    | Purge
    | Restart

  // ----- Steps

  /** A fresh id is inserted once. */
  function Inserting(l: Life, peer: Peer, sizes: map<FileId, nat>): Life {
    if l.inserted then l
    else
      l.(slot := O.InsertOutgoing(l.slot, peer, sizes).slot, txs := map f | f in sizes :: E.Idle,
         xtx := Some(E.Ongoing), inserted := true)
  }

  function Announcing(l: Life, event: E.TransferEvent): Life {
    if l.xtx == Some(E.Ongoing) && !E.IsClosing(event) then l.(log := l.log + [Transfer(event)]) else l
  }

  function Connecting(l: Life, conn: ConnId): Life {
    var after := O.Connected(l.slot, conn);
    l.(slot := after.slot, dialing := l.dialing || after.result.Ok?)
  }

  function Winning(l: Life, after: O.OutAfter, f: FileId, kind: FileTerminal): Life {
    l.(slot := after.slot, winners := if after.result == Ok(true) then l.winners[f := kind] else l.winners)
  }

  /** A winner's call on the file's event handle. */
  function EmittingEnd(l: Life, f: FileId): Life {
    if f !in l.winners || f !in l.txs then l
    else
      l.(winners := l.winners - {f}, txs := l.txs[f := E.Ended],
         log := if l.txs[f] == E.Ended then l.log else l.log + [FileEnded(f, l.winners[f])])
  }

  /** Any other call on a file's event handle. */
  function Touching(l: Life, f: FileId, op: E.FileOp): Life {
    if f !in l.txs || op.End? then l
    else
      l.(txs := l.txs[f := E.StateAfter(l.txs[f], op)],
         log := if E.Emitted(l.txs[f], op) == [] then l.log else l.log + [FileNews(f)])
  }

  function Closing(l: Life, after: O.OutAfter, events: seq<E.TransferEvent>): Life {
    l.(slot := after.slot, closers := if after.result.Ok? then l.closers + events else l.closers)
  }

  function Canceling(l: Life): Life {
    var wasNew := l.slot.mem.Some? && l.slot.mem.value.state == New;
    Closing(l, O.IssueClose(l.slot), [E.CanceledBy(false)]).(silent := l.silent || wasNew)
  }

  function EmittingClosing(l: Life): Life {
    if l.closers == [] || l.xtx.None? then l
    else
      l.(closers := l.closers[1..], xtx := Some(E.Terminated),
         log := if l.xtx == Some(E.Ongoing) then l.log + [Transfer(l.closers[0])] else l.log)
  }

  function Recording(l: Life, f: FileId, kind: FileTerminal): Life {
    if FileEnded(f, kind) in l.log then l.(slot := l.slot.(row := WithRecorded(l.slot.row, f, kind))) else l
  }

  function RecordingClosing(l: Life): Life {
    if Closings(l.log) > 0 then l.(slot := l.slot.(row := WithEnded(l.slot.row))) else l
  }

  function Purging(l: Life): Life {
    l.(slot := l.slot.(row := Purged(l.slot.row)))
  }

  /** Garbage is collected, then the transfer is restored with fresh event handles. */
  function Restarting(l: Life): Life {
    var row := Collected(l.slot.row);
    var mem := O.Restore(row);
    l.(slot := O.OutSlot(mem, row),
       txs := if mem.Some? then map f | f in mem.value.files :: E.Idle else map[],
       xtx := if mem.None? then None else Some(if mem.value.state == Canceled then E.Terminated else E.Ongoing),
       winners := map[], closers := [], dialing := false)
  }

  function Next(l: Life, step: Step): Life {
    match step
    case Insert(peer, sizes) => Inserting(l, peer, sizes)
    case Announce(event) => Announcing(l, event)
    case Connect(conn) => Connecting(l, conn)
    case SendRequest => if l.dialing then l.(sent := true, dialing := false) else l
    case DialFails => l.(dialing := false)
    case Reject(f) => Winning(l, O.RejectionPost(l.slot, f), f, Rejected)
    case Fail(f) => Winning(l, O.FailurePost(l.slot, f), f, Failed)
    case Receive(f, kind) => Winning(l, O.TerminalRecv(l.slot, f, kind), f, kind)
    case EmitEnd(f) => EmittingEnd(l, f)
    case Touch(f, op) => Touching(l, f, op)
    case Cancel => Canceling(l)
    case CloseFrame => Closing(l, O.Remove(l.slot), [E.CanceledBy(true)])
    case GiveUp => Closing(l, O.Remove(l.slot), [E.FailedTransfer])
    case DropClosed => Closing(l, O.Remove(l.slot), [])
    case EmitClosing => EmittingClosing(l)
    case RecordEnd(f, kind) => Recording(l, f, kind)
    case RecordClosing => RecordingClosing(l)
    case Purge => Purging(l)
    case Restart => Restarting(l)
  }

  function Live(l: Life, steps: seq<Step>): Life
    decreases |steps|
  {
    if steps == [] then l else Live(Next(l, steps[0]), steps[1..])
  }

  // ----- The invariant

  ghost predicate FileInv(l: Life, f: FileId) {
    && Ends(l.log, f) <= 1
    && (f in l.winners ==> Ends(l.log, f) == 0 && f in l.txs && l.txs[f] != E.Ended)
    && (f in l.txs && l.txs[f] == E.Ended ==> Ends(l.log, f) == 1)
    && (f in l.winners || Ends(l.log, f) == 1 ==>
          l.inserted && (l.slot.mem.Some? && f in l.slot.mem.value.files ==> l.slot.mem.value.files[f].OutTerminal?))
    && (l.slot.mem.Some? && f in l.slot.mem.value.files ==> f in l.txs)
  }

  /** Cancelled or removed. */
  predicate Over(l: Life) {
    l.inserted && (l.slot.mem.None? || l.slot.mem.value.state == Canceled)
  }

  ghost predicate TransferInv(l: Life) {
    && ClosingIsLast(l.log) && Closings(l.log) <= 1
    && (l.closers != [] || Closings(l.log) == 1 || l.xtx == Some(E.Terminated) ==> Over(l))
    && (l.xtx == Some(E.Ongoing) ==> Closings(l.log) == 0)
    && (l.slot.mem.Some? ==> l.xtx.Some?)
    && (forall i :: 0 <= i < |l.closers| ==> E.IsClosing(l.closers[i]))
    && (l.xtx.None? ==> l.closers == [])
  }

  ghost predicate WireInv(l: Life) {
    && (l.sent || l.dialing ==> l.inserted && (l.slot.mem.Some? ==> l.slot.mem.value.state != New))
    && (l.silent ==> !l.sent && !l.dialing && l.inserted && l.slot.mem.None?)
  }

  ghost predicate Inv(l: Life) {
    && OutAgree(l.slot) && TransferInv(l) && WireInv(l)
    && (l.slot.row.Some? ==> l.slot.row.value.isOutgoing)
    && (!l.inserted ==> l == UNBORN)
    && forall f :: FileInv(l, f)
  }

  // ----- Preservation, one conjunct at a time

  /** A slot after an operation that is not `Insert`, `Terminate` or a restart: files as before or gone. */
  ghost predicate SameFiles(l: Life, l': Life) {
    && l'.txs == l.txs && l'.winners == l.winners && l'.log == l.log && l'.inserted == l.inserted
    && (l'.slot.mem.Some? ==> l.slot.mem.Some? && l'.slot.mem.value.files == l.slot.mem.value.files)
  }

  lemma SameFilesInv(l: Life, l': Life)
    requires SameFiles(l, l')
    requires forall f :: FileInv(l, f)
    ensures forall f :: FileInv(l', f)
  {
    forall f
      ensures FileInv(l', f)
    {
      assert FileInv(l, f);
    }
  }

  lemma InsertInv(l: Life, peer: Peer, sizes: map<FileId, nat>)
    requires Inv(l)
    ensures Inv(Inserting(l, peer, sizes))
  {
    if !l.inserted {
      var l' := Inserting(l, peer, sizes);
      forall f
        ensures FileInv(l', f)
      {
        assert FileInv(l, f);
      }
    }
  }

  lemma AnnounceInv(l: Life, event: E.TransferEvent)
    requires Inv(l)
    ensures Inv(Announcing(l, event))
  {
    var l' := Announcing(l, event);
    if l' != l {
      Appended(l.log, Transfer(event), "");
      forall f
        ensures FileInv(l', f)
      {
        assert FileInv(l, f);
        Appended(l.log, Transfer(event), f);
      }
    }
  }

  lemma ConnectInv(l: Life, conn: ConnId)
    requires Inv(l)
    ensures Inv(Connecting(l, conn))
  {
    var l' := Connecting(l, conn);
    OutOthersAgree(l.slot, conn);
    SameFilesInv(l, l');
  }

  lemma RequestInv(l: Life)
    requires Inv(l)
    ensures Inv(Next(l, SendRequest)) && Inv(Next(l, DialFails))
  {
    SameFilesInv(l, Next(l, SendRequest));
    SameFilesInv(l, Next(l, DialFails));
  }

  lemma WinFile(l: Life, after: O.OutAfter, f: FileId, kind: FileTerminal, g: FileId)
    requires FileInv(l, g) && l.inserted && l.slot.mem.Some? && after.slot.mem.Some?
    requires after.result == Ok(true) ==> f in l.slot.mem.value.files && !l.slot.mem.value.files[f].OutTerminal?
    requires after.result == Ok(true) ==> after.slot.mem.value.files == l.slot.mem.value.files[f := O.OutTerminal(kind)]
    requires after.result != Ok(true) ==> after.slot == l.slot
    ensures FileInv(Winning(l, after, f, kind), g)
  {
  }

  lemma WinInv(l: Life, after: O.OutAfter, f: FileId, kind: FileTerminal)
    requires Inv(l)
    requires after.result != Ok(true) ==> after.slot == l.slot
    requires after.result == Ok(true) ==> l.slot.mem.Some? && O.Terminate(l.slot, f, kind).result == Ok(true)
    requires after.result == Ok(true) ==> after.slot == O.Terminate(l.slot, f, kind).slot
    ensures Inv(Winning(l, after, f, kind))
  {
    var l' := Winning(l, after, f, kind);
    if after.result == Ok(true) {
      OutTerminateAgrees(l.slot, f, kind);
      forall g
        ensures FileInv(l', g)
      {
        assert FileInv(l, g);
        WinFile(l, after, f, kind, g);
      }
    }
  }

  /** A winner's call always emits its event. */
  lemma WinnerEmits(l: Life, f: FileId)
    requires Inv(l) && f in l.winners
    ensures EmittingEnd(l, f).log == l.log + [FileEnded(f, l.winners[f])]
  {
    assert FileInv(l, f);
  }

  lemma EmitEndInv(l: Life, f: FileId)
    requires Inv(l)
    ensures Inv(EmittingEnd(l, f))
  {
    var l' := EmittingEnd(l, f);
    if f in l.winners {
      WinnerEmits(l, f);
      assert FileInv(l, f);
      Appended(l.log, FileEnded(f, l.winners[f]), f);
      forall g
        ensures FileInv(l', g)
      {
        assert FileInv(l, g);
        Appended(l.log, FileEnded(f, l.winners[f]), g);
      }
    }
  }

  lemma TouchFile(l: Life, f: FileId, op: E.FileOp, g: FileId)
    requires FileInv(l, g) && FileInv(l, f)
    ensures FileInv(Touching(l, f, op), g)
  {
    Appended(l.log, FileNews(f), g);
  }

  lemma TouchInv(l: Life, f: FileId, op: E.FileOp)
    requires Inv(l)
    ensures Inv(Touching(l, f, op))
  {
    Appended(l.log, FileNews(f), f);
    forall g
      ensures FileInv(Touching(l, f, op), g)
    {
      assert FileInv(l, g) && FileInv(l, f);
      TouchFile(l, f, op, g);
    }
  }

  /** What closing changes besides the slot: events of the closing kind wait to be emitted. */
  lemma ClosedInv(l: Life, l': Life, events: seq<E.TransferEvent>)
    requires Inv(l) && SameFiles(l, l') && OutAgree(l'.slot)
    requires forall i :: 0 <= i < |events| ==> E.IsClosing(events[i])
    requires l'.closers == l.closers + events || l'.closers == l.closers
    requires l'.xtx == l.xtx && l'.dialing == l.dialing && l'.sent == l.sent
    requires l'.slot.row.Some? ==> l'.slot.row.value.isOutgoing
    requires l.slot.mem.Some? && Over(l')
    requires l'.silent ==> l.silent || (!l.sent && !l.dialing && l'.slot.mem.None?)
    ensures Inv(l')
  {
    SameFilesInv(l, l');
  }

  lemma CancelInv(l: Life)
    requires Inv(l)
    ensures Inv(Canceling(l))
  {
    if O.IssueClose(l.slot).result.Ok? {
      OutOthersAgree(l.slot, 0);
      ClosedInv(l, Canceling(l), [E.CanceledBy(false)]);
    }
  }

  lemma RemoveInv(l: Life, events: seq<E.TransferEvent>)
    requires Inv(l)
    requires forall i :: 0 <= i < |events| ==> E.IsClosing(events[i])
    ensures Inv(Closing(l, O.Remove(l.slot), events))
  {
    if l.slot.mem.Some? {
      OutOthersAgree(l.slot, 0);
      ClosedInv(l, Closing(l, O.Remove(l.slot), events), events);
    }
  }

  lemma EmitClosingInv(l: Life)
    requires Inv(l)
    ensures Inv(EmittingClosing(l))
  {
    var l' := EmittingClosing(l);
    if l.closers != [] && l.xtx.Some? {
      var r := Transfer(l.closers[0]);
      Appended(l.log, r, "");
      forall f
        ensures FileInv(l', f)
      {
        assert FileInv(l, f);
        Appended(l.log, r, f);
      }
    }
  }

  /** A file that was reported as ended has ended. */
  lemma ReportedHasEnded(l: Life, f: FileId, kind: FileTerminal)
    requires FileInv(l, f) && FileEnded(f, kind) in l.log
    ensures l.slot.mem.Some? && f in l.slot.mem.value.files ==> l.slot.mem.value.files[f].OutTerminal?
  {
    ReportedCounts(l.log, f, kind);
  }

  lemma RecordEndInv(l: Life, f: FileId, kind: FileTerminal)
    requires Inv(l)
    ensures Inv(Recording(l, f, kind))
  {
    if FileEnded(f, kind) in l.log {
      assert FileInv(l, f);
      ReportedHasEnded(l, f, kind);
      OutRecordAgrees(l.slot, f, kind);
      SameFilesInv(l, Recording(l, f, kind));
    }
  }

  lemma RecordClosingInv(l: Life)
    requires Inv(l)
    ensures Inv(RecordingClosing(l))
  {
    TableNoteAgrees(l.slot);
    SameFilesInv(l, RecordingClosing(l));
  }

  lemma PurgeInv(l: Life)
    requires Inv(l)
    ensures Inv(Purging(l))
  {
    TableNoteAgrees(l.slot);
    SameFilesInv(l, Purging(l));
  }

  lemma TableNoteAgrees(s: O.OutSlot)
    requires OutAgree(s)
    ensures OutAgree(s.(row := WithEnded(s.row))) && OutAgree(s.(row := Purged(s.row)))
  {
    if s.mem.Some? {
      forall f | f in s.mem.value.files
        ensures OutFileAgrees(s.mem.value.files[f], f, s.row.value.sync.value, s.row.value.recorded)
      {
      }
    }
  }

  lemma RestartInv(l: Life)
    requires Inv(l)
    ensures Inv(Restarting(l))
  {
    var l' := Restarting(l);
    RestoreOutgoing(l.slot);
    assert l.slot.mem.Some? ==> Collected(l.slot.row) == l.slot.row;
    forall f
      ensures FileInv(l', f)
    {
      assert FileInv(l, f);
    }
  }

  // ----- Whole lives

  lemma ReportInv(l: Life, f: FileId, kind: FileTerminal)
    requires Inv(l)
    ensures Inv(Next(l, Step.Reject(f))) && Inv(Next(l, Step.Fail(f))) && Inv(Next(l, Receive(f, kind)))
  {
    WinInv(l, O.RejectionPost(l.slot, f), f, Rejected);
    WinInv(l, O.FailurePost(l.slot, f), f, Failed);
    WinInv(l, O.TerminalRecv(l.slot, f, kind), f, kind);
  }

  /** The steps by which a transfer and its files move on. */
  predicate Moves(step: Step) {
    step.Insert? || step.Announce? || step.Connect? || step.SendRequest? || step.DialFails?
    || step.Reject? || step.Fail? || step.Receive? || step.EmitEnd?
  }

  lemma MoveInv(l: Life, step: Step)
    requires Inv(l) && Moves(step)
    ensures Inv(Next(l, step))
  {
    match step
    case Insert(peer, sizes) => InsertInv(l, peer, sizes);
    case Announce(event) => AnnounceInv(l, event);
    case Connect(conn) => ConnectInv(l, conn);
    case SendRequest => RequestInv(l);
    case DialFails => RequestInv(l);
    case Reject(f) => ReportInv(l, f, Rejected);
    case Fail(f) => ReportInv(l, f, Failed);
    case Receive(f, kind) => ReportInv(l, f, kind);
    case EmitEnd(f) => EmitEndInv(l, f);
    case _ =>
  }

  lemma OtherInv(l: Life, step: Step)
    requires Inv(l) && !Moves(step)
    ensures Inv(Next(l, step))
  {
    match step
    case Touch(f, op) => TouchInv(l, f, op);
    case Cancel => CancelInv(l);
    case CloseFrame => RemoveInv(l, [E.CanceledBy(true)]);
    case GiveUp => RemoveInv(l, [E.FailedTransfer]);
    case DropClosed => RemoveInv(l, []);
    case EmitClosing => EmitClosingInv(l);
    case RecordEnd(f, kind) => RecordEndInv(l, f, kind);
    case RecordClosing => RecordClosingInv(l);
    case Purge => PurgeInv(l);
    case Restart => RestartInv(l);
    case _ =>
  }

  lemma StepInv(l: Life, step: Step)
    requires Inv(l)
    ensures Inv(Next(l, step))
  {
    if Moves(step) {
      MoveInv(l, step);
    } else {
      OtherInv(l, step);
    }
  }

  lemma {:induction false} LiveInv(l: Life, steps: seq<Step>)
    requires Inv(l)
    ensures Inv(Live(l, steps))
    decreases |steps|
  {
    if steps != [] {
      StepInv(l, steps[0]);
      LiveInv(Next(l, steps[0]), steps[1..]);
    }
  }

  lemma UnbornInv()
    ensures Inv(UNBORN)
  {
  }

  /** Over any life, restarts included, a file is reported as ended at most once. */
  lemma EndedAtMostOnce(steps: seq<Step>, f: FileId)
    ensures Ends(Live(UNBORN, steps).log, f) <= 1
  {
    UnbornInv();
    LiveInv(UNBORN, steps);
    assert FileInv(Live(UNBORN, steps), f);
  }

  /** Over any life, the transfer is reported as cancelled or failed at most once, and no queued, deferred,
      cancelled or failed event about it follows. */
  lemma ClosedAtMostOnce(steps: seq<Step>, i: nat)
    ensures var log := Live(UNBORN, steps).log;
            && Closings(log) <= 1
            && (i < |log| && log[i].Transfer? && E.IsClosing(log[i].event) ==>
                  forall j :: i < j < |log| ==> !log[j].Transfer?)
  {
    UnbornInv();
    LiveInv(UNBORN, steps);
    var log := Live(UNBORN, steps).log;
    if i < |log| && log[i].Transfer? && E.IsClosing(log[i].event) {
      ClosingSplits(log, i);
    }
  }

  /** Where the transfer stands, as the manager knows it. */
  function Stage(l: Life): nat {
    if !l.inserted then 0
    else
      match l.slot.mem
      case None => 4
      case Some(mem) => match mem.state case New => 1 case Active => 2 case Canceled => 3
  }

  lemma StageRises(l: Life, step: Step)
    requires Inv(l)
    ensures Stage(l) <= Stage(Next(l, step))
    ensures l.silent ==> Next(l, step).silent
  {
    if step.Restart? {
      RestoreOutgoing(l.slot);
    } else if step.Insert? {
    } else {
      StageRisesInOp(l, step);
    }
  }

  lemma StageRisesInOp(l: Life, step: Step)
    requires Inv(l) && !step.Restart? && !step.Insert?
    ensures Stage(l) <= Stage(Next(l, step))
    ensures l.silent ==> Next(l, step).silent
  {
  }

  lemma {:induction false} LiveRises(l: Life, steps: seq<Step>)
    requires Inv(l)
    ensures Stage(l) <= Stage(Live(l, steps))
    ensures l.silent ==> Live(l, steps).silent
    decreases |steps|
  {
    if steps != [] {
      StageRises(l, steps[0]);
      StepInv(l, steps[0]);
      LiveRises(Next(l, steps[0]), steps[1..]);
    }
  }

  /** A transfer moves from new to active to cancelled to removed and never back, over restarts too; memory
      and table always name the same state. */
  lemma StateOnlyAdvances(before: seq<Step>, after: seq<Step>)
    ensures var l, l' := Live(UNBORN, before), Live(Live(UNBORN, before), after);
            && Stage(l) <= Stage(l')
            && (l.slot.mem.Some? ==> l.slot.row.Some? && l.slot.row.value.sync.Some?)
            && (l.slot.mem.Some? ==> l.slot.row.value.sync.value.localState == l.slot.mem.value.state)
            && (l.inserted && l.slot.mem.None? && l.slot.row.Some? ==> l.slot.row.value.sync.None?)
  {
    UnbornInv();
    LiveInv(UNBORN, before);
    LiveRises(Live(UNBORN, before), after);
  }

  /** A transfer cancelled while new has not been shown to the peer, and never will be. */
  lemma SilentCancel(before: seq<Step>, after: seq<Step>)
    ensures var l := Live(UNBORN, before);
            l.slot.mem.Some? && l.slot.mem.value.state == New ==>
              !l.sent && !Live(Next(l, Cancel), after).sent
  {
    UnbornInv();
    LiveInv(UNBORN, before);
    var l := Live(UNBORN, before);
    if l.slot.mem.Some? && l.slot.mem.value.state == New {
      StepInv(l, Cancel);
      LiveRises(Next(l, Cancel), after);
      LiveInv(Next(l, Cancel), after);
    }
  }
}
