/** What stands behind the ends of uploads, over whole lives: memory holds a file as ended in the way named by the
    call that ended it, exactly that is reported, and what was recorded of it is what every restart brings back. */
module UploadKinds {
  import opened Base
  import opened Storage
  import opened Agreement
  import opened Reports
  import opened Operations
  import opened UploadLife
  import O = Outgoing
  import E = Events

  predicate NoRestart(steps: seq<Step>) {
    forall i :: 0 <= i < |steps| ==> !steps[i].Restart?
  }

  // ----- What a step can do to entry and row

  predicate Aside(step: Step) {
    step.Announce? || step.SendRequest? || step.DialFails? || step.EmitEnd? || step.Touch? || step.EmitClosing?
  }

  lemma AsideKeepsSlot(l: Life, step: Step)
    requires Aside(step)
    ensures Next(l, step).slot == l.slot
  {
  }

  predicate Notes(step: Step) {
    step.RecordEnd? || step.RecordClosing? || step.Purge?
  }

  lemma NotesKeepMemory(l: Life, step: Step)
    requires Notes(step)
    ensures var l' := Next(l, step);
            && l'.slot.mem == l.slot.mem && l'.slot.row.Some? == l.slot.row.Some?
            && l'.log == l.log && l'.winners == l.winners
            && (step.RecordEnd? || l.slot.row.None? || SameEnds(l.slot.row.value, l'.slot.row.value))
  {
    match step {
      case RecordEnd(f, kind) => RecordingKeepsMemory(l, f, kind);
      case RecordClosing => ClosingKeepsMemory(l);
      case _ => PurgingKeepsMemory(l);
    }
  }

  lemma RecordingKeepsMemory(l: Life, f: FileId, kind: FileTerminal)
    ensures var l' := Recording(l, f, kind);
            l' == l.(slot := l'.slot) && l'.slot.mem == l.slot.mem && l'.slot.row.Some? == l.slot.row.Some?
  {
  }

  lemma ClosingKeepsMemory(l: Life)
    ensures var l' := RecordingClosing(l);
            && l' == l.(slot := l'.slot) && l'.slot.mem == l.slot.mem && l'.slot.row.Some? == l.slot.row.Some?
            && (l.slot.row.Some? ==> SameEnds(l.slot.row.value, l'.slot.row.value))
  {
  }

  lemma PurgingKeepsMemory(l: Life)
    ensures var l' := Purging(l);
            && l' == l.(slot := l'.slot) && l'.slot.mem == l.slot.mem && l'.slot.row.Some? == l.slot.row.Some?
            && (l.slot.row.Some? ==> SameEnds(l.slot.row.value, l'.slot.row.value))
  {
  }

  predicate SameEnds(row: Row, row': Row) {
    && row'.recorded.rejected == row.recorded.rejected && row'.recorded.completed == row.recorded.completed
    && row'.recorded.failed == row.recorded.failed
  }

  predicate EndsAFile(step: Step) {
    step.Reject? || step.Fail? || step.Receive?
  }

  function CallOf(step: Step): OutEnd
    requires EndsAFile(step)
  {
    match step
    case Reject(_) => RejectedThere
    case Fail(_) => FailedThere
    case Receive(_, kind) => HeardOf(kind)
    case _ => assert false; FailedThere
  }

  lemma EndSlot(l: Life, step: Step)
    requires EndsAFile(step)
    ensures var after := OutEndCall(l.slot, step.file, CallOf(step));
            Next(l, step) == Winning(l, after, step.file, OutKind(CallOf(step)))
  {
  }

  /** Connecting and leaving. */
  predicate Transfers(step: Step) {
    step.Connect? || step.Cancel? || step.CloseFrame? || step.GiveUp? || step.DropClosed?
  }

  lemma TransferKeeps(l: Life, step: Step)
    requires Transfers(step)
    ensures var l' := Next(l, step);
            && (l'.slot.mem.Some? ==> l.slot.mem.Some? && l'.slot.mem.value.files == l.slot.mem.value.files)
            && (l'.slot.row.Some? ==> l.slot.row.Some? && SameEnds(l.slot.row.value, l'.slot.row.value))
            && l'.winners == l.winners && l'.log == l.log
  {
  }

  // ----- The call that ended a file names its kind

  /** The ends a step brings about: a call that is allowed finds the file still alive. */
  function WonBy(l: Life, step: Step): set<(FileId, FileTerminal)> {
    if EndsAFile(step) && OutAllowed(l.slot, CallOf(step)) && OutLive(l.slot, step.file)
    then {(step.file, OutKind(CallOf(step)))} else {}
  }

  function Wins(l: Life, steps: seq<Step>): set<(FileId, FileTerminal)>
    decreases |steps|
  {
    if steps == [] then {} else WonBy(l, steps[0]) + Wins(Next(l, steps[0]), steps[1..])
  }

  predicate EndedAs(s: O.OutSlot, f: FileId, k: FileTerminal) {
    s.mem.Some? && f in s.mem.value.files && s.mem.value.files[f] == O.OutTerminal(k)
  }

  predicate DueOrTold(l: Life, f: FileId, k: FileTerminal) {
    (f in l.winners && l.winners[f] == k) || FileEnded(f, k) in l.log
  }

  ghost predicate KindsWon(l: Life, won: set<(FileId, FileTerminal)>) {
    && (!l.inserted ==> won == {})
    && (l.slot.mem.Some? ==> forall f, k :: (f, k) in won <==> EndedAs(l.slot, f, k))
    && (forall f, k :: (f, k) in won <==> DueOrTold(l, f, k))
  }

  /** For this file and kind nothing has moved. */
  predicate Unmoved(l: Life, l': Life, f: FileId, k: FileTerminal) {
    && (l'.slot.mem.Some? ==> l.slot.mem.Some? && (EndedAs(l'.slot, f, k) <==> EndedAs(l.slot, f, k)))
    && (DueOrTold(l', f, k) <==> DueOrTold(l, f, k))
  }

  lemma SlotEnds(s: O.OutSlot, g: FileId, e: OutEnd, f: FileId, k: FileTerminal)
    ensures var after := OutEndCall(s, g, e);
            && (EndedAs(after.slot, f, k) <==>
                  EndedAs(s, f, k) || (f == g && k == OutKind(e) && OutAllowed(s, e) && OutLive(s, g)))
            && (after.slot.mem.Some? == s.mem.Some?)
            && (after.result == Ok(true) <==> OutAllowed(s, e) && OutLive(s, g))
  {
    SenderEnds(s, g, e);
  }

  lemma WinnerDue(l: Life, after: O.OutAfter, g: FileId, kind: FileTerminal, f: FileId, k: FileTerminal)
    requires FileInv(l, g) && (after.result == Ok(true) ==> OutLive(l.slot, g))
    ensures DueOrTold(Winning(l, after, g, kind), f, k) <==>
            DueOrTold(l, f, k) || (after.result == Ok(true) && f == g && k == kind)
  {
  }

  lemma EndMoves(l: Life, step: Step, f: FileId, k: FileTerminal)
    requires EndsAFile(step) && FileInv(l, step.file)
    ensures var l' := Next(l, step);
            && (EndedAs(l'.slot, f, k) <==> EndedAs(l.slot, f, k) || (f, k) in WonBy(l, step))
            && (l'.slot.mem.Some? == l.slot.mem.Some?)
            && (DueOrTold(l', f, k) <==> DueOrTold(l, f, k) || (f, k) in WonBy(l, step))
  {
    EndSlot(l, step);
    SlotEnds(l.slot, step.file, CallOf(step), f, k);
    WinnerDue(l, OutEndCall(l.slot, step.file, CallOf(step)), step.file, OutKind(CallOf(step)), f, k);
  }

  lemma AsideMoves(l: Life, step: Step, f: FileId, k: FileTerminal)
    requires Inv(l) && Aside(step)
    ensures Unmoved(l, Next(l, step), f, k)
  {
    AsideKeepsSlot(l, step);
    if step.EmitEnd? && step.file in l.winners {
      WinnerEmits(l, step.file);
    }
  }

  lemma InsertMoves(l: Life, step: Step, f: FileId, k: FileTerminal)
    requires Inv(l) && step.Insert?
    ensures if l.inserted then Next(l, step) == l else !EndedAs(Next(l, step).slot, f, k) && !DueOrTold(Next(l, step), f, k)
  {
  }

  lemma InsertedStays(l: Life, step: Step)
    ensures !step.Insert? ==> Next(l, step).inserted == l.inserted
  {
  }

  lemma StepWonFile(l: Life, won: set<(FileId, FileTerminal)>, step: Step, f: FileId, k: FileTerminal)
    requires Inv(l) && KindsWon(l, won) && !step.Restart?
    ensures Next(l, step).slot.mem.Some? ==> ((f, k) in won + WonBy(l, step) <==> EndedAs(Next(l, step).slot, f, k))
    ensures (f, k) in won + WonBy(l, step) <==> DueOrTold(Next(l, step), f, k)
  {
    if EndsAFile(step) {
      assert FileInv(l, step.file);
      EndMoves(l, step, f, k);
    } else if step.Insert? {
      InsertMoves(l, step, f, k);
    } else {
      OtherMoves(l, step, f, k);
    }
  }

  lemma OtherMoves(l: Life, step: Step, f: FileId, k: FileTerminal)
    requires Inv(l) && !step.Restart? && !step.Insert? && !EndsAFile(step)
    ensures Unmoved(l, Next(l, step), f, k)
  {
    if Aside(step) {
      AsideMoves(l, step, f, k);
    } else if Notes(step) {
      NotesKeepMemory(l, step);
    } else {
      TransferKeeps(l, step);
    }
  }

  lemma StepWon(l: Life, won: set<(FileId, FileTerminal)>, step: Step)
    requires Inv(l) && KindsWon(l, won) && !step.Restart?
    ensures KindsWon(Next(l, step), won + WonBy(l, step))
  {
    InsertedStays(l, step);
    forall f, k
      ensures Next(l, step).slot.mem.Some? ==> ((f, k) in won + WonBy(l, step) <==> EndedAs(Next(l, step).slot, f, k))
      ensures (f, k) in won + WonBy(l, step) <==> DueOrTold(Next(l, step), f, k)
    {
      StepWonFile(l, won, step, f, k);
    }
    if !Next(l, step).inserted {
      NothingWonBefore(l, step);
    }
  }

  lemma NothingWonBefore(l: Life, step: Step)
    requires Inv(l) && !Next(l, step).inserted
    ensures !l.inserted && WonBy(l, step) == {}
  {
    InsertedStays(l, step);
  }

  lemma {:induction false} RunWon(l: Life, won: set<(FileId, FileTerminal)>, steps: seq<Step>)
    requires Inv(l) && KindsWon(l, won) && NoRestart(steps)
    ensures KindsWon(Live(l, steps), won + Wins(l, steps))
    decreases |steps|
  {
    if steps == [] {
      assert won + {} == won;
    } else {
      StepInv(l, steps[0]);
      StepWon(l, won, steps[0]);
      RunWon(Next(l, steps[0]), won + WonBy(l, steps[0]), steps[1..]);
      assert won + WonBy(l, steps[0]) + Wins(Next(l, steps[0]), steps[1..]) == won + Wins(l, steps);
    }
  }

  /** While the process lives, memory has a file as ended in a way exactly when the call that ended it named that
      way, and then that, and nothing else, has been reported or is due. */
  lemma KindIsTheWinners(steps: seq<Step>, f: FileId, k: FileTerminal)
    requires NoRestart(steps)
    ensures var l := Live(UNBORN, steps);
            && (l.slot.mem.Some? ==> (EndedAs(l.slot, f, k) <==> (f, k) in Wins(UNBORN, steps)))
            && (DueOrTold(l, f, k) <==> (f, k) in Wins(UNBORN, steps))
  {
    UnbornInv();
    assert KindsWon(UNBORN, {});
    RunWon(UNBORN, {}, steps);
    assert {} + Wins(UNBORN, steps) == Wins(UNBORN, steps);
  }

  // ----- What was recorded comes back

  ghost predicate RecordsTold(l: Life) {
    l.slot.row.Some? ==> forall f, k :: f in EndsRecorded(l.slot.row.value.recorded, k) ==> FileEnded(f, k) in l.log
  }

  lemma RecordTold(l: Life, f: FileId, kind: FileTerminal)
    requires RecordsTold(l)
    ensures RecordsTold(Recording(l, f, kind))
  {
    if l.slot.row.Some? && FileEnded(f, kind) in l.log {
      forall g, k | g in EndsRecorded(WithRecorded(l.slot.row, f, kind).value.recorded, k)
        ensures FileEnded(g, k) in l.log
      {
        RecordsExactly(l.slot.row.value, f, kind, g);
      }
    }
  }

  lemma LogGrows(l: Life, step: Step, r: Report)
    requires r in l.log
    ensures r in Next(l, step).log
  {
  }

  lemma RestartKeepsRow(l: Life)
    ensures var row' := Restarting(l).slot.row; row'.Some? ==> row' == l.slot.row
    ensures Restarting(l).log == l.log
  {
  }

  lemma OthersKeepRecords(l: Life, step: Step)
    requires Inv(l) && !step.RecordEnd?
    ensures var row' := Next(l, step).slot.row;
            row'.Some? ==> if l.slot.row.Some? then SameEnds(l.slot.row.value, row'.value)
                           else row'.value.recorded == NOTHING_RECORDED
  {
    if EndsAFile(step) {
      EndSlot(l, step);
      EndKeepsRecords(l.slot, step.file, CallOf(step));
    } else if Aside(step) {
      AsideKeepsSlot(l, step);
    } else if Notes(step) {
      NotesKeepMemory(l, step);
    } else if step.Insert? {
      InsertRecords(l, step);
    } else if Transfers(step) {
      TransferKeeps(l, step);
    } else {
      RestartKeepsRow(l);
    }
  }

  lemma InsertRecords(l: Life, step: Step)
    requires Inv(l) && step.Insert?
    ensures var row' := Next(l, step).slot.row;
            row'.Some? ==> if l.slot.row.Some? then row' == l.slot.row else row'.value.recorded == NOTHING_RECORDED
  {
  }

  lemma EndKeepsRecords(s: O.OutSlot, f: FileId, e: OutEnd)
    ensures var row' := OutEndCall(s, f, e).slot.row;
            row'.Some? == s.row.Some? && (row'.Some? ==> row'.value.recorded == s.row.value.recorded)
  {
  }

  lemma StepRecordsTold(l: Life, step: Step)
    requires Inv(l) && RecordsTold(l)
    ensures RecordsTold(Next(l, step))
  {
    if step.RecordEnd? {
      RecordTold(l, step.file, step.kind);
    } else {
      OthersKeepRecords(l, step);
      OthersTold(l, step, Next(l, step));
    }
  }

  lemma OthersTold(l: Life, step: Step, l': Life)
    requires RecordsTold(l) && l' == Next(l, step)
    requires l'.slot.row.Some? ==> if l.slot.row.Some? then SameEnds(l.slot.row.value, l'.slot.row.value)
                                   else l'.slot.row.value.recorded == NOTHING_RECORDED
    ensures RecordsTold(l')
  {
    if l'.slot.row.Some? && l.slot.row.Some? {
      forall f, k | f in EndsRecorded(l'.slot.row.value.recorded, k)
        ensures FileEnded(f, k) in l'.log
      {
        assert f in EndsRecorded(l.slot.row.value.recorded, k);
        LogGrows(l, step, FileEnded(f, k));
      }
    }
  }

  lemma {:induction false} RunRecordsTold(l: Life, steps: seq<Step>)
    requires Inv(l) && RecordsTold(l)
    ensures RecordsTold(Live(l, steps))
    decreases |steps|
  {
    if steps != [] {
      StepInv(l, steps[0]);
      StepRecordsTold(l, steps[0]);
      RunRecordsTold(Next(l, steps[0]), steps[1..]);
    }
  }

  /** A file that is reported once is reported in one way. */
  lemma {:induction false} OneKind(log: seq<Report>, f: FileId, j: FileTerminal, k: FileTerminal)
    requires FileEnded(f, j) in log && FileEnded(f, k) in log && j != k
    ensures Ends(log, f) >= 2
  {
    var n := |log| - 1;
    if FileEnded(f, j) in log[..n] && FileEnded(f, k) in log[..n] {
      OneKind(log[..n], f, j, k);
    } else if log[n] == FileEnded(f, j) {
      ReportedCounts(log[..n], f, k);
    } else {
      ReportedCounts(log[..n], f, j);
    }
  }

  /** The step writes the record of an end that was reported. */
  predicate Records(l: Life, step: Step, f: FileId, kind: FileTerminal) {
    step == RecordEnd(f, kind) && FileEnded(f, kind) in l.log && l.slot.row.Some? && f in l.slot.row.value.paths
  }

  lemma RecordStays(l: Life, step: Step, f: FileId, kind: FileTerminal)
    requires Inv(l) && l.slot.row.Some? && f in EndsRecorded(l.slot.row.value.recorded, kind) && Next(l, step).slot.row.Some?
    ensures f in EndsRecorded(Next(l, step).slot.row.value.recorded, kind)
  {
    if step.RecordEnd? {
      RecordsExactly(l.slot.row.value, step.file, step.kind, f);
    } else {
      OthersKeepRecords(l, step);
    }
  }

  /** A row that is gone does not come back: ids are inserted once. */
  lemma RowGone(l: Life, step: Step)
    requires Inv(l) && l.inserted && l.slot.row.None?
    ensures Next(l, step).slot.row.None? && Next(l, step).inserted
  {
    if EndsAFile(step) {
      EndSlot(l, step);
      EndKeepsRecords(l.slot, step.file, CallOf(step));
    } else if Aside(step) {
      AsideKeepsSlot(l, step);
    } else if Notes(step) {
      NotesKeepMemory(l, step);
    } else if Transfers(step) {
      TransferKeeps(l, step);
    } else if step.Restart? {
      RestartKeepsRow(l);
    }
    InsertedStays(l, step);
  }

  lemma {:induction false} RowStaysGone(l: Life, steps: seq<Step>)
    requires Inv(l) && l.inserted && l.slot.row.None?
    ensures Live(l, steps).slot.row.None?
    decreases |steps|
  {
    if steps != [] {
      StepInv(l, steps[0]);
      RowGone(l, steps[0]);
      RowStaysGone(Next(l, steps[0]), steps[1..]);
    }
  }

  lemma {:induction false} RecordLasts(l: Life, steps: seq<Step>, f: FileId, kind: FileTerminal)
    requires Inv(l) && l.slot.row.Some? && f in EndsRecorded(l.slot.row.value.recorded, kind)
    ensures var row' := Live(l, steps).slot.row; row'.Some? ==> f in EndsRecorded(row'.value.recorded, kind)
    decreases |steps|
  {
    if steps != [] {
      var l' := Next(l, steps[0]);
      StepInv(l, steps[0]);
      InsertedStays(l, steps[0]);
      if l'.slot.row.Some? {
        RecordStays(l, steps[0], f, kind);
        RecordLasts(l', steps[1..], f, kind);
      } else {
        RowStaysGone(l', steps[1..]);
      }
    }
  }

  /** The kind of an ended upload is kept for good once it is recorded: at any later point of the life, through any
      number of restarts, stopping and starting again restores the file as ended in exactly that way. */
  lemma RecordedKindComesBack(before: seq<Step>, step: Step, after: seq<Step>, f: FileId, kind: FileTerminal)
    requires Records(Live(UNBORN, before), step, f, kind)
    requires var l := Live(Next(Live(UNBORN, before), step), after); l.slot.mem.Some? && f in l.slot.mem.value.files
    ensures var l := Live(Next(Live(UNBORN, before), step), after);
            EndedAs(Next(l, Restart).slot, f, kind)
  {
    UnbornInv();
    LiveInv(UNBORN, before);
    RunRecordsTold(UNBORN, before);
    RecordWritten(Live(UNBORN, before), step, f, kind);
    ComesBackFrom(Next(Live(UNBORN, before), step), after, f, kind);
  }

  lemma RecordWritten(l: Life, step: Step, f: FileId, kind: FileTerminal)
    requires Inv(l) && RecordsTold(l) && Records(l, step, f, kind)
    ensures var l' := Next(l, step);
            Inv(l') && RecordsTold(l') && l'.slot.row.Some? && f in EndsRecorded(l'.slot.row.value.recorded, kind)
  {
    StepInv(l, step);
    StepRecordsTold(l, step);
    RecordsExactly(l.slot.row.value, f, kind, f);
  }

  lemma ComesBackFrom(l: Life, after: seq<Step>, f: FileId, kind: FileTerminal)
    requires Inv(l) && RecordsTold(l) && l.slot.row.Some? && f in EndsRecorded(l.slot.row.value.recorded, kind)
    requires Live(l, after).slot.mem.Some? && f in Live(l, after).slot.mem.value.files
    ensures EndedAs(Restarting(Live(l, after)).slot, f, kind)
  {
    RecordLasts(l, after, f, kind);
    LiveInv(l, after);
    RunRecordsTold(l, after);
    RestoredInOneWay(Live(l, after), f, kind);
  }

  lemma RestoredInOneWay(l: Life, f: FileId, kind: FileTerminal)
    requires Inv(l) && RecordsTold(l) && l.slot.mem.Some? && f in l.slot.mem.value.files
    requires f in EndsRecorded(l.slot.row.value.recorded, kind)
    ensures EndedAs(Restarting(l).slot, f, kind)
  {
    var seen := l.slot.row.value.recorded;
    assert FileInv(l, f);
    forall k | f in EndsRecorded(seen, k)
      ensures k == kind
    {
      if k != kind {
        OneKind(l.log, f, k, kind);
      }
    }
    assert f in seen.rejected ==> f in EndsRecorded(seen, Rejected);
    assert f in seen.completed ==> f in EndsRecorded(seen, Completed);
    RestoreOutgoing(l.slot);
    assert OutFileAgrees(l.slot.mem.value.files[f], f, l.slot.row.value.sync.value, seen);
    assert Collected(l.slot.row) == l.slot.row;
  }

  // ----- The request goes out

  /** Once the transfer is connected its request can be sent, unless it was never there. */
  lemma RequestIsSent(l: Life, conn: ConnId)
    ensures l.slot.mem.Some? ==> Next(Next(l, Connect(conn)), SendRequest).sent
    ensures l.slot.mem.None? && !l.sent && !l.dialing ==> !Next(Next(l, Connect(conn)), SendRequest).sent
  {
  }

  // ----- Closing is reported

  ghost predicate ClosingDue(l: Life) {
    && (!l.inserted ==> l == UNBORN)
    && (l.slot.mem.Some? && l.slot.mem.value.state != Canceled ==> l.closers == [] && l.xtx == Some(E.Ongoing))
    && (l.slot.mem.Some? && l.slot.mem.value.state == Canceled ==> CancelReported(l))
  }

  /** The cancellation by this side is about to be reported, or has been. */
  ghost predicate CancelReported(l: Life) {
    || (l.closers == [E.CanceledBy(false)] && l.xtx == Some(E.Ongoing))
    || (l.closers == [] && Transfer(E.CanceledBy(false)) in l.log)
  }

  lemma AsideClosingDue(l: Life, step: Step)
    requires ClosingDue(l) && (Aside(step) || Notes(step) || step.Insert?)
    ensures ClosingDue(Next(l, step))
  {
  }

  lemma EndClosingDue(l: Life, step: Step)
    requires ClosingDue(l) && EndsAFile(step)
    ensures ClosingDue(Next(l, step))
  {
    EndSlot(l, step);
    SenderEnds(l.slot, step.file, CallOf(step));
  }

  lemma TransferClosingDue(l: Life, step: Step)
    requires ClosingDue(l) && Transfers(step)
    ensures ClosingDue(Next(l, step))
  {
  }

  lemma {:induction false} RunClosingDue(l: Life, steps: seq<Step>)
    requires ClosingDue(l) && NoRestart(steps)
    ensures ClosingDue(Live(l, steps))
    decreases |steps|
  {
    if steps != [] {
      if EndsAFile(steps[0]) {
        EndClosingDue(l, steps[0]);
      } else if Transfers(steps[0]) {
        TransferClosingDue(l, steps[0]);
      } else {
        AsideClosingDue(l, steps[0]);
      }
      RunClosingDue(Next(l, steps[0]), steps[1..]);
    }
  }

  /** While the process lives, a transfer that is cancelled has been reported as cancelled by this side, or the report
      is the one that is due. */
  lemma CancelIsReported(steps: seq<Step>)
    requires NoRestart(steps)
    ensures var l := Live(UNBORN, steps);
            l.slot.mem.Some? && l.slot.mem.value.state == Canceled ==> CancelReported(l)
  {
    RunClosingDue(UNBORN, steps);
  }

  /** A transfer in use that the peer closes, or that is given up, is reported so by the next closing event. */
  lemma RemovalIsReported(steps: seq<Step>)
    requires NoRestart(steps)
    requires var s := Live(UNBORN, steps).slot; s.mem.Some? && s.mem.value.state != Canceled
    ensures var l := Live(UNBORN, steps);
            && Next(Next(l, CloseFrame), EmitClosing).log == l.log + [Transfer(E.CanceledBy(true))]
            && Next(Next(l, GiveUp), EmitClosing).log == l.log + [Transfer(E.FailedTransfer)]
            && Next(l, CloseFrame).slot.mem.None? && Next(l, GiveUp).slot.mem.None?
  {
    RunClosingDue(UNBORN, steps);
  }
}
