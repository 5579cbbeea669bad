/** What stands behind the ends of downloads, over whole lives: memory holds a file as ended in the way named by the
    call that ended it, the tables hold what was recorded, a restart goes by the records, every end is told, and the
    entry stays with the peer and the files it was registered with. */
module DownloadKinds {
  import opened Base
  import opened Storage
  import opened Agreement
  import opened Reports
  import opened Operations
  import opened DownloadLife
  import opened DownloadEnds
  import I = Incoming
  import E = Events

  // ----- What a step can do to entry and row

  /** Jobs, reports and their events leave entry and row alone. */
  predicate Aside(step: Step) {
    step.Announce? || step.StartJob? || step.AbortJob? || step.DropRequest? || step.EmitEnd? || step.Touch? || step.EmitClosing?
  }

  lemma AsideKeepsSlot(l: Life, step: Step)
    requires Aside(step)
    ensures Next(l, step).slot == l.slot && Next(l, step).collections == l.collections
  {
  }

  /** Notes in the tables. */
  predicate Notes(step: Step) {
    step.RecordEnd? || step.RecordClosing? || step.Purge?
  }

  lemma NotesKeepMemory(l: Life, step: Step)
    requires Notes(step)
    ensures var l' := Next(l, step);
            && l'.slot.mem == l.slot.mem && l'.slot.row.Some? == l.slot.row.Some? && l'.collections == l.collections
            && (l.slot.row.Some? ==> l'.slot.row.value.(isDeleted := l.slot.row.value.isDeleted, recorded := l.slot.row.value.recorded)
                                     == l.slot.row.value)
            && (step.RecordEnd? || l.slot.row.None? || SameEnds(l.slot.row.value, l'.slot.row.value))
  {
  }

  predicate SameEnds(row: Row, row': Row) {
    && row'.recorded.rejected == row.recorded.rejected && row'.recorded.completed == row.recorded.completed
    && row'.recorded.failed == row.recorded.failed
  }

  /** The operations on files. */
  predicate Operates(step: Step) {
    step.BeginDownload? || step.FinishDownload? || step.Receive? || step.RejectLocally?
  }

  predicate Leaves(step: Step) {
    step.Cancel? || step.RemoveWith? || step.Disconnect?
  }

  /** The row stays, with its peer, its paths and its records of ends. */
  predicate RowKept(row: Option<Row>, row': Option<Row>) {
    && row'.Some? == row.Some?
    && (row.Some? ==> row'.value.peer == row.value.peer && row'.value.paths == row.value.paths
                      && row'.value.recorded == row.value.recorded)
  }

  predicate EntryKept(s: I.InSlot, s': I.InSlot) {
    s'.mem.Some? ==> s.mem.Some? && s'.mem.value.peer == s.mem.value.peer && s'.mem.value.sizes == s.mem.value.sizes
                     && (s'.mem.value.conn == s.mem.value.conn || s'.mem.value.conn.None?)
  }

  lemma EndKeeps(s: I.InSlot, f: FileId, e: InEnd)
    ensures RowKept(s.row, InEndCall(s, f, e).slot.row) && EntryKept(s, InEndCall(s, f, e).slot)
  {
    ReceiverEnds(s, f, e);
  }

  lemma StartKeeps(s: I.InSlot, f: FileId, dir: Dir)
    ensures RowKept(s.row, I.StartDownload(s, f, dir).slot.row) && EntryKept(s, I.StartDownload(s, f, dir).slot)
  {
  }

  lemma OperationKeeps(l: Life, step: Step)
    requires Operates(step)
    ensures RowKept(l.slot.row, Next(l, step).slot.row) && EntryKept(l.slot, Next(l, step).slot)
    ensures Next(l, step).collections == l.collections
  {
    OperationSlot(l, step);
    match step {
      case FinishDownload(g, success) => EndKeeps(l.slot, g, Finished(success));
      case Receive(g, kind) => EndKeeps(l.slot, g, ToldOf(kind));
      case RejectLocally(g) => EndKeeps(l.slot, g, RejectedHere);
      case BeginDownload(g, dir) => StartKeeps(l.slot, g, dir);
      case _ =>
    }
  }

  /** The operation a step performs on entry and row. */
  lemma OperationSlot(l: Life, step: Step)
    requires Operates(step)
    ensures Next(l, step).collections == l.collections
    ensures var s' := Next(l, step).slot;
            match step
            case FinishDownload(g, success) => s' == (if g in l.jobs then InEndCall(l.slot, g, Finished(success)).slot else l.slot)
            case Receive(g, kind) => s' == InEndCall(l.slot, g, ToldOf(kind)).slot
            case RejectLocally(g) => s' == InEndCall(l.slot, g, RejectedHere).slot
            case BeginDownload(g, dir) => s' == I.StartDownload(l.slot, g, dir).slot
            case _ => true
  {
  }

  lemma LeavingKeeps(l: Life, step: Step)
    requires Leaves(step)
    ensures RowKept(l.slot.row, Next(l, step).slot.row) && EntryKept(l.slot, Next(l, step).slot)
    ensures Next(l, step).collections == l.collections
  {
  }

  lemma RegisterKeeps(l: Life, step: Step)
    requires step.Register?
    ensures Next(l, step).collections == l.collections
    ensures l.slot.row.Some? ==> RowKept(l.slot.row, Next(l, step).slot.row)
    ensures l.slot.row.None? && l.slot.mem.None? ==>
              Next(l, step).slot.row.Some? && Next(l, step).slot.row.value.recorded == NOTHING_RECORDED
    ensures l.slot.mem.Some? && Next(l, step).slot.mem.Some? ==> Next(l, step).slot.mem.value.files == l.slot.mem.value.files
  {
  }

  /** A restart that does not collect the row keeps it. */
  lemma RestartKeeps(l: Life)
    requires l.slot.row.Some?
    ensures var l' := Restarting(l);
            if l.slot.row.value.isDeleted && l.slot.row.value.sync.None? then l' == Unborn(l.collections + 1)
            else l'.slot.row == l.slot.row && l'.collections == l.collections
  {
  }

  // ----- The call that ended a file names its kind

  /** The ends a step brings about: a call that is allowed finds the file still live. */
  function WonBy(l: Life, step: Step): set<(FileId, FileTerminal)> {
    match step
    case FinishDownload(f, success) =>
      if f in l.jobs && InAllowed(l.slot, Finished(success)) && InLive(l.slot, f)
      then {(f, if success then Completed else Failed)} else {}
    case Receive(f, kind) => if InAllowed(l.slot, ToldOf(kind)) && InLive(l.slot, f) then {(f, kind)} else {}
    case RejectLocally(f) => if InAllowed(l.slot, RejectedHere) && InLive(l.slot, f) then {(f, Rejected)} else {}
    case _ => {}
  }

  function Wins(l: Life, steps: seq<Step>): set<(FileId, FileTerminal)>
    decreases |steps|
  {
    if steps == [] then {} else WonBy(l, steps[0]) + Wins(Next(l, steps[0]), steps[1..])
  }

  ghost predicate KindsWon(l: Life, won: set<(FileId, FileTerminal)>) {
    && (l.slot.row.None? ==> won == {})
    && (l.slot.mem.Some? ==>
          forall f, k :: (f, k) in won <==> f in l.slot.mem.value.files && l.slot.mem.value.files[f] == I.InTerminal(k))
  }

  /** The file's state before and after a step that is no restart. */
  lemma FileMoves(l: Life, step: Step, f: FileId, k: FileTerminal)
    requires !step.Restart? && l.slot.mem.Some? && Next(l, step).slot.mem.Some?
    ensures var files, files' := l.slot.mem.value.files, Next(l, step).slot.mem.value.files;
            (f in files' && files'[f] == I.InTerminal(k)) <==>
            (f in files && files[f] == I.InTerminal(k)) || (f, k) in WonBy(l, step)
  {
    if Operates(step) {
      OperationMoves(l, step, f, k);
    } else if Aside(step) {
      AsideKeepsSlot(l, step);
    } else if Notes(step) {
      NotesKeepMemory(l, step);
    } else if step.Register? {
      RegisterKeeps(l, step);
    } else {
      LeavingMoves(l, step, f, k);
    }
  }

  predicate EndedAs(s: I.InSlot, f: FileId, k: FileTerminal) {
    s.mem.Some? && f in s.mem.value.files && s.mem.value.files[f] == I.InTerminal(k)
  }

  lemma EndMoves(s: I.InSlot, g: FileId, e: InEnd, f: FileId, k: FileTerminal)
    ensures EndedAs(InEndCall(s, g, e).slot, f, k) <==>
            EndedAs(s, f, k) || (f == g && k == InKind(e) && InAllowed(s, e) && InLive(s, g))
  {
    ReceiverEnds(s, g, e);
  }

  lemma StartMoves(s: I.InSlot, g: FileId, dir: Dir, f: FileId, k: FileTerminal)
    ensures EndedAs(I.StartDownload(s, g, dir).slot, f, k) <==> EndedAs(s, f, k)
  {
    DownloadStarts(s, g, dir);
  }

  lemma OperationMoves(l: Life, step: Step, f: FileId, k: FileTerminal)
    requires Operates(step)
    ensures EndedAs(Next(l, step).slot, f, k) <==> EndedAs(l.slot, f, k) || (f, k) in WonBy(l, step)
  {
    OperationSlot(l, step);
    match step {
      case FinishDownload(g, success) => EndMoves(l.slot, g, Finished(success), f, k);
      case Receive(g, kind) => EndMoves(l.slot, g, ToldOf(kind), f, k);
      case RejectLocally(g) => EndMoves(l.slot, g, RejectedHere, f, k);
      case BeginDownload(g, dir) => StartMoves(l.slot, g, dir, f, k);
      case _ =>
    }
  }

  lemma LeavingMoves(l: Life, step: Step, f: FileId, k: FileTerminal)
    requires Leaves(step) && l.slot.mem.Some? && Next(l, step).slot.mem.Some?
    ensures var files, files' := l.slot.mem.value.files, Next(l, step).slot.mem.value.files;
            (f in files' && files'[f] == I.InTerminal(k)) <==> (f in files && files[f] == I.InTerminal(k))
  {
    ReceiverCancels(l.slot);
  }

  lemma EntryAppears(l: Life, step: Step, f: FileId, k: FileTerminal)
    requires RowInv(l) && !step.Restart? && l.slot.mem.None? && Next(l, step).slot.mem.Some?
    ensures l.slot.row.None? && WonBy(l, step) == {}
    ensures var files' := Next(l, step).slot.mem.value.files; f in files' ==> files'[f] == I.Idle
  {
    if Operates(step) {
      OperationKeeps(l, step);
    } else if Aside(step) {
      AsideKeepsSlot(l, step);
    } else if Notes(step) {
      NotesKeepMemory(l, step);
    } else if step.Register? {
      EntryRegistered(l, step, f);
    } else {
      LeavingKeeps(l, step);
    }
  }

  lemma EntryRegistered(l: Life, step: Step, f: FileId)
    requires l.slot.mem.None? && step.Register? && Next(l, step).slot.mem.Some?
    ensures l.slot.row.None?
    ensures var files' := Next(l, step).slot.mem.value.files; f in files' ==> files'[f] == I.Idle
  {
    RegistrationAccepted(l.slot, step.peer, step.sizes, step.conn, step.oldConnClosed);
  }

  lemma NothingWon(l: Life, step: Step)
    requires l.slot.mem.None?
    ensures WonBy(l, step) == {}
  {
  }

  lemma RowAppears(l: Life, step: Step)
    requires !step.Restart? && Next(l, step).slot.row.None?
    ensures l.slot.row.None?
  {
    RowStaysPut(l, step);
  }

  lemma RowStaysPut(l: Life, step: Step)
    requires !step.Restart?
    ensures l.slot.row.Some? ==> Next(l, step).slot.row.Some?
  {
    if Operates(step) {
      OperationKeeps(l, step);
    } else if Aside(step) {
      AsideKeepsSlot(l, step);
    } else if Notes(step) {
      NotesKeepMemory(l, step);
    } else if step.Register? {
      RegisterKeeps(l, step);
    } else {
      LeavingKeeps(l, step);
    }
  }

  lemma StepWon(l: Life, won: set<(FileId, FileTerminal)>, step: Step)
    requires Inv(l) && KindsWon(l, won) && !step.Restart?
    ensures KindsWon(Next(l, step), won + WonBy(l, step))
  {
    var l' := Next(l, step);
    if l'.slot.row.None? {
      RowAppears(l, step);
      NothingWon(l, step);
    }
    if l'.slot.mem.Some? {
      forall f, k
        ensures (f, k) in won + WonBy(l, step) <==> f in l'.slot.mem.value.files && l'.slot.mem.value.files[f] == I.InTerminal(k)
      {
        if l.slot.mem.Some? {
          FileMoves(l, step, f, k);
        } else {
          EntryAppears(l, step, f, k);
        }
      }
    }
  }

  lemma {:induction false} RunWon(l: Life, won: set<(FileId, FileTerminal)>, steps: seq<Step>)
    requires Inv(l) && KindsWon(l, won) && NoRestart(steps)
    ensures KindsWon(Live(l, steps), won + Wins(l, steps))
    decreases |steps|
  {
    if steps == [] {
      assert won + {} == won;
    } else {
      StepInv(l, steps[0]);
      StepWon(l, won, steps[0]);
      RunWon(Next(l, steps[0]), won + WonBy(l, steps[0]), steps[1..]);
      assert won + WonBy(l, steps[0]) + Wins(Next(l, steps[0]), steps[1..]) == won + Wins(l, steps);
    }
  }

  /** While the process lives, memory has a file as ended in a way exactly when the call that ended it named that
      way; and what a reconnection replays is that end: a rejection exactly for a file ended by a call that
      rejected it. */
  lemma KindIsTheWinners(steps: seq<Step>, f: FileId, k: FileTerminal)
    requires NoRestart(steps) && Live(Unborn(0), steps).slot.mem.Some?
    ensures var files := Live(Unborn(0), steps).slot.mem.value.files;
            && (f in files && files[f] == I.InTerminal(k) <==> (f, k) in Wins(Unborn(0), steps))
            && (Reject(f) in I.PendingIn(files) <==> (f, Rejected) in Wins(Unborn(0), steps))
            && (Done(f) in I.PendingIn(files) <==> (f, Completed) in Wins(Unborn(0), steps))
            && (Fail(f) in I.PendingIn(files) <==> (f, Failed) in Wins(Unborn(0), steps))
  {
    assert KindsWon(Unborn(0), {});
    RunWon(Unborn(0), {}, steps);
    assert {} + Wins(Unborn(0), steps) == Wins(Unborn(0), steps);
    var files := Live(Unborn(0), steps).slot.mem.value.files;
    Announces(files, f);
    assert (f, Rejected) in Wins(Unborn(0), steps) <==> f in files && files[f] == I.InTerminal(Rejected);
    assert (f, Completed) in Wins(Unborn(0), steps) <==> f in files && files[f] == I.InTerminal(Completed);
    assert (f, Failed) in Wins(Unborn(0), steps) <==> f in files && files[f] == I.InTerminal(Failed);
  }

  lemma Announces(files: map<FileId, I.InFile>, f: FileId)
    ensures Reject(f) in I.PendingIn(files) <==> f in files && files[f] == I.InTerminal(Rejected)
    ensures Done(f) in I.PendingIn(files) <==> f in files && files[f] == I.InTerminal(Completed)
    ensures Fail(f) in I.PendingIn(files) <==> f in files && files[f] == I.InTerminal(Failed)
  {
    if f in files && I.ResumeRequest(files[f], f).Some? {
      assert I.ResumeRequest(files[f], f).value in I.PendingIn(files);
    }
  }

  // ----- A restart goes by what was recorded

  /** The ends recorded since the row was created. */
  function NotedNext(l: Life, noted: set<(FileId, FileTerminal)>, step: Step): set<(FileId, FileTerminal)> {
    if Next(l, step).slot.row.None? then {}
    else
      match step
      case RecordEnd(f, kind) => if FileEnded(f, kind) in l.log && f in PathsOf(l.slot.row) then noted + {(f, kind)} else noted
      case _ => noted
  }

  function PathsOf(row: Option<Row>): set<FileId> {
    if row.Some? then row.value.paths.Keys else {}
  }

  function NotedBy(l: Life, noted: set<(FileId, FileTerminal)>, steps: seq<Step>): set<(FileId, FileTerminal)>
    decreases |steps|
  {
    if steps == [] then noted else NotedBy(Next(l, steps[0]), NotedNext(l, noted, steps[0]), steps[1..])
  }

  ghost predicate RecordsNoted(row: Option<Row>, noted: set<(FileId, FileTerminal)>) {
    && (row.None? ==> noted == {})
    && (row.Some? ==> forall f, k :: f in EndsRecorded(row.value.recorded, k) <==> (f, k) in noted)
  }

  lemma RecordNoted(l: Life, noted: set<(FileId, FileTerminal)>, f: FileId, kind: FileTerminal)
    requires RecordsNoted(l.slot.row, noted)
    ensures RecordsNoted(Next(l, RecordEnd(f, kind)).slot.row, NotedNext(l, noted, RecordEnd(f, kind)))
  {
    if l.slot.row.Some? && FileEnded(f, kind) in l.log {
      forall g, k
        ensures g in EndsRecorded(WithRecorded(l.slot.row, f, kind).value.recorded, k)
           <==> g in EndsRecorded(l.slot.row.value.recorded, k) || (g == f && k == kind && f in PathsOf(l.slot.row))
      {
        RecordsExactly(l.slot.row.value, f, kind, g);
      }
    }
  }

  /** Every other step leaves the records of ends alone, or drops the row, or creates it. */
  lemma OthersKeepRecords(l: Life, step: Step)
    requires RowInv(l) && !step.RecordEnd?
    ensures var row' := Next(l, step).slot.row;
            row'.Some? ==> if l.slot.row.Some? then SameEnds(l.slot.row.value, row'.value)
                           else row'.value.recorded == NOTHING_RECORDED
  {
    if Operates(step) {
      OperationKeeps(l, step);
    } else if Aside(step) {
      AsideKeepsSlot(l, step);
    } else if Notes(step) {
      NotesKeepMemory(l, step);
    } else if step.Register? {
      RegisterKeeps(l, step);
    } else if Leaves(step) {
      LeavingKeeps(l, step);
    } else if l.slot.row.Some? {
      RestartKeeps(l);
    }
  }

  lemma StepNoted(l: Life, noted: set<(FileId, FileTerminal)>, step: Step)
    requires RowInv(l) && RecordsNoted(l.slot.row, noted)
    ensures RecordsNoted(Next(l, step).slot.row, NotedNext(l, noted, step))
  {
    if step.RecordEnd? {
      RecordNoted(l, noted, step.file, step.kind);
    } else {
      OthersKeepRecords(l, step);
    }
  }

  lemma {:induction false} RunNoted(l: Life, noted: set<(FileId, FileTerminal)>, steps: seq<Step>)
    requires Inv(l) && RecordsNoted(l.slot.row, noted)
    ensures RecordsNoted(Live(l, steps).slot.row, NotedBy(l, noted, steps))
    decreases |steps|
  {
    if steps != [] {
      StepInv(l, steps[0]);
      StepNoted(l, noted, steps[0]);
      RunNoted(Next(l, steps[0]), NotedNext(l, noted, steps[0]), steps[1..]);
    }
  }

  /** At any point of any life: a file of a transfer in use whose only recorded end is of a kind is restored as ended
      in that way. */
  lemma RestoredAsRecorded(steps: seq<Step>, f: FileId, kind: FileTerminal)
    requires var s := Live(Unborn(0), steps).slot; I.Usable(s) && f in s.mem.value.files
    requires forall k :: (f, k) in NotedBy(Unborn(0), {}, steps) <==> k == kind
    ensures var again := Next(Live(Unborn(0), steps), Restart).slot.mem;
            again.Some? && f in again.value.files && again.value.files[f] == I.InTerminal(kind)
  {
    assert RecordsNoted(Unborn(0).slot.row, {});
    RunNoted(Unborn(0), {}, steps);
    LiveInv(Unborn(0), steps);
    RestartRebuilds(steps, f);
    var s := Live(Unborn(0), steps).slot;
    var seen := s.row.value.recorded;
    assert InFileAgrees(s.mem.value.files[f], f, s.row.value.sync.value, seen);
    assert f in EndsRecorded(seen, kind) && forall k :: f in EndsRecorded(seen, k) ==> k == kind;
    assert f in seen.rejected ==> f in EndsRecorded(seen, Rejected);
    assert f in seen.completed ==> f in EndsRecorded(seen, Completed);
  }

  /** When several ends were recorded a rejection counts before a completion, and that before a failure, which is also
      what a file is restored as that ended unrecorded. */
  lemma RestoredInOrder(steps: seq<Step>, f: FileId)
    requires var s := Live(Unborn(0), steps).slot; I.Usable(s) && f in s.mem.value.files && s.mem.value.files[f].InTerminal?
    ensures var again, noted := Next(Live(Unborn(0), steps), Restart).slot, NotedBy(Unborn(0), {}, steps);
            && ((f, Rejected) in noted ==> EndedAs(again, f, Rejected))
            && ((f, Rejected) !in noted && (f, Completed) in noted ==> EndedAs(again, f, Completed))
            && ((f, Rejected) !in noted && (f, Completed) !in noted ==> EndedAs(again, f, Failed))
  {
    assert RecordsNoted(Unborn(0).slot.row, {});
    RunNoted(Unborn(0), {}, steps);
    LiveInv(Unborn(0), steps);
    RestartRebuilds(steps, f);
    var s := Live(Unborn(0), steps).slot;
    var seen := s.row.value.recorded;
    assert f in EndsRecorded(seen, Rejected) <==> (f, Rejected) in NotedBy(Unborn(0), {}, steps);
    assert f in EndsRecorded(seen, Completed) <==> (f, Completed) in NotedBy(Unborn(0), {}, steps);
  }

  // ----- Every end is told

  ghost predicate ToldOrDue(l: Life, won: set<(FileId, FileTerminal)>) {
    && (forall f, k :: (f, k) in won ==> FileEnded(f, k) in l.deciding || Ends(l.log, f) > 0)
    && (forall f :: f in l.txs && l.txs[f] == E.Ended ==> Ends(l.log, f) > 0)
  }

  lemma EmitTold(l: Life, won: set<(FileId, FileTerminal)>, r: Report)
    requires ToldOrDue(l, won)
    ensures ToldOrDue(EmittingEnd(l, r), won)
  {
    var l' := EmittingEnd(l, r);
    forall f, k | (f, k) in won
      ensures FileEnded(f, k) in l'.deciding || Ends(l'.log, f) > 0
    {
      Appended(l.log, r, f);
      assert FileEnded(f, k) in l.deciding && r != FileEnded(f, k) ==> FileEnded(f, k) in l'.deciding;
    }
    forall f | f in l'.txs && l'.txs[f] == E.Ended
      ensures Ends(l'.log, f) > 0
    {
      Appended(l.log, r, f);
    }
  }

  lemma TouchTold(l: Life, won: set<(FileId, FileTerminal)>, g: FileId, op: E.FileOp)
    requires ToldOrDue(l, won)
    ensures ToldOrDue(Touching(l, g, op), won)
  {
    var l' := Touching(l, g, op);
    forall f
      ensures Ends(l'.log, f) == Ends(l.log, f)
    {
      Appended(l.log, FileNews(g), f);
    }
  }

  lemma WinTold(l: Life, won: set<(FileId, FileTerminal)>, step: Step)
    requires ToldOrDue(l, won) && (step.FinishDownload? || step.Receive? || step.RejectLocally?)
    ensures ToldOrDue(Next(l, step), won + WonBy(l, step))
  {
    OperationReports(l, step);
    WinIsDue(l, step);
  }

  lemma WinIsDue(l: Life, step: Step)
    requires step.FinishDownload? || step.Receive? || step.RejectLocally?
    ensures forall f, k :: (f, k) in WonBy(l, step) ==> FileEnded(f, k) in Next(l, step).deciding
    ensures l.deciding <= Next(l, step).deciding
  {
    match step {
      case Receive(g, kind) => ReceiverEnds(l.slot, g, ToldOf(kind));
      case RejectLocally(g) => ReceiverEnds(l.slot, g, RejectedHere);
      case _ =>
    }
  }

  lemma NewsTold(l: Life, won: set<(FileId, FileTerminal)>, step: Step)
    requires ToldOrDue(l, won) && (step.Announce? || step.EmitClosing?)
    ensures ToldOrDue(Next(l, step), won)
  {
    var event := if step.Announce? then step.event else E.Queued;
    forall f
      ensures Ends(Next(l, step).log, f) == Ends(l.log, f)
    {
      NewsReports(l, event, f);
    }
  }

  lemma QuietTold(l: Life, won: set<(FileId, FileTerminal)>, step: Step)
    requires RowInv(l) && ToldOrDue(l, won) && !step.Restart? && !step.EmitEnd? && !step.Touch? && !step.Announce?
    requires !step.EmitClosing? && !step.FinishDownload? && !step.Receive? && !step.RejectLocally?
    ensures ToldOrDue(Next(l, step), won) && WonBy(l, step) == {}
  {
    if l.slot.row.Some? {
      QuietKeeps(l, step);
    }
  }

  lemma QuietKeeps(l: Life, step: Step)
    requires l.slot.row.Some? && !step.Restart? && !step.EmitEnd? && !step.Touch? && !step.Announce?
    requires !step.EmitClosing? && !step.FinishDownload? && !step.Receive? && !step.RejectLocally?
    ensures var l' := Next(l, step); l'.deciding == l.deciding && l'.log == l.log && l'.txs == l.txs
  {
    match step {
      case Register(_, _, _, _) => RegisterReports(l, step);
      case BeginDownload(_, _) => OperationReports(l, step);
      case Cancel => ClosingReports(l, step);
      case RemoveWith(_) => ClosingReports(l, step);
      case Disconnect => ClosingReports(l, step);
      case RecordEnd(_, _) => NoteReports(l, step);
      case RecordClosing => NoteReports(l, step);
      case Purge => NoteReports(l, step);
      case _ => JobReports(l, step);
    }
  }

  lemma StepTold(l: Life, won: set<(FileId, FileTerminal)>, step: Step)
    requires RowInv(l) && ToldOrDue(l, won) && !step.Restart?
    ensures ToldOrDue(Next(l, step), won + WonBy(l, step))
  {
    assert won + {} == won;
    match step {
      case EmitEnd(r) => EmitTold(l, won, r);
      case Touch(g, op) => TouchTold(l, won, g, op);
      case Announce(_) => NewsTold(l, won, step);
      case EmitClosing => NewsTold(l, won, step);
      case FinishDownload(_, _) => WinTold(l, won, step);
      case Receive(_, _) => WinTold(l, won, step);
      case RejectLocally(_) => WinTold(l, won, step);
      case _ => QuietTold(l, won, step);
    }
  }

  lemma {:induction false} RunTold(l: Life, won: set<(FileId, FileTerminal)>, steps: seq<Step>)
    requires Inv(l) && ToldOrDue(l, won) && NoRestart(steps)
    ensures ToldOrDue(Live(l, steps), won + Wins(l, steps))
    decreases |steps|
  {
    if steps == [] {
      assert won + {} == won;
    } else {
      StepInv(l, steps[0]);
      StepTold(l, won, steps[0]);
      RunTold(Next(l, steps[0]), won + WonBy(l, steps[0]), steps[1..]);
      assert won + WonBy(l, steps[0]) + Wins(Next(l, steps[0]), steps[1..]) == won + Wins(l, steps);
    }
  }

  /** While the process lives, every file that was ended has been reported as ended or its report, of that very kind,
      is due. */
  lemma EveryEndIsTold(steps: seq<Step>, f: FileId, k: FileTerminal)
    requires NoRestart(steps) && (f, k) in Wins(Unborn(0), steps)
    ensures var l := Live(Unborn(0), steps); FileEnded(f, k) in l.deciding || Ends(l.log, f) > 0
  {
    RunTold(Unborn(0), {}, steps);
    assert {} + Wins(Unborn(0), steps) == Wins(Unborn(0), steps);
  }

  // ----- Nothing is told that did not happen

  /** The ends named by calls: those that were won, and those of jobs that finished. */
  function NamedBy(l: Life, step: Step): set<(FileId, FileTerminal)> {
    WonBy(l, step) + match step
                     case FinishDownload(f, success) => {(f, if success then Completed else Failed)}
                     case _ => {}
  }

  function Named(l: Life, steps: seq<Step>): set<(FileId, FileTerminal)>
    decreases |steps|
  {
    if steps == [] then {} else NamedBy(l, steps[0]) + Named(Next(l, steps[0]), steps[1..])
  }

  lemma OperationNames(l: Life, step: Step, f: FileId, k: FileTerminal)
    requires Operates(step)
    ensures Told(Next(l, step), f, k) ==> Told(l, f, k) || (f, k) in NamedBy(l, step)
  {
    match step {
      case Receive(g, kind) => ReceiverEnds(l.slot, g, ToldOf(kind));
      case RejectLocally(g) => ReceiverEnds(l.slot, g, RejectedHere);
      case _ =>
    }
  }

  lemma OtherNames(l: Life, step: Step, f: FileId, k: FileTerminal)
    requires !Operates(step)
    ensures Told(Next(l, step), f, k) ==> Told(l, f, k)
  {
    match step {
      case Restart => RestartNames(l, f, k);
      case RecordEnd(_, _) => NoteReports(l, step);
      case RecordClosing => NoteReports(l, step);
      case Purge => NoteReports(l, step);
      case Cancel => ClosingReports(l, step);
      case RemoveWith(_) => ClosingReports(l, step);
      case Disconnect => ClosingReports(l, step);
      case _ => AsideNames(l, step, f, k);
    }
  }

  lemma RestartNames(l: Life, f: FileId, k: FileTerminal)
    ensures Told(Restarting(l), f, k) ==> Told(l, f, k)
  {
  }

  lemma AsideNames(l: Life, step: Step, f: FileId, k: FileTerminal)
    requires Aside(step) || step.Register?
    ensures Told(Next(l, step), f, k) ==> Told(l, f, k)
  {
  }

  lemma StepNames(l: Life, step: Step, f: FileId, k: FileTerminal)
    ensures Told(Next(l, step), f, k) ==> Told(l, f, k) || (f, k) in NamedBy(l, step)
  {
    if Operates(step) {
      OperationNames(l, step, f, k);
    } else {
      OtherNames(l, step, f, k);
    }
  }

  lemma {:induction false} RunNames(l: Life, steps: seq<Step>, f: FileId, k: FileTerminal)
    ensures Told(Live(l, steps), f, k) ==> Told(l, f, k) || (f, k) in Named(l, steps)
    decreases |steps|
  {
    if steps != [] {
      StepNames(l, steps[0], f, k);
      RunNames(Next(l, steps[0]), steps[1..], f, k);
    }
  }

  /** Over any life, restarts included: a file is reported as ended in a way only when a call that won, or a job that
      finished, named that way. */
  lemma ToldIsNamed(steps: seq<Step>, f: FileId, k: FileTerminal)
    ensures FileEnded(f, k) in Live(Unborn(0), steps).log ==> (f, k) in Named(Unborn(0), steps)
  {
    RunNames(Unborn(0), steps, f, k);
  }

  // ----- The entry stays with its peer

  lemma StepKeepsPeer(l: Life, step: Step)
    requires l.slot.row.Some? && Next(l, step).collections == l.collections
    ensures var row' := Next(l, step).slot.row;
            row'.Some? && row'.value.peer == l.slot.row.value.peer && row'.value.paths == l.slot.row.value.paths
  {
    if Operates(step) {
      OperationKeeps(l, step);
    } else if Aside(step) {
      AsideKeepsSlot(l, step);
    } else if Notes(step) {
      NotesKeepMemory(l, step);
    } else if step.Register? {
      RegisterKeeps(l, step);
    } else if Leaves(step) {
      LeavingKeeps(l, step);
    } else {
      RestartKeeps(l);
    }
  }

  lemma {:induction false} RowKeepsPeer(l: Life, steps: seq<Step>)
    requires l.slot.row.Some? && Live(l, steps).collections == l.collections
    ensures var row' := Live(l, steps).slot.row;
            row'.Some? && row'.value.peer == l.slot.row.value.peer && row'.value.paths == l.slot.row.value.paths
    decreases |steps|
  {
    if steps != [] {
      CollectionsRise(Next(l, steps[0]), steps[1..]);
      StepCollects(l, steps[0]);
      StepKeepsPeer(l, steps[0]);
      RowKeepsPeer(Next(l, steps[0]), steps[1..]);
    }
  }

  /** As long as its row is not collected, an entry has the peer and the files it was registered with, restarts and
      requests of others included. */
  lemma EntryKeepsPeer(before: seq<Step>, after: seq<Step>)
    requires var l := Live(Unborn(0), before);
             l.slot.mem.Some? && Live(l, after).slot.mem.Some? && Live(l, after).collections == l.collections
    ensures var l := Live(Unborn(0), before);
            var mem, mem' := l.slot.mem.value, Live(l, after).slot.mem.value;
            mem'.peer == mem.peer && mem'.sizes == mem.sizes && mem'.files.Keys == mem.files.Keys
  {
    LiveInv(Unborn(0), before);
    var l := Live(Unborn(0), before);
    LiveInv(l, after);
    RowKeepsPeer(l, after);
  }

  /** After such a step the entry holds no connection. */
  predicate Detaches(step: Step) {
    step.Disconnect? || step.Cancel? || step.RemoveWith? || step.Restart?
  }

  predicate Brings(step: Step, mem: I.InMem) {
    step.Register? && step.peer == mem.peer && step.sizes == mem.sizes && Some(step.conn) == mem.conn
  }

  /** Step `i` is a request of this peer for these files that brought the connection, and nothing took it since. */
  predicate BroughtAt(steps: seq<Step>, i: nat, mem: I.InMem) {
    i < |steps| && Brings(steps[i], mem) && forall j :: i < j < |steps| ==> !Detaches(steps[j])
  }

  predicate HeldStill(s: I.InSlot, mem: I.InMem) {
    s.mem.Some? && s.mem.value.peer == mem.peer && s.mem.value.sizes == mem.sizes && s.mem.value.conn == mem.conn
  }

  lemma RegisterBrings(l: Life, step: Step)
    requires step.Register? && Next(l, step).slot.mem.Some? && Next(l, step).slot.mem.value.conn.Some?
    ensures Brings(step, Next(l, step).slot.mem.value) || HeldStill(l.slot, Next(l, step).slot.mem.value)
  {
    if l.slot.mem.Some? {
      RegistrationRefusedIff(l.slot, step.peer, step.sizes, step.conn, step.oldConnClosed);
    }
  }

  lemma DetachingDetaches(l: Life, step: Step)
    requires Detaches(step) && (step.Cancel? ==> l.slot.mem.Some? && l.slot.mem.value.state != Canceled)
    ensures Next(l, step).slot.mem.Some? ==> Next(l, step).slot.mem.value.conn.None?
  {
    if step.Cancel? {
      ReceiverCancels(l.slot);
    }
  }

  /** A cancelled entry holds no connection. */
  ghost predicate CanceledIsDetached(s: I.InSlot) {
    s.mem.Some? && s.mem.value.state == Canceled ==> s.mem.value.conn.None?
  }

  lemma RegisterStaysDetached(l: Life, step: Step)
    requires CanceledIsDetached(l.slot) && step.Register?
    ensures CanceledIsDetached(Next(l, step).slot)
  {
  }

  lemma LeavingStaysDetached(l: Life, step: Step)
    requires CanceledIsDetached(l.slot) && (Leaves(step) || step.Restart?)
    ensures CanceledIsDetached(Next(l, step).slot)
  {
  }

  lemma OperationStaysDetached(l: Life, step: Step)
    requires CanceledIsDetached(l.slot) && Operates(step)
    ensures CanceledIsDetached(Next(l, step).slot)
  {
    OperationSlot(l, step);
    match step {
      case FinishDownload(g, success) => ReceiverEnds(l.slot, g, Finished(success));
      case Receive(g, kind) => ReceiverEnds(l.slot, g, ToldOf(kind));
      case RejectLocally(g) => ReceiverEnds(l.slot, g, RejectedHere);
      case BeginDownload(g, dir) => DownloadStarts(l.slot, g, dir);
      case _ =>
    }
  }

  lemma StepStaysDetached(l: Life, step: Step)
    requires CanceledIsDetached(l.slot)
    ensures CanceledIsDetached(Next(l, step).slot)
  {
    if Operates(step) {
      OperationStaysDetached(l, step);
    } else if Aside(step) {
      AsideKeepsSlot(l, step);
    } else if Notes(step) {
      NotesKeepMemory(l, step);
    } else if step.Register? {
      RegisterStaysDetached(l, step);
    } else {
      LeavingStaysDetached(l, step);
    }
  }

  lemma StepBrings(l: Life, step: Step)
    requires CanceledIsDetached(l.slot) && Next(l, step).slot.mem.Some? && Next(l, step).slot.mem.value.conn.Some?
    ensures var mem := Next(l, step).slot.mem.value;
            !Detaches(step) && (Brings(step, mem) || HeldStill(l.slot, mem))
  {
    if Detaches(step) {
      StepStaysDetached(l, step);
      CancelRefused(l, step);
      DetachingDetaches(l, step);
    } else if Operates(step) {
      OperationKeeps(l, step);
    } else if Aside(step) {
      AsideKeepsSlot(l, step);
    } else if Notes(step) {
      NotesKeepMemory(l, step);
    } else {
      RegisterBrings(l, step);
    }
  }

  lemma CancelRefused(l: Life, step: Step)
    requires CanceledIsDetached(l.slot) && Next(l, step).slot.mem.Some? && Next(l, step).slot.mem.value.conn.Some?
    ensures step.Cancel? ==> l.slot.mem.Some? && l.slot.mem.value.state != Canceled
  {
    if step.Cancel? {
      ReceiverCancels(l.slot);
    }
  }

  lemma {:induction false} RunBrings(l: Life, steps: seq<Step>)
    requires CanceledIsDetached(l.slot) && Live(l, steps).slot.mem.Some? && Live(l, steps).slot.mem.value.conn.Some?
    ensures var mem := Live(l, steps).slot.mem.value;
            || (exists i: nat :: BroughtAt(steps, i, mem))
            || (HeldStill(l.slot, mem) && forall j :: 0 <= j < |steps| ==> !Detaches(steps[j]))
    decreases |steps|
  {
    if steps != [] {
      var l1, mem := Next(l, steps[0]), Live(l, steps).slot.mem.value;
      StepStaysDetached(l, steps[0]);
      RunBrings(l1, steps[1..]);
      if i: nat :| BroughtAt(steps[1..], i, mem) {
        BroughtLater(steps, i, mem);
      } else {
        StepBrings(l, steps[0]);
        assert forall j :: 0 < j < |steps| ==> steps[j] == steps[1..][j - 1];
        if Brings(steps[0], mem) {
          assert BroughtAt(steps, 0, mem);
        }
      }
    }
  }

  lemma BroughtLater(steps: seq<Step>, i: nat, mem: I.InMem)
    requires steps != [] && BroughtAt(steps[1..], i, mem)
    ensures BroughtAt(steps, i + 1, mem)
  {
    forall j | i + 1 < j < |steps|
      ensures !Detaches(steps[j])
    {
      assert steps[j] == steps[1..][j - 1];
    }
  }

  /** Over any life, the connection the entry holds was brought by a request of the entry's own peer for exactly the
      entry's files, and since then nothing disconnected, cancelled, removed or restarted the transfer. */
  lemma ConnectionIsThePeers(steps: seq<Step>)
    ensures var s := Live(Unborn(0), steps).slot;
            s.mem.Some? && s.mem.value.conn.Some? ==> exists i: nat :: BroughtAt(steps, i, s.mem.value)
  {
    var s := Live(Unborn(0), steps).slot;
    if s.mem.Some? && s.mem.value.conn.Some? {
      RunBrings(Unborn(0), steps);
    }
  }

  // ----- Cancelling is reported, and what was reported can be collected

  ghost predicate ClosingDue(l: Life) {
    && (l.slot.row.None? ==> l == Unborn(l.collections))
    && (l.slot.mem.Some? && l.slot.mem.value.state != Canceled ==> l.closers == [] && l.xtx == Some(E.Ongoing))
    && (l.slot.mem.Some? && l.slot.mem.value.state == Canceled ==> CancelReported(l))
  }

  /** The cancellation by this side is about to be reported, or has been. */
  ghost predicate CancelReported(l: Life) {
    || (l.closers == [E.CanceledBy(false)] && l.xtx == Some(E.Ongoing))
    || (l.closers == [] && Transfer(E.CanceledBy(false)) in l.log)
  }

  lemma StepClosingDue(l: Life, step: Step)
    requires ClosingDue(l) && !step.Restart? && !step.EmitClosing? && !step.Cancel?
    ensures ClosingDue(Next(l, step))
  {
    if Operates(step) {
      OperationClosingDue(l, step);
    } else if Aside(step) {
      AsideClosingDue(l, step);
    } else if Notes(step) {
      NotesClosingDue(l, step);
    } else if step.Register? {
      RegisterClosingDue(l, step);
    } else {
      LeavingClosingDue(l, step);
    }
  }

  lemma OperationClosingDue(l: Life, step: Step)
    requires ClosingDue(l) && Operates(step)
    ensures ClosingDue(Next(l, step))
  {
    match step {
      case FinishDownload(g, success) => ReceiverEnds(l.slot, g, Finished(success));
      case Receive(g, kind) => ReceiverEnds(l.slot, g, ToldOf(kind));
      case RejectLocally(g) => ReceiverEnds(l.slot, g, RejectedHere);
      case BeginDownload(g, dir) => DownloadStarts(l.slot, g, dir);
      case _ =>
    }
    OperationKeeps(l, step);
  }

  lemma AsideClosingDue(l: Life, step: Step)
    requires ClosingDue(l) && Aside(step) && !step.EmitClosing?
    ensures ClosingDue(Next(l, step))
  {
  }

  lemma NotesClosingDue(l: Life, step: Step)
    requires ClosingDue(l) && Notes(step)
    ensures ClosingDue(Next(l, step))
  {
  }

  lemma RegisterClosingDue(l: Life, step: Step)
    requires ClosingDue(l) && step.Register?
    ensures ClosingDue(Next(l, step))
  {
  }

  lemma LeavingClosingDue(l: Life, step: Step)
    requires ClosingDue(l) && Leaves(step) && !step.Cancel?
    ensures ClosingDue(Next(l, step))
  {
  }

  lemma ClosingDueKept(l: Life, step: Step)
    requires ClosingDue(l) && (step.EmitClosing? || step.Cancel?)
    ensures ClosingDue(Next(l, step))
  {
    if step.Cancel? {
      ReceiverCancels(l.slot);
    }
  }

  lemma {:induction false} RunClosingDue(l: Life, steps: seq<Step>)
    requires ClosingDue(l) && NoRestart(steps)
    ensures ClosingDue(Live(l, steps))
    decreases |steps|
  {
    if steps != [] {
      if steps[0].EmitClosing? || steps[0].Cancel? {
        ClosingDueKept(l, steps[0]);
      } else {
        StepClosingDue(l, steps[0]);
      }
      RunClosingDue(Next(l, steps[0]), steps[1..]);
    }
  }

  /** While the process lives, a transfer that is cancelled has been reported as cancelled by this side, or the report
      is the one that is due. */
  lemma CancelIsReported(steps: seq<Step>)
    requires NoRestart(steps)
    ensures var l := Live(Unborn(0), steps);
            l.slot.mem.Some? && l.slot.mem.value.state == Canceled ==> CancelReported(l)
  {
    RunClosingDue(Unborn(0), steps);
  }

  /** A transfer in use that the peer closes is reported so by the next closing event. */
  lemma RemovalIsReported(steps: seq<Step>)
    requires NoRestart(steps)
    requires I.Usable(Live(Unborn(0), steps).slot)
    ensures var l := Live(Unborn(0), steps);
            && EmittingClosing(Removing(l, true)).log == l.log + [Transfer(E.CanceledBy(true))]
            && Removing(l, true).slot.mem.None?
  {
    RunClosingDue(Unborn(0), steps);
    RemovedReports(Live(Unborn(0), steps));
  }

  lemma RemovedReports(l: Life)
    requires ClosingDue(l) && I.Usable(l.slot)
    ensures EmittingClosing(Removing(l, true)).log == l.log + [Transfer(E.CanceledBy(true))]
    ensures Removing(l, true).slot.mem.None?
  {
  }

  /** A removed transfer whose closing was reported goes away for good: recorded and purged, it is collected at the
      next start, and its id is new again. */
  lemma PurgedIsCollected(steps: seq<Step>, peer: Peer, sizes: map<FileId, nat>, conn: ConnId)
    requires var l := Live(Unborn(0), steps); Removed(l) && l.slot.row.value.sync.None? && Closings(l.log) > 0
    ensures var l := Live(Unborn(0), steps);
            var again := Restarting(Purging(RecordingClosing(l)));
            && again == Unborn(l.collections + 1)
            && I.Register(again.slot, peer, sizes, conn, false).result == Ok(true)
  {
    CollectedForGood(Live(Unborn(0), steps));
    UnbornRegisters(Live(Unborn(0), steps).collections + 1, peer, sizes, conn);
  }

  lemma CollectedForGood(l: Life)
    requires Removed(l) && l.slot.row.value.sync.None? && Closings(l.log) > 0
    ensures Restarting(Purging(RecordingClosing(l))) == Unborn(l.collections + 1)
  {
    MarkedForGood(l);
    RestartKeeps(Purging(RecordingClosing(l)));
  }

  lemma UnbornRegisters(collections: nat, peer: Peer, sizes: map<FileId, nat>, conn: ConnId)
    ensures I.Register(Unborn(collections).slot, peer, sizes, conn, false).result == Ok(true)
  {
  }

  lemma MarkedForGood(l: Life)
    requires Removed(l) && l.slot.row.value.sync.None? && Closings(l.log) > 0
    ensures var l' := Purging(RecordingClosing(l));
            && l'.collections == l.collections && l'.slot.row.Some?
            && l'.slot.row.value.isDeleted && l'.slot.row.value.sync.None?
  {
  }
}
