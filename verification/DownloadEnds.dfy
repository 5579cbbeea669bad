/** How often a download is reported as ended. Unlike an upload it can be reported twice: a job whose connection is
    gone ends the file and reports it, the job that was started for the same file on the next connection prepares,
    which forgets that end, and reports another one although the manager refuses it. */
module DownloadEnds {
  import opened Base
  import opened Storage
  import opened Agreement
  import opened Reports
  import opened DownloadLife
  import I = Incoming
  import E = Events

  // ----- The reports of one process are what the calls on the file's event handle emit

  /** The call on the file's event handle that a step makes, if any. */
  function CallOf(l: Life, step: Step, f: FileId): seq<E.FileOp> {
    match step
    case Touch(g, op) => if g == f && f in l.txs && Harmless(op) then [op] else []
    case EmitEnd(r) => if r in l.deciding && r.FileEnded? && r.file == f && f in l.txs then [E.End(r.kind)] else []
    case _ => []
  }

  function Calls(l: Life, steps: seq<Step>, f: FileId): seq<E.FileOp>
    decreases |steps|
  {
    if steps == [] then [] else CallOf(l, steps[0], f) + Calls(Next(l, steps[0]), steps[1..], f)
  }

  predicate NoRestart(steps: seq<Step>) {
    forall i :: 0 <= i < |steps| ==> !steps[i].Restart?
  }

  lemma EmittedByOne(state: E.FileTx, op: E.FileOp)
    ensures E.EmittedByAll(state, [op]) == E.Emitted(state, op)
    ensures E.StateAfterAll(state, [op]) == E.StateAfter(state, op)
  {
  }

  lemma {:induction false} EmittedConcat(state: E.FileTx, a: seq<E.FileOp>, b: seq<E.FileOp>)
    ensures E.EndEvents(E.EmittedByAll(state, a + b))
         == E.EndEvents(E.EmittedByAll(state, a)) + E.EndEvents(E.EmittedByAll(E.StateAfterAll(state, a), b))
    ensures E.StateAfterAll(state, a + b) == E.StateAfterAll(E.StateAfterAll(state, a), b)
    decreases |a|
  {
    if a == [] {
      assert a + b == b;
    } else {
      assert (a + b)[1..] == a[1..] + b;
      EmittedConcat(E.StateAfter(state, a[0]), a[1..], b);
      E.EndEventsConcat(E.Emitted(state, a[0]), E.EmittedByAll(E.StateAfter(state, a[0]), a[1..]));
      E.EndEventsConcat(E.Emitted(state, a[0]), E.EmittedByAll(E.StateAfter(state, a[0]), a[1..] + b));
    }
  }

  lemma EndEmitsOne(state: E.FileTx, kind: FileTerminal)
    ensures E.EndEvents(E.Emitted(state, E.End(kind))) == if state == E.Ended then 0 else 1
  {
    if state != E.Ended {
      assert E.Emitted(state, E.End(kind)) == [E.EndedAs(kind)];
      assert E.EndEvents([E.EndedAs(kind)][1..]) == 0;
    }
  }

  /** Between two states, `calls` were made on the file's handle and reported. */
  ghost predicate Reported(l: Life, l': Life, calls: seq<E.FileOp>, f: FileId) {
    && f in l.txs && f in l'.txs
    && l'.txs[f] == E.StateAfterAll(l.txs[f], calls)
    && Ends(l'.log, f) == Ends(l.log, f) + E.EndEvents(E.EmittedByAll(l.txs[f], calls))
  }

  lemma TouchReports(l: Life, g: FileId, op: E.FileOp, f: FileId)
    requires f in l.txs
    ensures Reported(l, Touching(l, g, op), CallOf(l, Touch(g, op), f), f)
  {
    Appended(l.log, FileNews(g), f);
    EmittedByOne(l.txs[f], op);
    if Harmless(op) {
      E.NoEndEmitted(l.txs[f], op);
    }
  }

  lemma EndReports(l: Life, r: Report, f: FileId)
    requires f in l.txs
    ensures Reported(l, EmittingEnd(l, r), CallOf(l, EmitEnd(r), f), f)
  {
    Appended(l.log, r, f);
    if r.FileEnded? {
      EmittedByOne(l.txs[f], E.End(r.kind));
      EndEmitsOne(l.txs[f], r.kind);
    }
  }

  lemma NewsReports(l: Life, event: E.TransferEvent, f: FileId)
    ensures Announcing(l, event).txs == l.txs && EmittingClosing(l).txs == l.txs
    ensures Ends(Announcing(l, event).log, f) == Ends(l.log, f)
    ensures Ends(EmittingClosing(l).log, f) == Ends(l.log, f)
  {
    Appended(l.log, Transfer(event), f);
    if l.closers != [] {
      Appended(l.log, Transfer(l.closers[0]), f);
    }
  }

  lemma RegisterReports(l: Life, step: Step)
    requires l.slot.row.Some? && step.Register?
    ensures Next(l, step).txs == l.txs && Next(l, step).log == l.log
  {
  }

  lemma OperationReports(l: Life, step: Step)
    requires step.Receive? || step.RejectLocally? || step.FinishDownload? || step.BeginDownload?
    ensures Next(l, step).txs == l.txs && Next(l, step).log == l.log
  {
  }

  lemma ClosingReports(l: Life, step: Step)
    requires step.Cancel? || step.RemoveWith? || step.Disconnect?
    ensures Next(l, step).txs == l.txs && Next(l, step).log == l.log
  {
  }

  lemma NoteReports(l: Life, step: Step)
    requires step.RecordEnd? || step.RecordClosing? || step.Purge?
    ensures Next(l, step).txs == l.txs && Next(l, step).log == l.log
  {
  }

  lemma JobReports(l: Life, step: Step)
    requires step.StartJob? || step.AbortJob? || step.DropRequest?
    ensures Next(l, step).txs == l.txs && Next(l, step).log == l.log
  {
  }

  /** The other steps leave the files' handles and what was reported about files alone. */
  lemma OtherReports(l: Life, step: Step, f: FileId)
    requires l.slot.row.Some? && f in l.txs
    requires !step.Restart? && !step.Touch? && !step.EmitEnd?
    ensures Next(l, step).txs == l.txs && Ends(Next(l, step).log, f) == Ends(l.log, f)
  {
    match step {
      case Announce(event) => NewsReports(l, event, f);
      case EmitClosing => NewsReports(l, E.Queued, f);
      case Register(_, _, _, _) => RegisterReports(l, step);
      case Receive(_, _) => OperationReports(l, step);
      case RejectLocally(_) => OperationReports(l, step);
      case FinishDownload(_, _) => OperationReports(l, step);
      case BeginDownload(_, _) => OperationReports(l, step);
      case Cancel => ClosingReports(l, step);
      case RemoveWith(_) => ClosingReports(l, step);
      case Disconnect => ClosingReports(l, step);
      case RecordEnd(_, _) => NoteReports(l, step);
      case RecordClosing => NoteReports(l, step);
      case Purge => NoteReports(l, step);
      case _ => JobReports(l, step);
    }
  }

  lemma CallReports(l: Life, step: Step, f: FileId)
    requires RowInv(l) && f in l.txs && !step.Restart?
    ensures Reported(l, Next(l, step), CallOf(l, step, f), f)
  {
    match step {
      case Touch(g, op) => TouchReports(l, g, op, f);
      case EmitEnd(r) => EndReports(l, r, f);
      case _ => OtherReports(l, step, f);
    }
  }

  lemma {:induction false} CallsReport(l: Life, steps: seq<Step>, f: FileId)
    requires Inv(l) && f in l.txs && NoRestart(steps)
    ensures Ends(Live(l, steps).log, f) == Ends(l.log, f) + E.EndEvents(E.EmittedByAll(l.txs[f], Calls(l, steps, f)))
    decreases |steps|
  {
    if steps != [] {
      var l' := Next(l, steps[0]);
      CallReports(l, steps[0], f);
      StepInv(l, steps[0]);
      CallsReport(l', steps[1..], f);
      EmittedConcat(l.txs[f], CallOf(l, steps[0], f), Calls(l', steps[1..], f));
    }
  }

  predicate AllHarmless(calls: seq<E.FileOp>) {
    forall i :: 0 <= i < |calls| && calls[i].EmitFlying? ==> !calls[i].event.EndedAs?
  }

  lemma CallIsHarmless(l: Life, step: Step, f: FileId)
    ensures AllHarmless(CallOf(l, step, f))
  {
  }

  lemma HarmlessConcat(a: seq<E.FileOp>, b: seq<E.FileOp>)
    requires AllHarmless(a) && AllHarmless(b)
    ensures AllHarmless(a + b)
  {
  }

  lemma {:induction false} CallsAreHarmless(l: Life, steps: seq<Step>, f: FileId)
    ensures AllHarmless(Calls(l, steps, f))
    decreases |steps|
  {
    if steps != [] {
      CallIsHarmless(l, steps[0], f);
      CallsAreHarmless(Next(l, steps[0]), steps[1..], f);
      HarmlessConcat(CallOf(l, steps[0], f), Calls(Next(l, steps[0]), steps[1..], f));
    }
  }

  /** While a process lives, a download that was reported as ended is reported again exactly when a later call on
      its event handle forgets the end and a still later one ends it. */
  lemma ReportedAgainIff(before: seq<Step>, steps: seq<Step>, f: FileId)
    requires NoRestart(steps)
    requires var l := Live(Unborn(0), before); f in l.txs && l.txs[f] == E.Ended
    ensures var l := Live(Unborn(0), before);
            Ends(Live(l, steps).log, f) > Ends(l.log, f) <==> E.EndsAgain(Calls(l, steps, f))
  {
    LiveInv(Unborn(0), before);
    var l := Live(Unborn(0), before);
    CallsReport(l, steps, f);
    CallsAreHarmless(l, steps, f);
    E.SecondEndIff(Calls(l, steps, f));
  }

  // ----- Not after a restart

  /** The file has ended in memory and tables, and nothing is under way that could report it. */
  ghost predicate Settled(l: Life, f: FileId) {
    && l.slot.row.Some? && EndedInTables(l.slot.row, f) && EndedInMemory(l.slot.mem, f)
    && f !in l.requests && f !in l.jobs && NothingPending(l.deciding, f)
  }

  predicate EndedInTables(row: Option<Row>, f: FileId) {
    row.Some? && row.value.sync.Some? ==> f in row.value.sync.value.files && row.value.sync.value.files[f] == Terminal
  }

  predicate EndedInMemory(mem: Option<I.InMem>, f: FileId) {
    mem.Some? ==> f in mem.value.files && mem.value.files[f].InTerminal?
  }

  ghost predicate NothingPending(deciding: multiset<Report>, f: FileId) {
    forall r :: r in deciding && r.FileEnded? ==> r.file != f
  }

  /** The operations leave an ended file ended, and none of them wins it. */
  lemma OperationsSettle(s: I.InSlot, g: FileId, kind: FileTerminal, dir: Dir, f: FileId)
    requires EndedInTables(s.row, f) && EndedInMemory(s.mem, f)
    ensures var a := I.TerminalRecv(s, g, kind);
            EndedInTables(a.slot.row, f) && EndedInMemory(a.slot.mem, f) && (a.result == Ok(true) ==> f != g)
    ensures var a := I.RejectionPost(s, g);
            EndedInTables(a.slot.row, f) && EndedInMemory(a.slot.mem, f) && (a.result == Ok(true) ==> f != g)
    ensures var a := I.StartDownload(s, g, dir);
            EndedInTables(a.slot.row, f) && EndedInMemory(a.slot.mem, f) && (a.pushed != [] ==> f != g)
  {
  }

  lemma FinishSettles(s: I.InSlot, g: FileId, success: bool, f: FileId)
    requires EndedInTables(s.row, f) && EndedInMemory(s.mem, f)
    ensures var a := I.FinishPost(s, g, success); EndedInTables(a.slot.row, f) && EndedInMemory(a.slot.mem, f)
  {
  }

  lemma RowStays(s: I.InSlot, g: FileId, kind: FileTerminal, dir: Dir)
    requires s.row.Some?
    ensures I.TerminalRecv(s, g, kind).slot.row.Some? && I.RejectionPost(s, g).slot.row.Some?
    ensures I.StartDownload(s, g, dir).slot.row.Some?
    ensures I.FinishPost(s, g, true).slot.row.Some? && I.FinishPost(s, g, false).slot.row.Some?
  {
  }

  lemma WinningStaysSettled(l: Life, after: I.InAfter, g: FileId, kind: FileTerminal, f: FileId)
    requires Settled(l, f) && after.slot.row.Some?
    requires EndedInTables(after.slot.row, f) && EndedInMemory(after.slot.mem, f) && (after.result == Ok(true) ==> f != g)
    ensures Settled(Winning(l, after, g, kind), f)
  {
  }

  lemma FinishingStaysSettled(l: Life, g: FileId, kind: FileTerminal, f: FileId)
    requires Settled(l, f) && kind != Rejected
    ensures Settled(Finishing(l, g, kind), f) && Finishing(l, g, kind).log == l.log
  {
    FinishSettles(l.slot, g, kind == Completed, f);
    RowStays(l.slot, g, kind, "");
  }

  lemma BeginStaysSettled(l: Life, g: FileId, dir: Dir, f: FileId)
    requires Settled(l, f)
    ensures Settled(Beginning(l, g, dir), f) && Beginning(l, g, dir).log == l.log
  {
    OperationsSettle(l.slot, g, Failed, dir, f);
    RowStays(l.slot, g, Failed, dir);
  }

  lemma OperationStaysSettled(l: Life, step: Step, f: FileId)
    requires Settled(l, f) && (step.Receive? || step.RejectLocally?)
    ensures Settled(Next(l, step), f) && Next(l, step).log == l.log
  {
    match step {
      case Receive(g, kind) =>
        OperationsSettle(l.slot, g, kind, "", f);
        RowStays(l.slot, g, kind, "");
        WinningStaysSettled(l, I.TerminalRecv(l.slot, g, kind), g, kind, f);
      case RejectLocally(g) =>
        OperationsSettle(l.slot, g, Rejected, "", f);
        RowStays(l.slot, g, Rejected, "");
        WinningStaysSettled(l, I.RejectionPost(l.slot, g), g, Rejected, f);
      case _ =>
    }
  }

  lemma RegisterStaysSettled(l: Life, step: Step, f: FileId)
    requires Settled(l, f) && step.Register?
    ensures Settled(Next(l, step), f) && Next(l, step).log == l.log
  {
  }

  lemma EmitEndStaysSettled(l: Life, r: Report, f: FileId)
    requires Settled(l, f)
    ensures Settled(EmittingEnd(l, r), f) && Ends(EmittingEnd(l, r).log, f) == Ends(l.log, f)
  {
    Appended(l.log, r, f);
    assert forall q :: q in EmittingEnd(l, r).deciding ==> q in l.deciding;
  }

  lemma EmitStaysSettled(l: Life, step: Step, f: FileId)
    requires Settled(l, f) && (step.Touch? || step.Announce? || step.EmitClosing?)
    ensures Settled(Next(l, step), f) && Ends(Next(l, step).log, f) == Ends(l.log, f)
  {
    match step {
      case Touch(g, _) => Appended(l.log, FileNews(g), f);
      case Announce(event) => NewsReports(l, event, f);
      case _ => NewsReports(l, E.Queued, f);
    }
  }

  lemma ClosingStaysSettled(l: Life, step: Step, f: FileId)
    requires Settled(l, f) && (step.Cancel? || step.RemoveWith? || step.Disconnect?)
    ensures Settled(Next(l, step), f) && Next(l, step).log == l.log
  {
  }

  lemma NoteStaysSettled(l: Life, step: Step, f: FileId)
    requires Settled(l, f) && (step.RecordEnd? || step.RecordClosing? || step.Purge?)
    ensures Settled(Next(l, step), f) && Next(l, step).log == l.log
  {
  }

  lemma JobStaysSettled(l: Life, step: Step, f: FileId)
    requires Settled(l, f) && (step.StartJob? || step.AbortJob? || step.DropRequest?)
    ensures Settled(Next(l, step), f) && Next(l, step).log == l.log
  {
  }

  /** An ended file is restored as ended, also in a cancelled transfer. */
  lemma RestoresEnded(row: Option<Row>, f: FileId)
    requires EndedInTables(row, f) && row.Some?
    requires row.value.sync.Some? ==> row.value.paths.Keys == row.value.sync.value.files.Keys
    ensures EndedInMemory(I.Restore(row), f)
  {
    if I.Restore(row).Some? {
      var files := map g | g in row.value.paths :: I.RestoredFile(StateOfFile(row, g).value);
      assert f in row.value.paths.Keys;
      OverlayAt(files, AliveInFlight(row.value.sync.value), f);
    }
  }

  lemma RestartStaysSettled(l: Life, f: FileId)
    requires InAgree(l.slot) && l.slot.row.Some? && !l.slot.row.value.isOutgoing && EndedInTables(l.slot.row, f)
    ensures Restarting(l).collections == l.collections ==> Settled(Restarting(l), f) && Restarting(l).log == l.log
  {
    if Collected(l.slot.row).Some? {
      RestoresEnded(l.slot.row, f);
    }
  }

  lemma StepStaysSettled(l: Life, step: Step, f: FileId)
    requires Inv(l) && Settled(l, f) && Next(l, step).collections == l.collections
    ensures Settled(Next(l, step), f) && Ends(Next(l, step).log, f) == Ends(l.log, f)
  {
    match step {
      case Restart => RestartStaysSettled(l, f);
      case Register(_, _, _, _) => RegisterStaysSettled(l, step, f);
      case Receive(_, _) => OperationStaysSettled(l, step, f);
      case RejectLocally(_) => OperationStaysSettled(l, step, f);
      case FinishDownload(g, success) => FinishingStaysSettled(l, g, if success then Completed else Failed, f);
      case BeginDownload(g, dir) => BeginStaysSettled(l, g, dir, f);
      case EmitEnd(r) => EmitEndStaysSettled(l, r, f);
      case Touch(_, _) => EmitStaysSettled(l, step, f);
      case Announce(_) => EmitStaysSettled(l, step, f);
      case EmitClosing => EmitStaysSettled(l, step, f);
      case Cancel => ClosingStaysSettled(l, step, f);
      case RemoveWith(_) => ClosingStaysSettled(l, step, f);
      case Disconnect => ClosingStaysSettled(l, step, f);
      case RecordEnd(_, _) => NoteStaysSettled(l, step, f);
      case RecordClosing => NoteStaysSettled(l, step, f);
      case Purge => NoteStaysSettled(l, step, f);
      case _ => JobStaysSettled(l, step, f);
    }
  }

  lemma {:induction false} SettledForGood(l: Life, steps: seq<Step>, f: FileId)
    requires Inv(l) && Settled(l, f) && Live(l, steps).collections == l.collections
    ensures Ends(Live(l, steps).log, f) == Ends(l.log, f)
    decreases |steps|
  {
    if steps != [] {
      var l' := Next(l, steps[0]);
      CollectionsRise(l', steps[1..]);
      CollectionsRise(l, [steps[0]]);
      assert Live(l, [steps[0]]) == Live(l', []);
      StepStaysSettled(l, steps[0], f);
      StepInv(l, steps[0]);
      SettledForGood(l', steps[1..], f);
    }
  }

  lemma {:induction false} EndInLog(log: seq<Report>, f: FileId) returns (kind: FileTerminal)
    requires Ends(log, f) > 0
    ensures FileEnded(f, kind) in log
  {
    var last := log[|log| - 1];
    if last.FileEnded? && last.file == f {
      kind := last.kind;
    } else {
      kind := EndInLog(log[..|log| - 1], f);
    }
  }

  lemma ReportedIsEnded(l: Life, f: FileId)
    requires InAgree(l.slot) && EndInv(l) && I.Usable(l.slot) && f in l.slot.mem.value.files && Ends(l.log, f) > 0
    ensures EndedInTables(l.slot.row, f) && l.slot.row.value.sync.Some?
  {
    var kind := EndInLog(l.log, f);
    assert Told(l, f, kind);
    assert InFileAgrees(l.slot.mem.value.files[f], f, l.slot.row.value.sync.value, l.slot.row.value.recorded);
  }

  lemma RestartSettles(l: Life, f: FileId)
    requires Inv(l) && I.Usable(l.slot) && f in l.slot.mem.value.files && Ends(l.log, f) > 0
    ensures Settled(Restarting(l), f) && Restarting(l).log == l.log && Restarting(l).collections == l.collections
  {
    ReportedIsEnded(l, f);
    RestartStaysSettled(l, f);
  }

  lemma SilentAfterRestart(l: Life, after: seq<Step>, f: FileId)
    requires Inv(l) && I.Usable(l.slot) && f in l.slot.mem.value.files && Ends(l.log, f) > 0
    requires Live(Restarting(l), after).collections == l.collections
    ensures Ends(Live(Restarting(l), after).log, f) == Ends(l.log, f)
  {
    RestartSettles(l, f);
    RestartInv(l);
    SettledForGood(Restarting(l), after, f);
  }

  /** A restart of a transfer in use puts an end to it: a download reported as ended before is never reported again,
      whatever follows, until the transfer's row is collected. */
  lemma {:induction false} NotAgainAfterRestart(before: seq<Step>, after: seq<Step>, f: FileId)
    requires var l := Live(Unborn(0), before);
             && I.Usable(l.slot) && f in l.slot.mem.value.files && Ends(l.log, f) > 0
             && Live(Restarting(l), after).collections == l.collections
    ensures var l := Live(Unborn(0), before);
            Ends(Live(Restarting(l), after).log, f) == Ends(l.log, f)
  {
    LiveInv(Unborn(0), before);
    SilentAfterRestart(Live(Unborn(0), before), after, f);
  }

  // ----- The code can do it

  /** File "a" of a transfer in use, as downloads see it; the numbers count what is queued and running for it. */
  ghost predicate Stands(l: Life, file: I.InFile, requests: nat, jobs: nat, pending: seq<Report>, tx: E.FileTx, log: seq<Report>) {
    && l.slot.mem.Some? && l.slot.mem.value.state == Active
    && l.slot.mem.value.files == map["a" := file] && l.slot.mem.value.peer == "p" && l.slot.mem.value.sizes == map["a" := 1]
    && l.requests["a"] == requests && l.jobs["a"] == jobs
    && l.deciding == multiset(pending) && l.txs == map["a" := tx] && l.log == log
  }

  lemma Registers(l: Life)
    requires l == Unborn(0)
    ensures Stands(Next(l, Register("p", map["a" := 1], 1, false)), I.Idle, 0, 0, [], E.Idle, [])
    ensures Next(l, Register("p", map["a" := 1], 1, false)).slot.mem.value.conn.Some?
  {
  }

  lemma Begins(l: Life)
    requires Stands(l, I.Idle, 0, 0, [], E.Idle, []) && l.slot.mem.value.conn.Some?
    ensures Stands(Next(l, BeginDownload("a", "d")), I.InFlight("d"), 1, 0, [], E.Idle, [])
  {
  }

  lemma Starts(l: Life, file: I.InFile, requests: nat, jobs: nat, pending: seq<Report>, tx: E.FileTx, log: seq<Report>)
    requires Stands(l, file, requests, jobs, pending, tx, log) && requests > 0
    ensures Stands(Next(l, StartJob("a")), file, requests - 1, jobs + 1, pending, tx, log)
  {
  }

  lemma Reconnects(l: Life)
    requires Stands(l, I.InFlight("d"), 0, 1, [], E.Idle, [])
    ensures Stands(Next(Next(l, Disconnect), Register("p", map["a" := 1], 2, false)), I.InFlight("d"), 1, 1, [], E.Idle, [])
  {
    var l1 := Next(l, Disconnect);
    assert (set f | f in l1.slot.mem.value.files && l1.slot.mem.value.files[f].InFlight?) == {"a"};
  }

  /** Whatever state the manager has the file in. */
  lemma Finishes(l: Life, file: I.InFile, requests: nat, jobs: nat, tx: E.FileTx, log: seq<Report>)
    requires Stands(l, file, requests, jobs, [], tx, log) && jobs > 0
    requires file == I.InTerminal(Completed) || file.InFlight?
    ensures Stands(Next(l, FinishDownload("a", true)), I.InTerminal(Completed), requests, jobs - 1, [FileEnded("a", Completed)], tx, log)
  {
    assert multiset([FileEnded("a", Completed)]) == multiset{FileEnded("a", Completed)};
  }

  lemma Tells(l: Life, file: I.InFile, requests: nat, jobs: nat, tx: E.FileTx, log: seq<Report>)
    requires Stands(l, file, requests, jobs, [FileEnded("a", Completed)], tx, log) && tx != E.Ended
    ensures Stands(Next(l, EmitEnd(FileEnded("a", Completed))), file, requests, jobs, [], E.Ended, log + [FileEnded("a", Completed)])
  {
    assert multiset([FileEnded("a", Completed)]) == multiset{FileEnded("a", Completed)};
  }

  lemma Prepares(l: Life, file: I.InFile, requests: nat, jobs: nat, tx: E.FileTx, log: seq<Report>)
    requires Stands(l, file, requests, jobs, [], tx, log)
    ensures Stands(Next(l, Touch("a", E.Prepare)), file, requests, jobs, [], E.Preflight, log)
  {
  }

  lemma {:induction false} LiveOneMore(l: Life, steps: seq<Step>, step: Step)
    ensures Live(l, steps + [step]) == Next(Live(l, steps), step)
    decreases |steps|
  {
    if steps == [] {
      assert ([] + [step])[1..] == [];
    } else {
      assert (steps + [step])[1..] == steps[1..] + [step];
      LiveOneMore(Next(l, steps[0]), steps[1..], step);
    }
  }

  /** The first connection's job is still running when the second connection is registered. */
  lemma Overlapping() returns (steps: seq<Step>)
    ensures Stands(Live(Unborn(0), steps), I.InFlight("d"), 1, 1, [], E.Idle, [])
  {
    var l := Unborn(0);
    Registers(l);
    var s1 := [] + [Register("p", map["a" := 1], 1, false)];
    LiveOneMore(l, [], s1[0]);
    Begins(Live(l, s1));
    var s2 := s1 + [BeginDownload("a", "d")];
    LiveOneMore(l, s1, BeginDownload("a", "d"));
    Starts(Live(l, s2), I.InFlight("d"), 1, 0, [], E.Idle, []);
    var s3 := s2 + [StartJob("a")];
    LiveOneMore(l, s2, StartJob("a"));
    Reconnects(Live(l, s3));
    LiveOneMore(l, s3, Disconnect);
    LiveOneMore(l, s3 + [Disconnect], Register("p", map["a" := 1], 2, false));
    steps := s3 + [Disconnect] + [Register("p", map["a" := 1], 2, false)];
  }

  /** A job that ends and reports; `tx` is the state of the handle when it does. */
  lemma EndsAndReports(steps: seq<Step>, file: I.InFile, requests: nat, jobs: nat, tx: E.FileTx, log: seq<Report>) returns (more: seq<Step>)
    requires Stands(Live(Unborn(0), steps), file, requests, jobs, [], tx, log) && jobs > 0 && tx != E.Ended
    requires file == I.InTerminal(Completed) || file.InFlight?
    ensures Stands(Live(Unborn(0), more), I.InTerminal(Completed), requests, jobs - 1, [], E.Ended, log + [FileEnded("a", Completed)])
  {
    var l := Unborn(0);
    Finishes(Live(l, steps), file, requests, jobs, tx, log);
    LiveOneMore(l, steps, FinishDownload("a", true));
    var done := steps + [FinishDownload("a", true)];
    Tells(Live(l, done), I.InTerminal(Completed), requests, jobs - 1, tx, log);
    LiveOneMore(l, done, EmitEnd(FileEnded("a", Completed)));
    more := done + [EmitEnd(FileEnded("a", Completed))];
  }

  /** A life without a restart in which one download is reported as completed twice. */
  lemma CompletedTwice()
    ensures exists steps :: Live(Unborn(0), steps).log == [FileEnded("a", Completed), FileEnded("a", Completed)]
  {
    var l := Unborn(0);
    var done := FileEnded("a", Completed);
    var overlap := Overlapping();
    var once := EndsAndReports(overlap, I.InFlight("d"), 1, 1, E.Idle, []);
    Starts(Live(l, once), I.InTerminal(Completed), 1, 0, [], E.Ended, [] + [done]);
    LiveOneMore(l, once, StartJob("a"));
    var started := once + [StartJob("a")];
    Prepares(Live(l, started), I.InTerminal(Completed), 0, 1, E.Ended, [] + [done]);
    LiveOneMore(l, started, Touch("a", E.Prepare));
    var twice := EndsAndReports(started + [Touch("a", E.Prepare)], I.InTerminal(Completed), 0, 1, E.Preflight, [] + [done]);
    assert Live(l, twice).log == [done, done];
  }
}
