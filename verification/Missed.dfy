/** What a settled connection can have missed. The receiver's entry may lose the current connection, or hold another
    one in its place. A file rejected then is ended without a word to the sender, and so is a file whose download
    was asked for then and is done by another loop. Over every run these two kinds of ends, and nothing else, are
    what a quiet connection has not told, attached or not. */
module Missed {
  import opened Base
  import opened Storage
  import opened Protocol
  import opened Agreement
  import opened ConvergenceInvariant
  import opened SenderSteps
  import opened ReceiverSteps
  import opened Convergence
  import O = Outgoing
  import I = Incoming

  /** A live file is ended while the connection is up, and nothing on that connection will say so: it is rejected
      while the receiver's entry does not hold the connection, or a job of another loop ends it and the current
      loop has no download of it. */
  ghost predicate Misses(n: Net, step: Step, f: FileId) {
    && n.link == Up && f in n.sizes && !ReceiverEnded(n, f)
    && (|| (step == Receiver(ReceiverRejects(f)) && !Attached(n))
        || (EndsAside(n, step, f) && !Working(n, f)))
  }

  /** The final section of a download in another loop. */
  predicate EndsAside(n: Net, step: Step, f: FileId) {
    || (step == Job(CommitOrphan(Commit(f, true))) && Commit(f, true) in n.orphans)
    || (step == Job(CommitOrphan(Commit(f, false))) && Commit(f, false) in n.orphans)
  }

  /** Either way the receiver's entry does not hold the connection: an attached connection misses nothing. */
  lemma MissesOnlyDetached(n: Net, step: Step, f: FileId)
    requires Inv(n) && Misses(n, step, f)
    ensures !Attached(n)
  {
    assert JobInv(n, f);
  }

  /** The file a step may end. */
  function EndedBy(step: Step): set<FileId> {
    match step
    case Receiver(ReceiverRejects(f)) => {f}
    case Job(CommitOrphan(c)) => {c.file}
    case _ => {}
  }

  /** The files ended that way since the current connection came up. */
  ghost function MissedNext(n: Net, missed: set<FileId>, step: Step): set<FileId> {
    if Next(n, step).link != Up then {} else missed + set f | f in EndedBy(step) && Misses(n, step, f)
  }

  ghost function MissedBy(n: Net, missed: set<FileId>, steps: seq<Step>): set<FileId>
    decreases |steps|
  {
    if steps == [] then missed else MissedBy(Next(n, steps[0]), MissedNext(n, missed, steps[0]), steps[1..])
  }

  /** The sender knows of the end or will hear of it. */
  ghost predicate Heard(n: Net, f: FileId) {
    f in n.sizes && ReceiverEnded(n, f) ==> SenderEnded(n, f) || ReceiverSaying(n, f) || Working(n, f)
  }

  // ----- The sender's steps

  /** The sender only ends files, and the receiver and its jobs are as before. */
  ghost predicate SenderOnly(n: Net, n': Net, f: FileId) {
    && SameJobs(n, n') && n'.sizes == n.sizes
    && (SenderEnded(n, f) ==> SenderEnded(n', f))
    && (ReceiverSaying(n, f) ==> SenderEnded(n', f) || ReceiverSaying(n', f))
  }

  lemma SenderOnlyHeard(n: Net, n': Net, f: FileId)
    requires Heard(n, f) && SenderOnly(n, n', f)
    ensures Heard(n', f)
  {
  }

  lemma SenderHandlesHeard(n: Net, f: FileId)
    requires SenderShape(n) && Heard(n, f) && n.link == Up && n.toS != []
    ensures Heard(SenderReceives(n), f)
  {
    var m, rest, n' := n.toS[0], n.(toS := n.toS[1..]), SenderReceives(n);
    TookNext(n, f);
    HandlesKeepsJobs(rest, m);
    if !m.SStart? {
      SenderTerminates(n.s, m.file, KindSaid(m));
      HandlesEnd(rest, m);
    }
    SenderOnlyHeard(n, n', f);
  }

  lemma FailureHeard(n: Net, g: FileId, abortable: bool, f: FileId)
    requires SenderShape(n) && Heard(n, f)
    ensures Heard(Failure(n, g, abortable), f)
  {
    SenderTerminates(n.s, g, Failed);
    SenderOnlyHeard(n, Failure(n, g, abortable), f);
  }

  lemma SenderRejectingHeard(n: Net, g: FileId, f: FileId)
    requires SenderShape(n) && Heard(n, f)
    ensures Heard(SenderRejecting(n, g), f)
  {
    SenderTerminates(n.s, g, Rejected);
    SenderOnlyHeard(n, SenderRejecting(n, g), f);
  }

  /** Nothing changed but queues to the receiver, the sender's tables and its jobs. */
  lemma ToReceiverHeard(n: Net, n': Net, f: FileId)
    requires Heard(n, f)
    requires n' == n.(s := n'.s, sReqs := n'.sReqs, toR := n'.toR, failing := n'.failing, sLog := n'.sLog)
    requires n'.s.mem == n.s.mem
    ensures Heard(n', f)
  {
  }

  lemma SendingHeard(n: Net, f: FileId)
    requires Heard(n, f) && n.link == Up && n.sReqs != [] && n.sReqs[0] != CloseTransfer
    ensures Heard(Sending(n), f)
  {
    ToReceiverHeard(n, Sending(n), f);
  }

  lemma SenderHeard(n: Net, step: SenderStep, f: FileId)
    requires SenderShape(n) && CloseTransfer !in n.sReqs && n.link == Up && Heard(n, f) && SenderNext(n, step).link == Up
    ensures Heard(SenderNext(n, step), f)
  {
    match step {
      case SendNext =>
        if n.sReqs != [] {
          assert n.sReqs[0] in n.sReqs;
          SendingHeard(n, f);
        }
      case SenderRecv =>
        if n.toS != [] {
          SenderHandlesHeard(n, f);
        }
      case JobFails(g, abortable) => FailureHeard(n, g, abortable, f);
      case SenderRejects(g) => SenderRejectingHeard(n, g, f);
      case JobReports(_) => ToReceiverHeard(n, SenderNext(n, step), f);
      case SendChunk(_) => ToReceiverHeard(n, SenderNext(n, step), f);
      case SenderRecords(_, _) => ToReceiverHeard(n, SenderNext(n, step), f);
      case _ =>
    }
  }

  // ----- The receiver's steps

  lemma AcceptHeard(n: Net, replay: seq<ServerReq>, closed: bool, f: FileId)
    requires Inv(n) && n.link == Dialed && IsReplayOrder(n, replay) && Accepting(n, replay, closed).link == Up
    ensures Heard(Accepting(n, replay, closed), f)
  {
    assert JobInv(n, f);
    assert replay + [] == replay;
    if n.r.mem.Some? {
      ReplaySays(n, replay, f);
    }
  }

  lemma TakeHeard(n: Net, f: FileId)
    requires FileInv(n, f) && JobInv(n, f) && n.link == Up && n.rReqs != [] && n.rReqs[0] != Close && Heard(n, f)
    ensures Heard(Taking(n), f)
  {
    TakeSaying(n, f);
    TakeWorking(n, f);
    TakeKeeps(n);
    assert n.rReqs[0] == Reject(f) ==> ReceiverEnded(n, f) by {
      assert n.rReqs[0] == Reject(f) ==> ReceiverSaying(n, f);
    }
  }

  lemma TakeKeeps(n: Net)
    requires n.link == Up && n.rReqs != [] && n.rReqs[0] != Close
    ensures var n' := Taking(n); n'.s == n.s && n'.r == n.r && n'.sizes == n.sizes
  {
  }

  /** The receiver ends a file whose end the sender knows. */
  lemma ToldHeard(n: Net, n': Net, g: FileId, f: FileId)
    requires Heard(n, f) && OnlyEndsIn(n.r, n'.r, g) && SenderEnded(n, g)
    requires n'.sizes == n.sizes && n'.s == n.s
    requires ReceiverSaying(n, f) ==> ReceiverSaying(n', f)
    requires f != g ==> (Working(n, f) ==> Working(n', f))
    ensures Heard(n', f)
  {
  }

  lemma ToldRecvHeard(n: Net, f: FileId)
    requires ReceiverShape(n) && n.link == Up && n.toR != [] && (n.toR[0].CReject? || n.toR[0].CError?)
    requires Heard(n, f) && SenderEnded(n, n.toR[0].file)
    ensures Heard(ReceiverReceives(n), f)
  {
    var m := n.toR[0];
    ReceiverTerminates(n.r, m.file, KindTold(m));
    HandlesTold(n.(toR := n.toR[1..]), m);
    ToldHeard(n, ReceiverReceives(n), m.file, f);
  }

  lemma ChunkRecvHeard(n: Net, f: FileId)
    requires n.link == Up && n.toR != [] && n.toR[0].CChunk? && Heard(n, f)
    ensures Heard(ReceiverReceives(n), f)
  {
    assert ReceiverSaying(n, f) ==> ReceiverSaying(ReceiverReceives(n), f);
  }

  lemma ReceiverRecvHeard(n: Net, f: FileId)
    requires Inv(n) && n.link == Up && n.toR != [] && Heard(n, f)
    ensures Heard(ReceiverReceives(n), f)
  {
    assert n.toR[0] in n.toR;
    if n.toR[0].CChunk? {
      ChunkRecvHeard(n, f);
    } else {
      assert FileInv(n, n.toR[0].file);
      ToldRecvHeard(n, f);
    }
  }

  lemma LateToldHeard(n: Net, i: nat, closed: bool, f: FileId)
    requires ReceiverShape(n) && n.link == Up && i < |n.lateR| && (n.lateR[i].CReject? || n.lateR[i].CError?)
    requires Heard(n, f) && SenderEnded(n, n.lateR[i].file)
    ensures Heard(ReceiverReadsLate(n, i, closed), f)
  {
    var m := n.lateR[i];
    ReceiverTerminates(n.r, m.file, KindTold(m));
    ToldHeard(n, ReceiverReadsLate(n, i, closed), m.file, f);
  }

  lemma LateOtherHeard(n: Net, i: nat, closed: bool, f: FileId)
    requires ReceiverShape(n) && n.link == Up && i < |n.lateR| && (n.lateR[i].CRequest? || n.lateR[i].CChunk?)
    requires Heard(n, f)
    ensures Heard(ReceiverReadsLate(n, i, closed), f)
  {
    var n' := ReceiverReadsLate(n, i, closed);
    assert n'.r.mem.Some? && n'.r.mem.value.files == n.r.mem.value.files;
  }

  lemma LateHeard(n: Net, i: nat, closed: bool, f: FileId)
    requires Inv(n) && n.link == Up && i < |n.lateR| && Heard(n, f)
    ensures Heard(ReceiverReadsLate(n, i, closed), f)
  {
    if n.lateR[i].CRequest? || n.lateR[i].CChunk? {
      LateOtherHeard(n, i, closed, f);
    } else {
      assert FileInv(n, n.lateR[i].file);
      LateToldHeard(n, i, closed, f);
    }
  }

  lemma RejectPushed(n: Net, g: FileId)
    requires ReceiverShape(n) && n.link == Up
    ensures var n' := ReceiverRejecting(n, g);
            && n' == n.(r := n'.r, rLog := n'.rLog, rReqs := n'.rReqs)
            && OnlyEndsIn(n.r, n'.r, g)
            && n'.rReqs == n.rReqs + if Attached(n) && g in n.sizes && !ReceiverEnded(n, g) then [Reject(g)] else []
  {
    ReceiverTerminates(n.r, g, Rejected);
  }

  lemma RejectHeard(n: Net, g: FileId, f: FileId)
    requires ReceiverShape(n) && n.link == Up && Heard(n, f) && !Misses(n, Receiver(ReceiverRejects(g)), f)
    ensures Heard(ReceiverRejecting(n, g), f)
  {
    RejectPushed(n, g);
    PushedHeard(n, ReceiverRejecting(n, g), g, Attached(n) && g in n.sizes && !ReceiverEnded(n, g), f);
  }

  lemma PushedHeard(n: Net, n': Net, g: FileId, told: bool, f: FileId)
    requires Heard(n, f) && OnlyEndsIn(n.r, n'.r, g)
    requires n' == n.(r := n'.r, rLog := n'.rLog, rReqs := n'.rReqs)
    requires n'.rReqs == n.rReqs + if told then [Reject(g)] else []
    requires f == g && f in n.sizes ==> told || ReceiverEnded(n, f)
    ensures Heard(n', f)
  {
    assert Working(n', f) <==> Working(n, f);
    assert ReceiverSaying(n, f) || (told && f == g) ==> ReceiverSaying(n', f);
  }

  /** Only the connection of the entry, its tables or the event log changed. */
  lemma EntryHeard(n: Net, n': Net, f: FileId)
    requires Heard(n, f) && n' == n.(r := n'.r, loops := n'.loops, strays := n'.strays, rLog := n'.rLog)
    requires n.r.mem.Some? && n'.r.mem.Some? && n'.r.mem.value.files == n.r.mem.value.files
    ensures Heard(n', f)
  {
  }

  lemma LoopHeard(n: Net, step: ReceiverStep, f: FileId)
    requires Inv(n) && n.link == Up && Heard(n, f) && (step.TakeNext? || step.ReceiverRecv? || step.ReceiverLate?)
    ensures Heard(ReceiverNext(n, step), f)
  {
    match step {
      case TakeNext =>
        if n.rReqs != [] {
          assert n.rReqs[0] in n.rReqs;
          assert FileInv(n, f) && JobInv(n, f);
          TakeHeard(n, f);
        }
      case ReceiverRecv =>
        if n.toR != [] {
          ReceiverRecvHeard(n, f);
        }
      case ReceiverLate(i, closed) =>
        if i < |n.lateR| {
          LateHeard(n, i, closed, f);
        }
      case _ =>
    }
  }

  lemma ApiHeard(n: Net, step: ReceiverStep, f: FileId)
    requires ReceiverShape(n) && n.link == Up && Heard(n, f) && ReceiverNext(n, step).link == Up
    requires !Misses(n, Receiver(step), f)
    requires !step.TakeNext? && !step.ReceiverRecv? && !step.ReceiverLate?
    ensures Heard(ReceiverNext(n, step), f)
  {
    match step {
      case ReceiverRejects(g) => RejectHeard(n, g, f);
      case LoopEnds => EntryHeard(n, LoopEnding(n), f);
      case ReceiverRecords(_, _) => EntryHeard(n, ReceiverNext(n, step), f);
      case ReceiverPurges => EntryHeard(n, n.(r := n.r.(row := Purged(n.r.row))), f);
      case _ =>
    }
  }

  lemma ReceiverHeard(n: Net, step: ReceiverStep, f: FileId)
    requires Inv(n) && n.link == Up && Heard(n, f) && ReceiverNext(n, step).link == Up
    requires !Misses(n, Receiver(step), f)
    ensures Heard(ReceiverNext(n, step), f)
  {
    if step.TakeNext? || step.ReceiverRecv? || step.ReceiverLate? {
      LoopHeard(n, step, f);
    } else {
      ApiHeard(n, step, f);
    }
  }

  // ----- Jobs

  lemma AskHeard(n: Net, g: FileId, dir: Dir, f: FileId)
    requires n.link == Up && Heard(n, f)
    ensures Heard(AskedFor(n, g, dir), f)
  {
    var n' := AskedFor(n, g, dir);
    assert n'.rReqs == n.rReqs || n'.rReqs == n.rReqs + [ServerReq.Download(g)];
    assert ReceiverSaying(n, f) ==> ReceiverSaying(n', f);
    assert Working(n, f) ==> Working(n', f);
  }

  lemma CommitHeard(n: Net, c: Commit, f: FileId)
    requires ReceiverShape(n) && n.link == Up && Heard(n, f) && c in n.commits
    ensures Heard(Committing(n, c), f)
  {
    ReceiverTerminates(n.r, c.file, if c.success then Completed else Failed);
    var n' := Committing(n, c);
    assert ReceiverSaying(n, f) ==> ReceiverSaying(n', f);
    assert f == c.file ==> ReceiverSaying(n', f);
    assert f != c.file ==> (Working(n, f) ==> Working(n', f));
  }

  lemma OrphanHeard(n: Net, c: Commit, f: FileId)
    requires ReceiverShape(n) && n.link == Up && Heard(n, f) && c in n.orphans
    requires !Misses(n, Job(CommitOrphan(c)), f)
    ensures Heard(CommittingOrphan(n, c), f)
  {
    ReceiverTerminates(n.r, c.file, if c.success then Completed else Failed);
    var n' := CommittingOrphan(n, c);
    assert f == c.file ==> EndsAside(n, Job(CommitOrphan(c)), f);
    assert Working(n, f) <==> Working(n', f);
    assert ReceiverSaying(n, f) <==> ReceiverSaying(n', f);
  }

  /** A job of the current loop goes on or comes to its end. */
  lemma JobMovesHeard(n: Net, n': Net, f: FileId)
    requires Heard(n, f)
    requires (exists g :: n' == Starting(n, g)) || (exists g, success :: n' == Ending(n, g, success))
    ensures Heard(n', f)
  {
    assert ReceiverSaying(n, f) ==> ReceiverSaying(n', f);
    assert Working(n, f) ==> Working(n', f);
  }

  lemma StrayHeard(n: Net, n': Net, f: FileId)
    requires Heard(n, f) && n' == n.(strays := n'.strays, orphans := n'.orphans)
    ensures Heard(n', f)
  {
  }

  lemma JobHeard(n: Net, step: JobStep, f: FileId)
    requires ReceiverShape(n) && n.link == Up && Heard(n, f) && !Misses(n, Job(step), f)
    ensures Heard(JobNext(n, step), f)
  {
    match step {
      case Ask(g, dir) => AskHeard(n, g, dir, f);
      case JobStarts(g) => JobMovesHeard(n, Starting(n, g), f);
      case JobEnds(g, success) => JobMovesHeard(n, Ending(n, g, success), f);
      case CommitJob(c) =>
        if c in n.commits {
          CommitHeard(n, c, f);
        }
      case CommitOrphan(c) =>
        if c in n.orphans {
          OrphanHeard(n, c, f);
        }
      case StrayEnds(g, success) => StrayHeard(n, StrayEnding(n, g, success), f);
      case StrayStops(g) => StrayHeard(n, StrayStopping(n, g), f);
    }
  }

  // ----- Runs

  /** On a connection that stays up every end is told, but for a missed end of that very file. */
  lemma StepHeard(n: Net, step: Step, f: FileId)
    requires Inv(n) && !Next(n, step).gone && Next(n, step).link == Up
    requires n.link == Up ==> Heard(n, f)
    requires !Misses(n, step, f)
    ensures Heard(Next(n, step), f)
  {
    match step {
      case Sender(s) =>
        SenderComesUp(n, s);
        SenderHeard(n, s, f);
      case Receiver(r) =>
        if n.link == Up {
          ReceiverHeard(n, r, f);
        } else {
          ReceiverComesUp(n, r);
          AcceptHeard(n, r.replay, r.oldConnClosed, f);
        }
      case Job(j) =>
        JobHeard(n, j, f);
      case _ =>
    }
  }

  lemma SenderComesUp(n: Net, step: SenderStep)
    requires SenderNext(n, step).link == Up
    ensures n.link == Up
  {
  }

  lemma ReceiverComesUp(n: Net, step: ReceiverStep)
    requires ReceiverNext(n, step).link == Up && n.link != Up
    ensures n.link == Dialed && step.Accept? && IsReplayOrder(n, step.replay)
  {
  }

  // What has ended on the receiver stays ended

  ghost predicate EndsStay(s: I.InSlot, s': I.InSlot, f: FileId) {
    s.mem.Some? && f in s.mem.value.files && s.mem.value.files[f].InTerminal? ==>
      s'.mem.Some? && f in s'.mem.value.files && s'.mem.value.files[f].InTerminal?
  }

  lemma OpsKeepEnds(s: I.InSlot, g: FileId, kind: FileTerminal, dir: Dir, f: FileId)
    ensures EndsStay(s, I.TerminalRecv(s, g, kind).slot, f)
    ensures EndsStay(s, I.RejectionPost(s, g).slot, f)
    ensures EndsStay(s, I.StartDownload(s, g, dir).slot, f)
    ensures EndsStay(s, I.FinishPost(s, g, true).slot, f) && EndsStay(s, I.FinishPost(s, g, false).slot, f)
  {
  }

  lemma RegisterKeepsEnds(s: I.InSlot, peer: Peer, sizes: map<FileId, nat>, conn: ConnId, closed: bool, f: FileId)
    ensures EndsStay(s, I.Register(s, peer, sizes, conn, closed).slot, f)
  {
  }

  /** What the entry holds is the files of the transfer. */
  lemma EndedInFiles(n: Net, n': Net, f: FileId)
    requires ReceiverShape(n) && ReceiverShape(n') && f in n.sizes
    requires EndsStay(n.r, n'.r, f) && ReceiverEnded(n, f)
    ensures f in n'.sizes && ReceiverEnded(n', f)
  {
  }

  lemma RecvKeepsEnds(n: Net, f: FileId)
    ensures EndsStay(n.r, ReceiverReceives(n).r, f)
  {
    if n.link == Up && n.toR != [] && (n.toR[0].CReject? || n.toR[0].CError?) {
      HandlesTold(n.(toR := n.toR[1..]), n.toR[0]);
      OpsKeepEnds(n.r, n.toR[0].file, KindTold(n.toR[0]), "", f);
    }
  }

  lemma LateKeepsEnds(n: Net, i: nat, closed: bool, f: FileId)
    ensures EndsStay(n.r, ReceiverReadsLate(n, i, closed).r, f)
  {
    if i < |n.lateR| {
      if n.lateR[i].CRequest? {
        RegisterKeepsEnds(n.r, SENDER, n.sizes, STALE, closed, f);
      } else {
        OpsKeepEnds(n.r, n.lateR[i].file, KindTold(n.lateR[i]), "", f);
      }
    }
  }

  lemma ReceiverKeepsEnds(n: Net, step: ReceiverStep, f: FileId)
    requires n.link == Up && ReceiverNext(n, step).link == Up
    ensures EndsStay(n.r, ReceiverNext(n, step).r, f)
  {
    match step {
      case ReceiverRecv => RecvKeepsEnds(n, f);
      case ReceiverLate(i, closed) => LateKeepsEnds(n, i, closed, f);
      case ReceiverRejects(g) => OpsKeepEnds(n.r, g, Rejected, "", f);
      case TakeNext => TakeLeavesEntry(n);
      case _ =>
    }
  }

  lemma TakeLeavesEntry(n: Net)
    requires n.link == Up && Taking(n).link == Up
    ensures Taking(n).r == n.r
  {
  }

  lemma JobsKeepEnds(n: Net, step: JobStep, f: FileId)
    ensures EndsStay(n.r, JobNext(n, step).r, f)
  {
    match step {
      case Ask(g, dir) => OpsKeepEnds(n.r, g, Failed, dir, f);
      case CommitJob(c) => OpsKeepEnds(n.r, c.file, Failed, "", f);
      case CommitOrphan(c) => OpsKeepEnds(n.r, c.file, Failed, "", f);
      case _ =>
    }
  }

  lemma NextKeepsEnds(n: Net, step: Step, f: FileId)
    requires n.link == Up && Next(n, step).link == Up && !step.Leave?
    ensures EndsStay(n.r, Next(n, step).r, f)
  {
    match step {
      case Sender(s) => SenderLeavesEntry(n, s);
      case Receiver(r) => ReceiverKeepsEnds(n, r, f);
      case Job(j) => JobsKeepEnds(n, j, f);
      case _ =>
    }
  }

  lemma StaysEnded(n: Net, step: Step, f: FileId)
    requires Inv(n) && f in n.sizes && ReceiverEnded(n, f)
    requires n.link == Up && Next(n, step).link == Up && !Next(n, step).gone
    ensures f in Next(n, step).sizes && ReceiverEnded(Next(n, step), f)
  {
    StepInv(n, step);
    NextKeepsEnds(n, step, f);
    EndedInFiles(n, Next(n, step), f);
  }

  lemma SenderLeavesEntry(n: Net, step: SenderStep)
    ensures SenderNext(n, step).r == n.r
  {
  }

  // The invariant over runs

  ghost predicate MissedInv(n: Net, missed: set<FileId>) {
    && (n.link == Up ==> forall f :: f !in missed ==> Heard(n, f))
    && (forall f :: f in missed ==> n.link == Up && f in n.sizes && ReceiverEnded(n, f))
  }

  lemma RejectionEnds(n: Net, f: FileId)
    requires ReceiverShape(n) && n.link == Up && f in n.sizes
    ensures var n' := Next(n, Receiver(ReceiverRejects(f))); f in n'.sizes && ReceiverEnded(n', f)
  {
    RejectPushed(n, f);
  }

  lemma OrphanEnds(n: Net, c: Commit)
    requires ReceiverShape(n) && n.link == Up && c.file in n.sizes && c in n.orphans
    ensures var n' := Next(n, Job(CommitOrphan(c))); c.file in n'.sizes && ReceiverEnded(n', c.file)
  {
    ReceiverTerminates(n.r, c.file, if c.success then Completed else Failed);
  }

  /** The step that misses an end ends the file. */
  lemma MissEnds(n: Net, step: Step, n': Net, f: FileId)
    requires ReceiverShape(n) && Misses(n, step, f) && n' == Next(n, step)
    ensures f in n'.sizes && ReceiverEnded(n', f)
  {
    if EndsAside(n, step, f) {
      OrphanEnds(n, step.j.commit);
    } else {
      RejectionEnds(n, f);
    }
  }

  lemma OthersHeard(n: Net, missed: set<FileId>, step: Step, f: FileId)
    requires Inv(n) && MissedInv(n, missed) && !Next(n, step).gone && Next(n, step).link == Up
    requires f !in MissedNext(n, missed, step)
    ensures Heard(Next(n, step), f)
  {
    assert Misses(n, step, f) ==> f in EndedBy(step);
    StepHeard(n, step, f);
  }

  lemma MissedHaveEnded(n: Net, missed: set<FileId>, step: Step, f: FileId)
    requires Inv(n) && MissedInv(n, missed) && !Next(n, step).gone && Next(n, step).link == Up
    requires f in MissedNext(n, missed, step)
    ensures f in Next(n, step).sizes && ReceiverEnded(Next(n, step), f)
  {
    if f in missed {
      StaysEnded(n, step, f);
    } else {
      MissEnds(n, step, Next(n, step), f);
    }
  }

  lemma StepMissed(n: Net, missed: set<FileId>, step: Step)
    requires Inv(n) && MissedInv(n, missed) && !Next(n, step).gone
    ensures MissedInv(Next(n, step), MissedNext(n, missed, step))
  {
    var n', missed' := Next(n, step), MissedNext(n, missed, step);
    if n'.link == Up {
      forall f | f !in missed'
        ensures Heard(n', f)
      {
        OthersHeard(n, missed, step, f);
      }
      forall f | f in missed'
        ensures f in n'.sizes && ReceiverEnded(n', f)
      {
        MissedHaveEnded(n, missed, step, f);
      }
    }
  }

  lemma {:induction false} GoneForGood(n: Net, steps: seq<Step>)
    requires n.gone
    ensures Run(n, steps).gone
    decreases |steps|
  {
    if steps != [] {
      GoneStays(n, steps[0]);
      GoneForGood(Next(n, steps[0]), steps[1..]);
    }
  }

  lemma {:induction false} RunMissed(n: Net, missed: set<FileId>, steps: seq<Step>)
    requires Inv(n) && MissedInv(n, missed) && !Run(n, steps).gone
    ensures Inv(Run(n, steps)) && MissedInv(Run(n, steps), MissedBy(n, missed, steps))
    decreases |steps|
  {
    if steps != [] {
      var n' := Next(n, steps[0]);
      if n'.gone {
        GoneForGood(n', steps[1..]);
      }
      StepInv(n, steps[0]);
      StepMissed(n, missed, steps[0]);
      RunMissed(n', MissedNext(n, missed, steps[0]), steps[1..]);
    }
  }

  lemma QuietTellsEnds(n: Net, f: FileId)
    requires FileInv(n, f) && Quiet(n) && f in n.sizes
    ensures SenderEnded(n, f) ==> ReceiverEnded(n, f)
  {
  }

  lemma QuietHearsEnds(n: Net, f: FileId)
    requires Heard(n, f) && Quiet(n) && f in n.sizes
    ensures ReceiverEnded(n, f) ==> SenderEnded(n, f)
  {
  }

  /** After any run that ends quiet, attached or not, the sides disagree on a file exactly when its end was missed
      since the connection came up and the sender has not ended it by itself. */
  lemma QuietDisagreesIff(sizes: map<FileId, nat>, steps: seq<Step>, f: FileId)
    requires var n := Run(Init(sizes), steps); !n.gone && Quiet(n) && f in n.sizes
    ensures var n := Run(Init(sizes), steps);
            (SenderEnded(n, f) != ReceiverEnded(n, f)) <==>
            f in MissedBy(Init(sizes), {}, steps) && !SenderEnded(n, f)
  {
    InitInv(sizes);
    RunMissed(Init(sizes), {}, steps);
    var n := Run(Init(sizes), steps);
    assert FileInv(n, f);
    QuietTellsEnds(n, f);
    if f !in MissedBy(Init(sizes), {}, steps) {
      assert Heard(n, f);
      QuietHearsEnds(n, f);
    }
  }

  /** So they agree on every file exactly when the sender has ended what was missed. */
  lemma QuietAgreesIff(sizes: map<FileId, nat>, steps: seq<Step>)
    requires var n := Run(Init(sizes), steps); !n.gone && Quiet(n)
    ensures var n := Run(Init(sizes), steps);
            SidesAgree(n) <==> forall f :: f in MissedBy(Init(sizes), {}, steps) ==> SenderEnded(n, f)
  {
    InitInv(sizes);
    RunMissed(Init(sizes), {}, steps);
    var n := Run(Init(sizes), steps);
    forall f | f in n.sizes
      ensures (SenderEnded(n, f) != ReceiverEnded(n, f)) <==> f in MissedBy(Init(sizes), {}, steps) && !SenderEnded(n, f)
    {
      QuietDisagreesIff(sizes, steps, f);
    }
  }

  /** No step of the run ends a live file unheard. */
  ghost predicate NeverMisses(n: Net, steps: seq<Step>)
    decreases |steps|
  {
    steps == [] || ((forall f :: !Misses(n, steps[0], f)) && NeverMisses(Next(n, steps[0]), steps[1..]))
  }

  lemma NothingMissedNext(n: Net, step: Step)
    requires forall f :: !Misses(n, step, f)
    ensures MissedNext(n, {}, step) == {}
  {
  }

  lemma {:induction false} NothingMissed(n: Net, steps: seq<Step>)
    requires NeverMisses(n, steps)
    ensures MissedBy(n, {}, steps) == {}
    decreases |steps|
  {
    if steps != [] {
      NothingMissedNext(n, steps[0]);
      NothingMissed(Next(n, steps[0]), steps[1..]);
    }
  }

  /** In particular every run without such an end that ends quiet ends in agreement, attached or not. */
  lemma UndisturbedRunAgrees(sizes: map<FileId, nat>, steps: seq<Step>)
    requires var n := Run(Init(sizes), steps); !n.gone && Quiet(n)
    requires NeverMisses(Init(sizes), steps)
    ensures SidesAgree(Run(Init(sizes), steps))
  {
    NothingMissed(Init(sizes), steps);
    QuietAgreesIff(sizes, steps);
  }
}
