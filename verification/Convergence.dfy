/** The two-party theorems: the invariant holds in every run, a settled connection leaves both sides
    agreeing on which files have ended, and a connection left alone settles. */
module Convergence {
  import opened Base
  import opened Storage
  import opened Protocol
  import opened Agreement
  import opened ConvergenceInvariant
  import opened SenderSteps
  import opened ReceiverSteps
  import O = Outgoing
  import I = Incoming

  // ----- Every step keeps the invariant

  lemma DialInv(n: Net, order: seq<ClientReq>)
    requires Inv(n) && IsPendingOrder(n, order)
    ensures Inv(Dialing(n, order)) && Dialing(n, order).gone == n.gone
  {
    DialShape(n, order);
    forall f
      ensures FileInv(Dialing(n, order), f) && JobInv(Dialing(n, order), f)
    {
      assert FileInv(n, f) && JobInv(n, f);
      DialFile(n, order, f);
      DialJobs(n, order, f);
    }
  }

  lemma DialJobs(n: Net, order: seq<ClientReq>, f: FileId)
    requires JobInv(n, f)
    ensures JobInv(Dialing(n, order), f)
  {
  }

  lemma SendNextInv(n: Net)
    requires Inv(n) && n.link != Down && n.sReqs != []
    ensures Inv(Sending(n)) && Sending(n).gone == n.gone
  {
    assert n.sReqs[0] in n.sReqs;
    SendNextShape(n);
    SameJobsInv(n, Sending(n));
    forall f
      ensures FileInv(Sending(n), f)
    {
      assert FileInv(n, f);
      SendNextFile(n, f);
    }
  }

  lemma JobFailsInv(n: Net, g: FileId, abortable: bool)
    requires Inv(n) && n.link != Down && g in n.sizes
    ensures Inv(Failure(n, g, abortable)) && Failure(n, g, abortable).gone == n.gone
  {
    JobFailsShape(n, g, abortable);
    SameJobsInv(n, Failure(n, g, abortable));
    SenderTerminates(n.s, g, Failed);
    forall f
      ensures FileInv(Failure(n, g, abortable), f)
    {
      assert FileInv(n, f);
      JobFailsFile(n, g, abortable, O.FailurePost(n.s, g).slot, f);
    }
  }

  lemma JobReportsInv(n: Net, job: Failing)
    requires Inv(n) && n.link != Down && job in n.failing
    ensures Inv(Report(n, job)) && Report(n, job).gone == n.gone
  {
    var n' := Report(n, job);
    assert SenderShape(n') && ReceiverShape(n');
    AppendShape(n, CError(job.file));
    SameJobsInv(n, n');
    forall f
      ensures FileInv(n', f)
    {
      assert FileInv(n, f);
      JobReportsFile(n, job, f);
    }
  }

  lemma AppendShape(n: Net, m: ClientMsg)
    requires LinkShape(n) && n.link != Down && m != CRequest
    ensures LinkShape(n.(toR := n.toR + [m]))
  {
    if n.link == Dialed {
      assert (n.toR + [m])[1..] == n.toR[1..] + [m];
    }
  }

  lemma SendChunkInv(n: Net, g: FileId)
    requires Inv(n) && n.link != Down
    ensures Inv(n.(toR := n.toR + [CChunk(g)]))
  {
    var n' := n.(toR := n.toR + [CChunk(g)]);
    assert SenderShape(n') && ReceiverShape(n');
    AppendShape(n, CChunk(g));
    SameJobsInv(n, n');
    forall f
      ensures FileInv(n', f)
    {
      assert FileInv(n, f);
      SendChunkFile(n, g, f);
    }
  }

  lemma SenderRejectsInv(n: Net, g: FileId)
    requires Inv(n)
    ensures Inv(SenderRejecting(n, g)) && SenderRejecting(n, g).gone == n.gone
  {
    SenderRejectsShape(n, g);
    SameJobsInv(n, SenderRejecting(n, g));
    SenderTerminates(n.s, g, Rejected);
    forall f
      ensures FileInv(SenderRejecting(n, g), f)
    {
      assert FileInv(n, f);
      SenderRejectsFile(n, g, O.RejectionPost(n.s, g).slot, f);
    }
  }

  lemma SenderRecordsInv(n: Net, g: FileId, kind: FileTerminal)
    requires Inv(n) && (g, kind) in n.sLog
    ensures Inv(SenderNext(n, SenderRecords(g, kind))) && SenderNext(n, SenderRecords(g, kind)).gone == n.gone
  {
    var n' := SenderNext(n, SenderRecords(g, kind));
    assert FileInv(n, g);
    SenderRecordsShape(n, g, kind);
    SameJobsInv(n, n');
    forall f
      ensures FileInv(n', f)
    {
      assert FileInv(n, f);
      SenderRecordsFile(n, g, kind, f);
    }
  }

  lemma SenderRestartsInv(n: Net)
    requires Inv(n)
    ensures Inv(SenderRestarting(n)) && SenderRestarting(n).gone == n.gone
  {
    BrokenInv(n);
    SenderRestartsShape(n);
    SameJobsInv(Broken(n), SenderRestarting(n));
    forall f
      ensures FileInv(SenderRestarting(n), f)
    {
      assert FileInv(n, f);
      SenderRestartsFile(n, f);
    }
  }

  lemma TakeInv(n: Net)
    requires Inv(n) && n.link == Up && n.rReqs != []
    ensures Inv(Taking(n)) && Taking(n).gone == n.gone
  {
    assert n.rReqs[0] in n.rReqs;
    TakeShape(n);
    forall f
      ensures FileInv(Taking(n), f) && JobInv(Taking(n), f)
    {
      assert FileInv(n, f) && JobInv(n, f);
      TakeFile(n, f);
    }
  }

  lemma DownloadInv(n: Net, g: FileId, dir: Dir)
    requires Inv(n)
    ensures Inv(AskedFor(n, g, dir)) && AskedFor(n, g, dir).gone == n.gone
  {
    DownloadShape(n, g, dir);
    forall f
      ensures FileInv(AskedFor(n, g, dir), f) && JobInv(AskedFor(n, g, dir), f)
    {
      assert FileInv(n, f) && JobInv(n, f);
      DownloadFile(n, g, dir, f);
      DownloadJobs(n, g, dir, f);
    }
  }

  /** Steps that only move jobs along keep the shape. */
  lemma JobsShape(n: Net, n': Net)
    requires Shape(n) && n.link == Up && Close !in n'.rReqs
    requires n' == n.(rReqs := n'.rReqs, preparing := n'.preparing, streaming := n'.streaming,
                      handed := n'.handed, over := n'.over, commits := n'.commits)
    ensures Shape(n')
  {
    assert SenderShape(n') && ReceiverShape(n');
  }

  lemma JobStartsInv(n: Net, g: FileId)
    requires Inv(n) && g in n.preparing
    ensures Inv(Starting(n, g)) && Starting(n, g).gone == n.gone
  {
    JobsShape(n, Starting(n, g));
    forall f
      ensures FileInv(Starting(n, g), f) && JobInv(Starting(n, g), f)
    {
      assert FileInv(n, f) && JobInv(n, f);
      JobStartsFile(n, g, f);
    }
  }

  lemma JobEndsInv(n: Net, g: FileId, success: bool)
    requires Inv(n) && g in n.preparing + n.streaming
    ensures Inv(Ending(n, g, success)) && Ending(n, g, success).gone == n.gone
  {
    JobsShape(n, Ending(n, g, success));
    forall f
      ensures FileInv(Ending(n, g, success), f) && JobInv(Ending(n, g, success), f)
    {
      assert FileInv(n, f) && JobInv(n, f);
      JobEndsFile(n, g, success, f);
    }
  }

  lemma CommitInv(n: Net, c: Commit)
    requires Inv(n) && c in n.commits
    ensures Inv(Committing(n, c)) && Committing(n, c).gone == n.gone
  {
    var posted, n' := Posting(n, c), Committing(n, c);
    CommitShape(n, c);
    assert Shape(posted);
    JobsShape(posted, n');
    forall f
      ensures FileInv(n', f) && JobInv(n', f)
    {
      assert FileInv(n, f) && JobInv(n, f);
      CommitFile(n, c, f);
    }
  }

  lemma OrphanInv(n: Net, c: Commit)
    requires Inv(n) && c in n.orphans
    ensures Inv(CommittingOrphan(n, c)) && CommittingOrphan(n, c).gone == n.gone
  {
    var posted, n' := Posting(n, c), CommittingOrphan(n, c);
    assert JobInv(n, c.file);
    CommitShape(n, c);
    assert Shape(posted);
    assert Shape(n');
    forall f
      ensures FileInv(n', f) && JobInv(n', f)
    {
      assert FileInv(n, f) && JobInv(n, f);
      OrphanFile(n, c, f);
    }
  }

  /** Only other loops' jobs moved, for downloads these had already. */
  lemma StrayFile(n: Net, n': Net, f: FileId)
    requires FileInv(n, f) && JobInv(n, f)
    requires n' == n.(strays := n'.strays, orphans := n'.orphans) && (Orphaned(n', f) ==> Orphaned(n, f))
    ensures FileInv(n', f) && JobInv(n', f)
  {
  }

  lemma StrayInv(n: Net, n': Net)
    requires Inv(n)
    requires n' == n.(strays := n'.strays, orphans := n'.orphans) && forall f :: Orphaned(n', f) ==> Orphaned(n, f)
    ensures Inv(n')
  {
    assert Shape(n');
    forall f
      ensures FileInv(n', f) && JobInv(n', f)
    {
      assert FileInv(n, f) && JobInv(n, f);
      StrayFile(n, n', f);
    }
  }

  lemma StrayEndsInv(n: Net, f: FileId, success: bool)
    requires Inv(n)
    ensures Inv(StrayEnding(n, f, success))
  {
    StrayInv(n, StrayEnding(n, f, success));
  }

  lemma LoopEndsInv(n: Net)
    requires Inv(n) && n.loops != 0
    ensures Inv(LoopEnding(n)) && LoopEnding(n).gone == n.gone
  {
    CloseAndRemoveAgree(n.r);
    assert Shape(LoopEnding(n));
    forall f
      ensures FileInv(LoopEnding(n), f) && JobInv(LoopEnding(n), f)
    {
      assert FileInv(n, f) && JobInv(n, f);
      LoopEndsFile(n, f);
    }
  }

  lemma ReceiverRecordsInv(n: Net, g: FileId, kind: FileTerminal)
    requires Inv(n) && (g, kind) in n.rLog
    ensures Inv(ReceiverNext(n, ReceiverRecords(g, kind))) && ReceiverNext(n, ReceiverRecords(g, kind)).gone == n.gone
  {
    var n' := ReceiverNext(n, ReceiverRecords(g, kind));
    assert FileInv(n, g);
    ReceiverRecordsShape(n, g, kind);
    forall f
      ensures FileInv(n', f) && JobInv(n', f)
    {
      assert FileInv(n, f) && JobInv(n, f);
      SameReceiverFiles(n, n', f);
    }
  }

  /** Only the receiver's tables and event log changed. */
  lemma SameReceiverFiles(n: Net, n': Net, f: FileId)
    requires FileInv(n, f) && JobInv(n, f)
    requires n' == n.(r := n.r.(row := n'.r.row), rLog := n'.rLog) && n'.rLog <= n.rLog
    ensures FileInv(n', f) && JobInv(n', f)
  {
  }

  lemma PurgeInv(n: Net)
    requires Inv(n)
    ensures Inv(ReceiverNext(n, ReceiverPurges)) && ReceiverNext(n, ReceiverPurges).gone == n.gone
  {
    var n' := ReceiverNext(n, ReceiverPurges);
    PurgeAgrees(n.r);
    assert Shape(n');
    forall f
      ensures FileInv(n', f) && JobInv(n', f)
    {
      assert FileInv(n, f) && JobInv(n, f);
      SameReceiverFiles(n, n', f);
    }
  }

  lemma PurgeAgrees(s: I.InSlot)
    requires InAgree(s)
    ensures InAgree(s.(row := Purged(s.row)))
  {
    if s.mem.Some? {
      var mem, row := s.mem.value, s.row.value;
      forall f | f in mem.files && mem.state != Canceled
        ensures InFileAgrees(mem.files[f], f, row.sync.value, row.recorded)
      {
      }
    }
  }

  lemma ReceiverRestartsInv(n: Net)
    requires Inv(n)
    ensures Inv(ReceiverRestarting(n)) && ReceiverRestarting(n).gone == n.gone
  {
    ReceiverRestartsShape(n);
    forall f
      ensures FileInv(ReceiverRestarting(n), f) && JobInv(ReceiverRestarting(n), f)
    {
      assert FileInv(n, f);
      ReceiverRestartsFile(n, f);
    }
  }

  lemma SenderStepInv(n: Net, step: SenderStep)
    requires Inv(n)
    ensures Inv(SenderNext(n, step))
  {
    match step {
      case Dial(order) =>
        if IsPendingOrder(n, order) {
          DialInv(n, order);
        }
      case SendNext =>
        if n.link != Down && n.sReqs != [] {
          SendNextInv(n);
        }
      case SenderRecv =>
        if n.link != Down && n.toS != [] {
          SenderRecvInv(n);
        }
      case SenderLate =>
        if n.link == Down && n.lateS != [] {
          SenderLateInv(n);
        }
      case JobFails(f, abortable) =>
        if n.link != Down && f in n.sizes {
          JobFailsInv(n, f, abortable);
        }
      case JobReports(job) =>
        if n.link != Down && job in n.failing {
          JobReportsInv(n, job);
        }
      case SendChunk(f) =>
        if n.link != Down {
          SendChunkInv(n, f);
        }
      case SenderRejects(f) => SenderRejectsInv(n, f);
      case SenderRecords(f, kind) =>
        if (f, kind) in n.sLog {
          SenderRecordsInv(n, f, kind);
        }
      case SenderRestarts => SenderRestartsInv(n);
    }
  }

  lemma ReceiverStepInv(n: Net, step: ReceiverStep)
    requires Inv(n)
    ensures Inv(ReceiverNext(n, step))
  {
    match step {
      case Accept(replay, closed) =>
        if IsReplayOrder(n, replay) && n.link == Dialed {
          AcceptInv(n, replay, closed);
        }
      case TakeNext =>
        if n.link == Up && n.rReqs != [] {
          TakeInv(n);
        }
      case ReceiverRecv =>
        if n.link == Up && n.toR != [] {
          ReceiverRecvInv(n);
        }
      case ReceiverLate(i, closed) =>
        if i < |n.lateR| {
          ReceiverLateInv(n, i, closed);
        }
      case ReceiverRejects(f) => ReceiverRejectsInv(n, f);
      case LoopEnds =>
        if n.loops != 0 {
          LoopEndsInv(n);
        }
      case ReceiverRecords(f, kind) =>
        if (f, kind) in n.rLog {
          ReceiverRecordsInv(n, f, kind);
        }
      case ReceiverPurges => PurgeInv(n);
      case ReceiverRestarts => ReceiverRestartsInv(n);
    }
  }

  lemma JobStepInv(n: Net, step: JobStep)
    requires Inv(n)
    ensures Inv(JobNext(n, step))
  {
    match step {
      case Ask(f, dir) => DownloadInv(n, f, dir);
      case JobStarts(f) =>
        if f in n.preparing {
          JobStartsInv(n, f);
        }
      case JobEnds(f, success) =>
        if f in n.preparing + n.streaming {
          JobEndsInv(n, f, success);
        }
      case CommitJob(c) =>
        if c in n.commits {
          CommitInv(n, c);
        }
      case CommitOrphan(c) =>
        if c in n.orphans {
          OrphanInv(n, c);
        }
      case StrayEnds(f, success) => StrayEndsInv(n, f, success);
      case StrayStops(f) => StrayInv(n, StrayStopping(n, f));
    }
  }

  /** What every step keeps, until a side cancels or removes the transfer. */
  lemma StepInv(n: Net, step: Step)
    requires Inv(n)
    ensures Next(n, step).gone || Inv(Next(n, step))
  {
    match step {
      case Sender(s) => SenderStepInv(n, s);
      case Receiver(r) => ReceiverStepInv(n, r);
      case Job(j) => JobStepInv(n, j);
      case Leave(_) =>
      case Break => BrokenInv(n);
    }
  }

  /** Once a side has left, the transfer stays left. */
  lemma GoneStays(n: Net, step: Step)
    requires n.gone
    ensures Next(n, step).gone
  {
    match step {
      case Sender(s) => SenderStaysGone(n, s);
      case Receiver(r) => ReceiverStaysGone(n, r);
      case Job(_) =>
      case Leave(_) =>
      case Break =>
    }
  }

  lemma SenderStaysGone(n: Net, step: SenderStep)
    requires n.gone
    ensures SenderNext(n, step).gone
  {
  }

  lemma ReceiverStaysGone(n: Net, step: ReceiverStep)
    requires n.gone
    ensures ReceiverNext(n, step).gone
  {
  }

  lemma {:induction false} RunInv(n: Net, steps: seq<Step>)
    requires n.gone || Inv(n)
    ensures Run(n, steps).gone || Inv(Run(n, steps))
    decreases |steps|
  {
    if steps != [] {
      if n.gone {
        GoneStays(n, steps[0]);
      } else {
        StepInv(n, steps[0]);
      }
      RunInv(Next(n, steps[0]), steps[1..]);
    }
  }

  // ----- Agreement

  /** In every run, whatever broke or restarted: a file the sender has as completed has ended on the
      receiver. */
  lemma CompletedMeansEnded(sizes: map<FileId, nat>, steps: seq<Step>, f: FileId)
    requires !Run(Init(sizes), steps).gone
    ensures SenderCompleted(Run(Init(sizes), steps), f) ==> ReceiverEnded(Run(Init(sizes), steps), f)
  {
    InitInv(sizes);
    RunInv(Init(sizes), steps);
    assert FileInv(Run(Init(sizes), steps), f);
  }

  /** Nothing is queued, on the wire or in a job on the current connection. */
  predicate Quiet(n: Net) {
    && n.link == Up && n.sReqs == [] && n.rReqs == [] && n.toR == [] && n.toS == []
    && n.failing == multiset{} && n.commits == multiset{} && n.preparing == {} && n.streaming == {}
  }

  ghost predicate SidesAgree(n: Net) {
    forall f :: f in n.sizes ==> (SenderEnded(n, f) <==> ReceiverEnded(n, f))
  }

  lemma QuietAgrees(n: Net)
    requires Inv(n) && Quiet(n) && Attached(n)
    ensures SidesAgree(n)
  {
    forall f | f in n.sizes
      ensures SenderEnded(n, f) <==> ReceiverEnded(n, f)
    {
      assert FileInv(n, f);
    }
  }

  /** After any run, once the connection is quiet a file has ended on the sender exactly when it has ended
      on the receiver. */
  lemma SettledRunAgrees(sizes: map<FileId, nat>, steps: seq<Step>)
    requires var n := Run(Init(sizes), steps); !n.gone && Quiet(n) && Attached(n)
    ensures SidesAgree(Run(Init(sizes), steps))
  {
    InitInv(sizes);
    RunInv(Init(sizes), steps);
    QuietAgrees(Run(Init(sizes), steps));
  }
}
