/** What a break does not undo, and what an end does undo: work that is under way when the connection breaks can
    still end its file, messages that were on the wire still count, and the end of a file stops its jobs. */
module AfterBreak {
  import opened Base
  import opened Storage
  import opened Protocol
  import opened ConvergenceInvariant
  import opened SenderSteps
  import opened ReceiverSteps
  import Operations
  import O = Outgoing
  import I = Incoming

  predicate LiveOnReceiver(n: Net, f: FileId) {
    I.Usable(n.r) && f in n.r.mem.value.files && !n.r.mem.value.files[f].InTerminal?
  }

  predicate EndedOnReceiver(n: Net, f: FileId, kind: FileTerminal) {
    n.r.mem.Some? && f in n.r.mem.value.files && n.r.mem.value.files[f] == I.InTerminal(kind)
  }

  predicate LiveOnSender(n: Net, f: FileId) {
    n.s.mem.Some? && f in n.s.mem.value.files && n.s.mem.value.files[f] == O.OutAlive
  }

  predicate EndedOnSender(n: Net, f: FileId, kind: FileTerminal) {
    n.s.mem.Some? && f in n.s.mem.value.files && n.s.mem.value.files[f] == O.OutTerminal(kind)
  }

  function KindOfCommit(c: Commit): FileTerminal {
    if c.success then Completed else Failed
  }

  /** The final section of a download ends the file as the job came out. */
  lemma OrphanEnds(n: Net, c: Commit)
    requires c in n.orphans && LiveOnReceiver(n, c.file)
    ensures EndedOnReceiver(CommittingOrphan(n, c), c.file, KindOfCommit(c))
    ensures (c.file, KindOfCommit(c)) in CommittingOrphan(n, c).rLog
  {
    Operations.ReceiverEnds(n.r, c.file, Operations.Finished(c.success));
  }

  /** A download that has come to its end when the connection breaks still ends its file, as it came out. */
  lemma FinishedBeforeBreak(n: Net, c: Commit)
    requires n.link != Down && c in n.commits && LiveOnReceiver(n, c.file)
    ensures EndedOnReceiver(CommittingOrphan(Broken(n), c), c.file, KindOfCommit(c))
  {
    OrphanEnds(Broken(n), c);
  }

  /** So does one that was still running, or only asked for, if its loop gets to do it. */
  lemma RunningAtBreak(n: Net, f: FileId, success: bool)
    requires n.link != Down && LiveOnReceiver(n, f)
    requires ServerReq.Download(f) in n.rReqs || f in n.preparing || f in n.streaming
    ensures EndedOnReceiver(CommittingOrphan(StrayEnding(Broken(n), f, success), Commit(f, success)), f,
                            KindOfCommit(Commit(f, success)))
  {
    UnfinishedWorks(n, f);
    OrphanEnds(StrayEnding(Broken(n), f, success), Commit(f, success));
  }

  /** An end the receiver had sent still reaches the sender, if that reads on before it dials again. */
  lemma SenderHearsAfterBreak(n: Net)
    requires n.link != Down && n.toS != [] && !n.toS[0].SStart? && LiveOnSender(n, n.toS[0].file)
    ensures EndedOnSender(SenderReadsLate(Broken(n)), n.toS[0].file, KindSaid(n.toS[0]))
  {
    var m := n.toS[0];
    HandlesEnd(Broken(n).(lateS := n.toS[1..]), m);
    Operations.SenderEnds(Broken(n).s, m.file, Operations.HeardOf(KindSaid(m)));
  }

  /** An end the sender had sent still reaches the receiver, wherever it stands among the leftovers. */
  lemma ReceiverHearsAfterBreak(n: Net, i: nat, closed: bool)
    requires n.link != Down && i < |n.toR| && (n.toR[i].CReject? || n.toR[i].CError?) && LiveOnReceiver(n, n.toR[i].file)
    ensures EndedOnReceiver(ReceiverReadsLate(Broken(n), |n.lateR| + i, closed), n.toR[i].file, KindTold(n.toR[i]))
  {
    var m := n.toR[i];
    assert Broken(n).lateR[|n.lateR| + i] == m;
    Operations.ReceiverEnds(n.r, m.file, Operations.ToldOf(KindTold(m)));
  }

  predicate NoJob(n: Net, f: FileId) {
    f !in n.preparing && f !in n.streaming && f !in n.handed
  }

  /** The end of a file stops what is running for it on the current connection: on the receiver when it tells of its
      own rejection and when it is told of an end, on the sender when it is told. */
  lemma EndStopsJobs(n: Net)
    ensures n.link == Up && n.rReqs != [] && n.rReqs[0].Reject? ==>
              NoJob(Taking(n), n.rReqs[0].file) && SReject(n.rReqs[0].file) in Taking(n).toS
    ensures n.link == Up && n.toR != [] && (n.toR[0].CReject? || n.toR[0].CError?) ==>
              NoJob(ReceiverReceives(n), n.toR[0].file)
    ensures n.link != Down && n.toS != [] && !n.toS[0].SStart? ==>
              Failing(n.toS[0].file, true) !in SenderReceives(n).failing
    ensures n.link != Down && n.sReqs != [] && n.sReqs[0].RejectFile? ==>
              Failing(n.sReqs[0].file, true) !in Sending(n).failing && CReject(n.sReqs[0].file) in Sending(n).toR
  {
    if n.link == Up && n.toR != [] && (n.toR[0].CReject? || n.toR[0].CError?) {
      HandlesTold(n.(toR := n.toR[1..]), n.toR[0]);
    }
    if n.link != Down && n.toS != [] && !n.toS[0].SStart? {
      HandlesEnd(n.(toS := n.toS[1..]), n.toS[0]);
    }
  }

  /** The start of a download is announced to the sender, which answers with an error exactly when the file has ended
      there, and with nothing otherwise. */
  lemma StartIsAnswered(n: Net, f: FileId)
    ensures n.link == Up && n.rReqs != [] && n.rReqs[0] == Start(f) ==> Taking(n).toS == n.toS + [SStart(f)]
    ensures f in n.preparing ==> Starting(n, f).rReqs == n.rReqs + [Start(f)] && f in Starting(n, f).streaming
    ensures n.link != Down && n.s.mem.Some? && n.toS != [] && n.toS[0] == SStart(f) ==>
              SenderReceives(n).toR == n.toR + if LiveOnSender(n, f) then [] else [CError(f)]
  {
    assert n.toR + [] == n.toR;
  }

  /** A chunk that comes after the job of its file is over is answered with an error, any other is taken quietly. */
  lemma ChunkIsAnswered(n: Net)
    requires n.link == Up && n.toR != [] && n.toR[0].CChunk?
    ensures ReceiverReceives(n).toS == n.toS + if n.toR[0].file in n.over then [SError(n.toR[0].file)] else []
  {
    assert n.toS + [] == n.toS;
  }

  /** The final section of the job at hand announces its outcome on its own connection, and the job is over. */
  lemma CommittedIsOver(n: Net, c: Commit)
    requires c in n.commits && c.file in n.handed
    ensures c.file in Committing(n, c).over && c.file !in Committing(n, c).handed
    ensures Committing(n, c).rReqs == n.rReqs + [if c.success then Done(c.file) else Fail(c.file)]
  {
  }
}
