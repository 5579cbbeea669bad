/** While neither side has cancelled or removed the transfer, both sides end up agreeing on which files
    have ended: whatever breaks, restarts and interleaves, a file that ended on one side has ended on the
    other or its end is under way, and a connection that settles has told everything. */
module ConvergenceInvariant {
  import opened Base
  import opened Storage
  import opened Protocol
  import opened Agreement
  import O = Outgoing
  import I = Incoming

  // ----- The invariant

  ghost predicate SenderEnded(n: Net, f: FileId) {
    n.s.mem.Some? && (f in n.s.mem.value.files ==> n.s.mem.value.files[f].OutTerminal?)
  }

  ghost predicate ReceiverEnded(n: Net, f: FileId) {
    n.r.mem.Some? && (f in n.r.mem.value.files ==> n.r.mem.value.files[f].InTerminal?)
  }

  /** The sender has the file as completed, in memory, in its tables or in an event on its way there. */
  ghost predicate SenderCompleted(n: Net, f: FileId) {
    || (n.s.mem.Some? && f in n.s.mem.value.files && n.s.mem.value.files[f] == O.OutTerminal(Completed))
    || (n.s.row.Some? && f in n.s.row.value.recorded.completed)
    || (f, Completed) in n.sLog
  }

  /** The end of the file is on its way from the sender to the receiver. */
  ghost predicate SenderTelling(n: Net, f: FileId) {
    || CReject(f) in n.toR || CError(f) in n.toR
    || RejectFile(f) in n.sReqs || FailFile(f) in n.sReqs
    || Failing(f, true) in n.failing || Failing(f, false) in n.failing
  }

  ghost predicate SenderTold(n: Net, f: FileId) {
    CReject(f) in n.lateR || CError(f) in n.lateR
  }

  /** The receiver has queued or sent something that says the file has ended. */
  ghost predicate ReceiverSaying(n: Net, f: FileId) {
    || SDone(f) in n.toS || SError(f) in n.toS || SReject(f) in n.toS
    || Done(f) in n.rReqs || Fail(f) in n.rReqs || Reject(f) in n.rReqs
  }

  ghost predicate ReceiverSaid(n: Net, f: FileId) {
    SDone(f) in n.lateS || SError(f) in n.lateS || SReject(f) in n.lateS
  }

  /** A download of the file is queued or running, and will say how it ended. */
  ghost predicate Working(n: Net, f: FileId) {
    || ServerReq.Download(f) in n.rReqs || f in n.preparing || f in n.streaming
    || Commit(f, true) in n.commits || Commit(f, false) in n.commits
  }

  /** Some other loop was asked for a download of the file, or does it, or a job of such a loop ends it. */
  ghost predicate Orphaned(n: Net, f: FileId) {
    f in n.strays || Commit(f, true) in n.orphans || Commit(f, false) in n.orphans
  }

  /** The download of the file has been asked for at some time. */
  ghost predicate Begun(n: Net, f: FileId) {
    n.r.mem.Some? && f in n.r.mem.value.files && n.r.mem.value.files[f] != I.Idle
  }

  ghost predicate Downloading(n: Net, f: FileId) {
    n.r.mem.Some? && f in n.r.mem.value.files && n.r.mem.value.files[f].InFlight?
  }

  ghost predicate Logged(log: set<(FileId, FileTerminal)>, f: FileId) {
    (f, Rejected) in log || (f, Completed) in log || (f, Failed) in log
  }

  ghost predicate Shape(n: Net) {
    SenderShape(n) && ReceiverShape(n) && LinkShape(n)
  }

  ghost predicate SenderShape(n: Net) {
    && OutAgree(n.s) && O.Usable(n.s) && n.s.mem.value.sizes == n.sizes
    && (n.link != Down ==> n.s.mem.value.conn.Some?)
  }

  ghost predicate ReceiverShape(n: Net) {
    && InAgree(n.r)
    && (n.r.mem.None? ==> n.r.row.None?)
    && (n.r.mem.Some? ==> n.r.mem.value.state == Active && n.r.mem.value.sizes == n.sizes && n.r.mem.value.peer == SENDER)
    && (n.link == Up ==> n.r.mem.Some?)
  }

  ghost predicate LinkShape(n: Net) {
    && (n.link != Down ==> n.session != STALE)
    && (n.link == Up ==> CRequest !in n.toR)
    && (n.link == Dialed ==> n.toR != [] && n.toR[0] == CRequest && CRequest !in n.toR[1..])
    && (n.link != Up ==> n.rReqs == [] && n.commits == multiset{} && n.toS == [])
    && (n.link != Up ==> n.preparing == {} && n.streaming == {} && n.handed == {} && n.over == {})
    && (n.link == Down ==> n.sReqs == [] && n.toR == [] && n.failing == multiset{})
    && CloseTransfer !in n.sReqs && Close !in n.rReqs
  }

  ghost predicate FileInv(n: Net, f: FileId) {
    // nobody announces an end that has not happened
    && (SenderTelling(n, f) || SenderTold(n, f) || Logged(n.sLog, f) ==> SenderEnded(n, f))
    && (ReceiverSaying(n, f) || ReceiverSaid(n, f) || f in n.over || Logged(n.rLog, f) ==> ReceiverEnded(n, f))
    // completed on the sender means ended on the receiver
    && (SenderCompleted(n, f) ==> ReceiverEnded(n, f))
    // on a live connection every end is known to the other side or under way
    && (n.link != Down && f in n.sizes && SenderEnded(n, f) ==> ReceiverEnded(n, f) || SenderTelling(n, f))
    && (Attached(n) && f in n.sizes && ReceiverEnded(n, f) ==>
          SenderEnded(n, f) || ReceiverSaying(n, f) || Working(n, f))
  }

  /** Jobs are for downloads that were asked for, and a download in flight has one on a live connection. */
  ghost predicate JobInv(n: Net, f: FileId) {
    && (f in n.handed ==> Commit(f, true) in n.commits || Commit(f, false) in n.commits)
    && (Working(n, f) || Orphaned(n, f) ==> Begun(n, f))
    && (Attached(n) && Downloading(n, f) ==> Working(n, f))
  }

  ghost predicate Inv(n: Net) {
    && Shape(n)
    && (forall f :: FileInv(n, f))
    && (forall f :: JobInv(n, f))
  }

  /** Steps of the sender leave the jobs alone. */
  ghost predicate SameJobs(n: Net, n': Net) {
    && n'.r == n.r && n'.link == n.link && n'.session == n.session && n'.rReqs == n.rReqs
    && n'.preparing == n.preparing && n'.streaming == n.streaming && n'.handed == n.handed
    && n'.commits == n.commits && n'.orphans == n.orphans && n'.strays == n.strays
  }

  lemma SameJobsInv(n: Net, n': Net)
    requires SameJobs(n, n')
    requires forall f :: JobInv(n, f)
    ensures forall f :: JobInv(n', f)
  {
    forall f
      ensures JobInv(n', f)
    {
      assert JobInv(n, f);
    }
  }

  lemma InitInv(sizes: map<FileId, nat>)
    ensures Inv(Init(sizes))
  {
    var n := Init(sizes);
    forall f
      ensures FileInv(n, f) && JobInv(n, f)
    {
    }
  }

  // ----- Queues and jobs

  /** What a break leaves to the other loops is what the current one was working on. */
  lemma UnfinishedWorks(n: Net, f: FileId)
    ensures f in Unfinished(n) <==> ServerReq.Download(f) in n.rReqs || f in n.preparing || f in n.streaming
  {
    var asked := set r | r in n.rReqs && r.Download? :: r.file;
    assert ServerReq.Download(f) in n.rReqs ==> f in asked;
  }

  lemma PendingOutAnnounces(files: map<FileId, O.OutFile>, f: FileId)
    ensures RejectFile(f) in O.PendingOut(files) <==> f in files && files[f] == O.OutTerminal(Rejected)
    ensures FailFile(f) in O.PendingOut(files) <==> f in files && files[f] == O.OutTerminal(Failed)
    ensures CloseTransfer !in O.PendingOut(files)
  {
    if f in files && O.EndRequest(files[f], f).Some? {
      assert O.EndRequest(files[f], f).value in O.PendingOut(files);
    }
  }

  lemma PendingInAnnounces(files: map<FileId, I.InFile>, f: FileId)
    ensures Reject(f) in I.PendingIn(files) <==> f in files && files[f] == I.InTerminal(Rejected)
    ensures Done(f) in I.PendingIn(files) <==> f in files && files[f] == I.InTerminal(Completed)
    ensures Fail(f) in I.PendingIn(files) <==> f in files && files[f] == I.InTerminal(Failed)
    ensures ServerReq.Download(f) in I.PendingIn(files) <==> f in files && files[f].InFlight?
    ensures Start(f) !in I.PendingIn(files) && Close !in I.PendingIn(files)
  {
    if f in files && I.ResumeRequest(files[f], f).Some? {
      assert I.ResumeRequest(files[f], f).value in I.PendingIn(files);
    }
  }

  /** Taking the head off a queue loses the head and nothing else. */
  lemma Tail<T>(q: seq<T>)
    requires q != []
    ensures forall x :: x in q <==> x == q[0] || x in q[1..]
  {
    assert q == [q[0]] + q[1..];
  }

  lemma DropAt<T>(q: seq<T>, i: nat)
    requires i < |q|
    ensures forall x :: x in q[..i] + q[i + 1..] ==> x in q
  {
  }
}
