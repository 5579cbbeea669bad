/** The receiver's steps keep the two-party invariant. */
module ReceiverSteps {
  import opened Base
  import opened Storage
  import opened Protocol
  import opened Agreement
  import opened ConvergenceInvariant
  import opened SenderSteps
  import O = Outgoing
  import I = Incoming

  // ----- The receiver ends a file

  /** A receiver's slot before and after file `f` has ended. */
  ghost predicate OnlyEndsIn(s: I.InSlot, s': I.InSlot, f: FileId) {
    && s.mem.Some? && s'.mem.Some? && s.row.Some? && s'.row.Some?
    && s'.mem.value == s.mem.value.(files := s'.mem.value.files)
    && s'.mem.value.files.Keys == s.mem.value.files.Keys
    && (forall g :: g in s.mem.value.files && g != f ==> s'.mem.value.files[g] == s.mem.value.files[g])
    && (f in s.mem.value.files ==> s'.mem.value.files[f].InTerminal?)
  }

  lemma ReceiverTerminates(s: I.InSlot, f: FileId, kind: FileTerminal)
    requires InAgree(s) && I.Usable(s)
    ensures InAgree(I.Terminate(s, f, kind).slot) && OnlyEndsIn(s, I.Terminate(s, f, kind).slot, f)
    ensures I.TerminalRecv(s, f, kind).slot == I.Terminate(s, f, kind).slot
    ensures kind == Rejected ==> I.RejectionPost(s, f).slot == I.Terminate(s, f, kind).slot
    ensures kind == Completed ==> I.FinishPost(s, f, true).slot == I.Terminate(s, f, kind).slot
    ensures kind == Failed ==> I.FinishPost(s, f, false).slot == I.Terminate(s, f, kind).slot
  {
    TerminateAgrees(s, f, kind);
  }

  /** The receiver ends `g`: the sender knows, or hears of it on an attached connection. */
  lemma ReceiverEndsFile(n: Net, n': Net, g: FileId, f: FileId)
    requires FileInv(n, f) && OnlyEndsIn(n.r, n'.r, g)
    requires n'.sizes == n.sizes && n'.s == n.s && n'.sLog == n.sLog && n'.link == n.link && n'.session == n.session
    requires SenderTelling(n', f) ==> SenderTelling(n, f)
    requires f != g ==> (SenderTelling(n, f) ==> SenderTelling(n', f))
    requires SenderTold(n', f) ==> SenderTold(n, f)
    requires ReceiverSaid(n', f) ==> ReceiverSaid(n, f)
    requires f != g ==> (ReceiverSaying(n', f) <==> ReceiverSaying(n, f))
    requires f != g ==> (Working(n, f) ==> Working(n', f))
    requires f != g ==> (f in n'.over ==> f in n.over)
    requires f != g ==> (Logged(n'.rLog, f) ==> Logged(n.rLog, f))
    requires f == g && f in n.sizes && Attached(n') ==> SenderEnded(n, f) || ReceiverSaying(n', f) || Working(n', f)
    ensures FileInv(n', f)
  {
    assert SenderEnded(n', f) <==> SenderEnded(n, f);
    assert SenderCompleted(n', f) <==> SenderCompleted(n, f);
    assert Attached(n') <==> Attached(n);
    assert ReceiverEnded(n, f) || f == g ==> ReceiverEnded(n', f);
    assert f != g ==> (ReceiverEnded(n', f) ==> ReceiverEnded(n, f));
  }

  /** The jobs of a receiver that ends `g`. */
  lemma ReceiverEndsJobs(n: Net, n': Net, g: FileId, f: FileId)
    requires JobInv(n, f) && OnlyEndsIn(n.r, n'.r, g)
    requires n'.link == n.link && n'.session == n.session
    requires f != g ==> (Working(n, f) ==> Working(n', f))
    requires Working(n', f) ==> Working(n, f)
    requires Orphaned(n', f) ==> Orphaned(n, f)
    requires f in n'.handed ==> Commit(f, true) in n'.commits || Commit(f, false) in n'.commits
    ensures JobInv(n', f)
  {
  }

  function KindTold(m: ClientMsg): FileTerminal {
    if m.CReject? then Rejected else Failed
  }

  lemma HandlesTold(n: Net, m: ClientMsg)
    requires m.CReject? || m.CError?
    ensures ReceiverHandles(n, m)
         == StopDownload(ReceiverEnds(n, I.TerminalRecv(n.r, m.file, KindTold(m)), m.file, KindTold(m)), m.file)
  {
  }

  lemma ReceiverToldTelling(n: Net, f: FileId)
    requires n.toR != [] && (n.toR[0].CReject? || n.toR[0].CError?)
    ensures var rest := n.(toR := n.toR[1..]);
            && (SenderTelling(rest, f) ==> SenderTelling(n, f))
            && (f != n.toR[0].file ==> (SenderTelling(n, f) ==> SenderTelling(rest, f)))
  {
    Tail(n.toR);
  }

  lemma ReceiverToldFile(n: Net, f: FileId, r': I.InSlot)
    requires FileInv(n, f) && n.link == Up && n.toR != [] && (n.toR[0].CReject? || n.toR[0].CError?)
    requires SenderEnded(n, n.toR[0].file)
    requires r' == I.TerminalRecv(n.r, n.toR[0].file, KindTold(n.toR[0])).slot && OnlyEndsIn(n.r, r', n.toR[0].file)
    ensures FileInv(ReceiverReceives(n), f)
  {
    var m, rest, n' := n.toR[0], n.(toR := n.toR[1..]), ReceiverReceives(n);
    HandlesTold(rest, m);
    ReceiverToldTelling(n, f);
    assert n'.r == r';
    ReceiverEndsFile(n, n', m.file, f);
  }

  lemma ReceiverToldJobs(n: Net, f: FileId, r': I.InSlot)
    requires JobInv(n, f) && n.link == Up && n.toR != [] && (n.toR[0].CReject? || n.toR[0].CError?)
    requires r' == I.TerminalRecv(n.r, n.toR[0].file, KindTold(n.toR[0])).slot && OnlyEndsIn(n.r, r', n.toR[0].file)
    ensures JobInv(ReceiverReceives(n), f)
  {
    HandlesTold(n.(toR := n.toR[1..]), n.toR[0]);
    ReceiverEndsJobs(n, ReceiverReceives(n), n.toR[0].file, f);
  }

  lemma ChunkFile(n: Net, f: FileId)
    requires FileInv(n, f) && n.link == Up && n.toR != [] && n.toR[0].CChunk?
    ensures FileInv(ReceiverReceives(n), f)
  {
    var g, n' := n.toR[0].file, ReceiverReceives(n);
    ChunkTelling(n, f);
    assert n'.toS == n.toS || (g in n.over && n'.toS == n.toS + [SError(g)]);
    assert ReceiverSaying(n', f) ==> ReceiverSaying(n, f) || f in n.over;
    assert ReceiverSaying(n, f) ==> ReceiverSaying(n', f);
  }

  lemma ChunkTelling(n: Net, f: FileId)
    requires n.toR != [] && n.toR[0].CChunk?
    ensures SenderTelling(n.(toR := n.toR[1..]), f) <==> SenderTelling(n, f)
  {
    Tail(n.toR);
  }

  lemma ReceiverRecvInv(n: Net)
    requires Inv(n) && n.link == Up && n.toR != []
    ensures Inv(ReceiverReceives(n)) && ReceiverReceives(n).gone == n.gone
  {
    var m, n' := n.toR[0], ReceiverReceives(n);
    ReceiverRecvShape(n);
    if !m.CChunk? {
      assert m in n.toR;
      assert FileInv(n, m.file);
      ReceiverTerminates(n.r, m.file, KindTold(m));
    }
    if m.CChunk? {
      SameJobsInv(n, n');
    }
    forall f
      ensures FileInv(n', f) && JobInv(n', f)
    {
      assert FileInv(n, f) && JobInv(n, f);
      if m.CChunk? {
        ChunkFile(n, f);
      } else {
        ReceiverToldFile(n, f, I.TerminalRecv(n.r, m.file, KindTold(m)).slot);
        ReceiverToldJobs(n, f, I.TerminalRecv(n.r, m.file, KindTold(m)).slot);
      }
    }
  }

  lemma ReceiverRecvShape(n: Net)
    requires Shape(n) && n.link == Up && n.toR != []
    ensures Shape(ReceiverReceives(n)) && ReceiverReceives(n).gone == n.gone
  {
    Tail(n.toR);
    var m := n.toR[0];
    assert m != CRequest;
    if !m.CChunk? {
      ReceiverTerminates(n.r, m.file, KindTold(m));
    }
  }

  // ----- Leftovers

  lemma LateShape(n: Net, i: nat, closed: bool)
    requires Shape(n) && i < |n.lateR|
    ensures Shape(ReceiverReadsLate(n, i, closed)) && ReceiverReadsLate(n, i, closed).gone == n.gone
  {
    var m := n.lateR[i];
    match m {
      case CRequest => RegisterAgrees(n.r, SENDER, n.sizes, STALE, closed);
      case CChunk(_) =>
      case _ =>
        if n.r.mem.Some? {
          ReceiverTerminates(n.r, m.file, KindTold(m));
        }
    }
  }

  lemma LateTold(n: Net, i: nat, f: FileId)
    requires i < |n.lateR|
    ensures SenderTold(n.(lateR := n.lateR[..i] + n.lateR[i + 1..]), f) ==> SenderTold(n, f)
  {
    DropAt(n.lateR, i);
  }

  /** A leftover request registers the transfer, or moves the entry's connection to one the sender has left. */
  lemma LateRequestFile(n: Net, i: nat, closed: bool, f: FileId)
    requires FileInv(n, f) && i < |n.lateR| && n.lateR[i] == CRequest
    requires n.link != Down ==> n.session != STALE
    requires n.r.mem.None? ==> n.r.row.None?
    requires n.r.mem.Some? ==> n.r.mem.value.state == Active
    ensures FileInv(ReceiverReadsLate(n, i, closed), f)
  {
    LateTold(n, i, f);
    var n' := ReceiverReadsLate(n, i, closed);
    assert SenderCompleted(n', f) <==> SenderCompleted(n, f);
    assert ReceiverEnded(n, f) ==> ReceiverEnded(n', f);
    assert n.r.mem.Some? ==> n'.r.mem.Some? && n'.r.mem.value.files == n.r.mem.value.files;
    assert Attached(n') ==> Attached(n);
  }

  lemma LateToldFile(n: Net, i: nat, closed: bool, f: FileId, r': I.InSlot)
    requires FileInv(n, f) && i < |n.lateR| && (n.lateR[i].CReject? || n.lateR[i].CError?)
    requires SenderEnded(n, n.lateR[i].file)
    requires r' == I.TerminalRecv(n.r, n.lateR[i].file, KindTold(n.lateR[i])).slot
    requires n.r.mem.Some? ==> OnlyEndsIn(n.r, r', n.lateR[i].file)
    ensures FileInv(ReceiverReadsLate(n, i, closed), f)
  {
    LateTold(n, i, f);
    var m, n' := n.lateR[i], ReceiverReadsLate(n, i, closed);
    assert n'.r == r';
    if n.r.mem.Some? {
      ReceiverEndsFile(n, n', m.file, f);
    }
  }

  lemma LateToldJobs(n: Net, i: nat, closed: bool, f: FileId)
    requires JobInv(n, f) && i < |n.lateR| && (n.lateR[i].CReject? || n.lateR[i].CError?)
    requires n.r.mem.Some? ==> OnlyEndsIn(n.r, ReceiverReadsLate(n, i, closed).r, n.lateR[i].file)
    ensures JobInv(ReceiverReadsLate(n, i, closed), f)
  {
    if n.r.mem.Some? {
      ReceiverEndsJobs(n, ReceiverReadsLate(n, i, closed), n.lateR[i].file, f);
    }
  }

  lemma LateRequestJobs(n: Net, i: nat, closed: bool, f: FileId)
    requires JobInv(n, f) && i < |n.lateR| && n.lateR[i] == CRequest
    requires n.link != Down ==> n.session != STALE
    requires n.r.mem.Some? ==> n.r.mem.value.state == Active
    ensures JobInv(ReceiverReadsLate(n, i, closed), f)
  {
    var n' := ReceiverReadsLate(n, i, closed);
    assert Working(n', f) <==> Working(n, f);
    assert n.r.mem.Some? ==> n'.r.mem.value.files == n.r.mem.value.files;
    assert Attached(n') ==> Attached(n);
  }

  lemma LateChunkJobs(n: Net, i: nat, closed: bool, f: FileId)
    requires JobInv(n, f) && i < |n.lateR| && n.lateR[i].CChunk?
    ensures JobInv(ReceiverReadsLate(n, i, closed), f)
  {
  }

  lemma LateChunkFile(n: Net, i: nat, closed: bool, f: FileId)
    requires FileInv(n, f) && i < |n.lateR| && n.lateR[i].CChunk?
    ensures FileInv(ReceiverReadsLate(n, i, closed), f)
  {
    LateTold(n, i, f);
  }

  lemma LateRequestInv(n: Net, i: nat, closed: bool)
    requires Inv(n) && i < |n.lateR| && n.lateR[i] == CRequest
    ensures forall f :: FileInv(ReceiverReadsLate(n, i, closed), f) && JobInv(ReceiverReadsLate(n, i, closed), f)
  {
    forall f
      ensures FileInv(ReceiverReadsLate(n, i, closed), f) && JobInv(ReceiverReadsLate(n, i, closed), f)
    {
      assert FileInv(n, f) && JobInv(n, f);
      LateRequestFile(n, i, closed, f);
      LateRequestJobs(n, i, closed, f);
    }
  }

  lemma LateChunkInv(n: Net, i: nat, closed: bool)
    requires Inv(n) && i < |n.lateR| && n.lateR[i].CChunk?
    ensures forall f :: FileInv(ReceiverReadsLate(n, i, closed), f) && JobInv(ReceiverReadsLate(n, i, closed), f)
  {
    forall f
      ensures FileInv(ReceiverReadsLate(n, i, closed), f) && JobInv(ReceiverReadsLate(n, i, closed), f)
    {
      assert FileInv(n, f) && JobInv(n, f);
      LateChunkFile(n, i, closed, f);
      LateChunkJobs(n, i, closed, f);
    }
  }

  lemma LateToldInv(n: Net, i: nat, closed: bool)
    requires Inv(n) && i < |n.lateR| && (n.lateR[i].CReject? || n.lateR[i].CError?)
    ensures forall f :: FileInv(ReceiverReadsLate(n, i, closed), f) && JobInv(ReceiverReadsLate(n, i, closed), f)
  {
    var m := n.lateR[i];
    assert FileInv(n, m.file);
    if n.r.mem.Some? {
      ReceiverTerminates(n.r, m.file, KindTold(m));
    }
    forall f
      ensures FileInv(ReceiverReadsLate(n, i, closed), f) && JobInv(ReceiverReadsLate(n, i, closed), f)
    {
      assert FileInv(n, f) && JobInv(n, f);
      LateToldFile(n, i, closed, f, I.TerminalRecv(n.r, m.file, KindTold(m)).slot);
      LateToldJobs(n, i, closed, f);
    }
  }

  lemma ReceiverLateInv(n: Net, i: nat, closed: bool)
    requires Inv(n) && i < |n.lateR|
    ensures Inv(ReceiverReadsLate(n, i, closed)) && ReceiverReadsLate(n, i, closed).gone == n.gone
  {
    LateShape(n, i, closed);
    match n.lateR[i] {
      case CRequest => LateRequestInv(n, i, closed);
      case CChunk(_) => LateChunkInv(n, i, closed);
      case _ => LateToldInv(n, i, closed);
    }
  }

  // ----- Registering

  lemma AcceptShape(n: Net, replay: seq<ServerReq>, closed: bool)
    requires Shape(n) && n.link == Dialed && n.toR != [] && n.toR[0] == CRequest && CRequest !in n.toR[1..]
    requires IsReplayOrder(n, replay)
    ensures Shape(Accepting(n, replay, closed)) && Accepting(n, replay, closed).gone == n.gone
  {
    RegisterAgrees(n.r, SENDER, n.sizes, n.session, closed);
    BrokenShape(n);
    if n.r.mem.Some? {
      PendingInAnnounces(n.r.mem.value.files, "");
    }
    assert replay + [] == replay;
  }

  lemma AcceptTelling(n: Net, f: FileId)
    requires n.toR != [] && n.toR[0] == CRequest
    ensures SenderTelling(n.(toR := n.toR[1..]), f) <==> SenderTelling(n, f)
  {
    Tail(n.toR);
  }

  /** The replayed requests say every end the receiver knows of. */
  lemma ReplaySays(n: Net, replay: seq<ServerReq>, f: FileId)
    requires IsReplayOrder(n, replay) && n.r.mem.Some?
    ensures (Done(f) in replay || Fail(f) in replay || Reject(f) in replay)
       <==> f in n.r.mem.value.files && n.r.mem.value.files[f].InTerminal?
    ensures ServerReq.Download(f) in replay <==> Downloading(n, f)
  {
    PendingInAnnounces(n.r.mem.value.files, f);
  }

  lemma AcceptFile(n: Net, replay: seq<ServerReq>, closed: bool, f: FileId)
    requires FileInv(n, f) && ReceiverShape(n) && n.link == Dialed && n.toR != [] && n.toR[0] == CRequest
    requires IsReplayOrder(n, replay) && LinkShape(n)
    requires I.Register(n.r, SENDER, n.sizes, n.session, closed).result.Ok?
    ensures FileInv(Accepting(n, replay, closed), f)
  {
    var n' := Accepting(n, replay, closed);
    AcceptTelling(n, f);
    assert replay + [] == replay;
    if n.r.mem.Some? {
      ReplaySays(n, replay, f);
      AcceptKnownFile(n, n', f);
    } else {
      assert forall g :: g in n.sizes ==> n'.r.mem.value.files[g] == I.Idle;
    }
  }

  lemma AcceptKnownFile(n: Net, n': Net, f: FileId)
    requires FileInv(n, f) && n.r.mem.Some? && n'.r.mem.Some? && n.link == Dialed
    requires n'.sizes == n.sizes && n'.s == n.s && n'.sLog == n.sLog && n'.rLog == n.rLog && n'.over == n.over
    requires n'.r.mem.value.files == n.r.mem.value.files && n'.toS == [] && n'.lateS == n.lateS && n'.lateR == n.lateR
    requires n.r.mem.value.files.Keys == n.sizes.Keys
    requires SenderTelling(n', f) <==> SenderTelling(n, f)
    requires (Done(f) in n'.rReqs || Fail(f) in n'.rReqs || Reject(f) in n'.rReqs)
        <==> f in n.r.mem.value.files && n.r.mem.value.files[f].InTerminal?
    ensures FileInv(n', f)
  {
  }

  lemma AcceptJobs(n: Net, replay: seq<ServerReq>, closed: bool, f: FileId)
    requires JobInv(n, f) && ReceiverShape(n) && LinkShape(n) && n.link == Dialed && n.toR[0] == CRequest
    requires IsReplayOrder(n, replay) && I.Register(n.r, SENDER, n.sizes, n.session, closed).result.Ok?
    ensures JobInv(Accepting(n, replay, closed), f)
  {
    assert replay + [] == replay;
    if n.r.mem.Some? {
      ReplaySays(n, replay, f);
    }
  }

  /** What a refused request leaves behind says no more than what a break leaves. */
  lemma TurnedFile(n: Net, f: FileId)
    requires Shape(n) && FileInv(n, f) && n.link == Dialed
    ensures FileInv(Turned(n), f)
  {
    BrokenFile(n, f);
    assert SenderTold(Turned(n), f) ==> SenderTold(n, f);
  }

  lemma AcceptInv(n: Net, replay: seq<ServerReq>, closed: bool)
    requires Inv(n) && n.link == Dialed && n.toR != [] && n.toR[0] == CRequest && CRequest !in n.toR[1..]
    requires IsReplayOrder(n, replay)
    ensures Inv(Accepting(n, replay, closed)) && Accepting(n, replay, closed).gone == n.gone
  {
    AcceptShape(n, replay, closed);
    forall f
      ensures FileInv(Accepting(n, replay, closed), f) && JobInv(Accepting(n, replay, closed), f)
    {
      assert FileInv(n, f) && JobInv(n, f);
      if I.Register(n.r, SENDER, n.sizes, n.session, closed).result.Ok? {
        AcceptFile(n, replay, closed, f);
        AcceptJobs(n, replay, closed, f);
      } else {
        TurnedFile(n, f);
        BrokenJobs(n, f);
      }
    }
  }

  // ----- The receiver's loop and jobs

  lemma TakeShape(n: Net)
    requires Shape(n) && n.link == Up && n.rReqs != [] && n.rReqs[0] != Close
    ensures Shape(Taking(n)) && Taking(n).gone == n.gone
  {
    var n' := Taking(n);
    Tail(n.rReqs);
    assert n'.r == n.r && n'.s == n.s && n'.link == n.link;
    assert SenderShape(n') && ReceiverShape(n');
  }

  lemma TakeSaying(n: Net, f: FileId)
    requires n.link == Up && n.rReqs != [] && n.rReqs[0] != Close
    ensures ReceiverSaying(Taking(n), f) <==> ReceiverSaying(n, f)
  {
    Tail(n.rReqs);
  }

  lemma TakeWorking(n: Net, f: FileId)
    requires n.link == Up && n.rReqs != [] && n.rReqs[0] != Close
    requires f in n.handed ==> Commit(f, true) in n.commits || Commit(f, false) in n.commits
    ensures Working(n, f) ==> Working(Taking(n), f) || ReceiverSaying(n, f)
    ensures Working(Taking(n), f) ==> Working(n, f)
    ensures Working(n, f) && n.rReqs[0] != Reject(f) ==> Working(Taking(n), f)
  {
    Tail(n.rReqs);
  }

  /** Nothing but the receiver's queues and jobs changed, and all that was under way still is. */
  lemma ReceiverWorksFile(n: Net, n': Net, f: FileId)
    requires FileInv(n, f)
    requires n' == n.(rReqs := n'.rReqs, toS := n'.toS, preparing := n'.preparing, streaming := n'.streaming,
                      handed := n'.handed, over := n'.over, commits := n'.commits)
    requires ReceiverSaying(n', f) <==> ReceiverSaying(n, f)
    requires Working(n, f) ==> Working(n', f) || ReceiverSaying(n, f)
    requires f in n'.over ==> f in n.over
    ensures FileInv(n', f)
  {
  }

  lemma ReceiverWorksJobs(n: Net, n': Net, f: FileId)
    requires JobInv(n, f)
    requires n'.r == n.r && n'.link == n.link && n'.session == n.session && n'.orphans == n.orphans && n'.strays == n.strays
    requires Downloading(n, f) && Working(n, f) ==> Working(n', f)
    requires Working(n', f) ==> Working(n, f)
    requires f in n'.handed ==> Commit(f, true) in n'.commits || Commit(f, false) in n'.commits
    ensures JobInv(n', f)
  {
  }

  lemma TakeFile(n: Net, f: FileId)
    requires FileInv(n, f) && JobInv(n, f) && n.link == Up && n.rReqs != [] && n.rReqs[0] != Close
    ensures FileInv(Taking(n), f) && JobInv(Taking(n), f)
  {
    TakeSaying(n, f);
    TakeWorking(n, f);
    assert n.rReqs[0] == Reject(f) ==> ReceiverEnded(n, f) by {
      assert n.rReqs[0] == Reject(f) ==> ReceiverSaying(n, f);
    }
    ReceiverWorksFile(n, Taking(n), f);
    ReceiverWorksJobs(n, Taking(n), f);
  }

  lemma JobStartsFile(n: Net, g: FileId, f: FileId)
    requires FileInv(n, f) && JobInv(n, f) && g in n.preparing
    ensures FileInv(Starting(n, g), f) && JobInv(Starting(n, g), f)
  {
    ReceiverWorksFile(n, Starting(n, g), f);
    ReceiverWorksJobs(n, Starting(n, g), f);
  }

  lemma JobEndsFile(n: Net, g: FileId, success: bool, f: FileId)
    requires FileInv(n, f) && JobInv(n, f) && g in n.preparing + n.streaming
    ensures FileInv(Ending(n, g, success), f) && JobInv(Ending(n, g, success), f)
  {
    ReceiverWorksFile(n, Ending(n, g, success), f);
    ReceiverWorksJobs(n, Ending(n, g, success), f);
  }

  lemma CommitShape(n: Net, c: Commit)
    requires Shape(n) && n.r.mem.Some?
    ensures ReceiverShape(Posting(n, c)) && InAgree(Posting(n, c).r) && OnlyEndsIn(n.r, Posting(n, c).r, c.file)
  {
    ReceiverTerminates(n.r, c.file, if c.success then Completed else Failed);
  }

  lemma CommitFile(n: Net, c: Commit, f: FileId)
    requires FileInv(n, f) && JobInv(n, f) && c in n.commits && OnlyEndsIn(n.r, Posting(n, c).r, c.file)
    ensures FileInv(Committing(n, c), f) && JobInv(Committing(n, c), f)
  {
    var n' := Committing(n, c);
    assert n'.r == Posting(n, c).r;
    ReceiverEndsFile(n, n', c.file, f);
    ReceiverEndsJobs(n, n', c.file, f);
  }

  lemma OrphanFile(n: Net, c: Commit, f: FileId)
    requires FileInv(n, f) && JobInv(n, f) && c in n.orphans && OnlyEndsIn(n.r, Posting(n, c).r, c.file)
    ensures FileInv(CommittingOrphan(n, c), f) && JobInv(CommittingOrphan(n, c), f)
  {
    var n' := CommittingOrphan(n, c);
    assert n'.r == Posting(n, c).r;
    assert f == c.file ==> Begun(n, f);
    ReceiverEndsFile(n, n', c.file, f);
    ReceiverEndsJobs(n, n', c.file, f);
  }

  /** What a rejection changes besides the entry and its tables. */
  lemma RejectPushes(n: Net, g: FileId)
    ensures var n' := ReceiverRejecting(n, g);
            && n' == n.(r := I.RejectionPost(n.r, g).slot, rLog := n'.rLog, rReqs := n'.rReqs)
            && (n'.rReqs == n.rReqs || (Attached(n) && n'.rReqs == n.rReqs + [Reject(g)]))
  {
  }

  lemma RejectShape(n: Net, g: FileId)
    requires Shape(n)
    ensures Shape(ReceiverRejecting(n, g)) && ReceiverRejecting(n, g).gone == n.gone
  {
    RejectPushes(n, g);
    if n.r.mem.Some? {
      ReceiverTerminates(n.r, g, Rejected);
    }
  }

  /** The receiver has ended `g` as rejected, and tells so when it holds the connection. */
  lemma RejectedOnReceiver(n: Net, n': Net, g: FileId, told: bool, f: FileId)
    requires FileInv(n, f) && OnlyEndsIn(n.r, n'.r, g)
    requires n' == n.(r := n'.r, rLog := n'.rLog, rReqs := n'.rReqs)
    requires n'.rReqs == n.rReqs + if told then [Reject(g)] else []
    requires n'.rLog == n.rLog || n'.rLog == n.rLog + {(g, Rejected)}
    requires Attached(n) && g in n.sizes && !ReceiverEnded(n, g) ==> told
    ensures FileInv(n', f)
  {
    ReceiverEndsFile(n, n', g, f);
  }

  lemma RejectFile(n: Net, g: FileId, f: FileId)
    requires FileInv(n, f) && I.Usable(n.r) && OnlyEndsIn(n.r, I.RejectionPost(n.r, g).slot, g)
    requires n.r.mem.value.files.Keys == n.sizes.Keys
    ensures FileInv(ReceiverRejecting(n, g), f)
  {
    var pushed := I.RejectionPost(n.r, g).pushed;
    assert pushed == [] || pushed == [Reject(g)];
    RejectedOnReceiver(n, ReceiverRejecting(n, g), g, Attached(n) && pushed != [], f);
  }

  lemma RejectJobs(n: Net, g: FileId, f: FileId)
    requires JobInv(n, f) && OnlyEndsIn(n.r, I.RejectionPost(n.r, g).slot, g)
    ensures JobInv(ReceiverRejecting(n, g), f)
  {
    var n' := ReceiverRejecting(n, g);
    var pushed := I.RejectionPost(n.r, g).pushed;
    assert pushed == [] || pushed == [Reject(g)];
    assert n'.r == I.RejectionPost(n.r, g).slot;
    ReceiverEndsJobs(n, n', g, f);
  }

  lemma ReceiverRejectsInv(n: Net, g: FileId)
    requires Inv(n)
    ensures Inv(ReceiverRejecting(n, g)) && ReceiverRejecting(n, g).gone == n.gone
  {
    RejectShape(n, g);
    if n.r.mem.Some? {
      ReceiverTerminates(n.r, g, Rejected);
    }
    forall f
      ensures FileInv(ReceiverRejecting(n, g), f) && JobInv(ReceiverRejecting(n, g), f)
    {
      assert FileInv(n, f) && JobInv(n, f);
      if n.r.mem.Some? {
        RejectFile(n, g, f);
        RejectJobs(n, g, f);
      }
    }
  }

  lemma DownloadShape(n: Net, g: FileId, dir: Dir)
    requires Shape(n)
    ensures Shape(AskedFor(n, g, dir)) && AskedFor(n, g, dir).gone == n.gone
  {
    StartDownloadAgrees(n.r, g, dir);
  }

  lemma DownloadFile(n: Net, g: FileId, dir: Dir, f: FileId)
    requires FileInv(n, f)
    ensures FileInv(AskedFor(n, g, dir), f)
  {
    var n' := AskedFor(n, g, dir);
    var after := I.StartDownload(n.r, g, dir);
    assert after.pushed == [] || after.pushed == [ServerReq.Download(g)];
    assert ReceiverSaying(n', f) <==> ReceiverSaying(n, f);
    assert ReceiverEnded(n', f) <==> ReceiverEnded(n, f);
  }

  lemma DownloadJobs(n: Net, g: FileId, dir: Dir, f: FileId)
    requires JobInv(n, f)
    ensures JobInv(AskedFor(n, g, dir), f)
  {
    var after := I.StartDownload(n.r, g, dir);
    assert after.pushed == [] || after.pushed == [ServerReq.Download(g)];
  }

  lemma LoopEndsFile(n: Net, f: FileId)
    requires FileInv(n, f) && JobInv(n, f) && n.loops != 0
    ensures FileInv(LoopEnding(n), f) && JobInv(LoopEnding(n), f)
  {
  }

  lemma ReceiverRecordsShape(n: Net, g: FileId, kind: FileTerminal)
    requires Shape(n) && ReceiverEnded(n, g)
    ensures Shape(n.(r := n.r.(row := WithRecorded(n.r.row, g, kind))))
  {
    RecordAgrees(n.r, g, kind);
  }

  lemma ReceiverRestartsShape(n: Net)
    requires Shape(n)
    ensures Shape(ReceiverRestarting(n)) && ReceiverRestarting(n).gone == n.gone
  {
    BrokenShape(n);
    RestoreKeepsAgreement(Broken(n).r);
    if n.r.mem.Some? {
      RestoreIncoming(Broken(n).r);
    }
  }

  /** Restoring the receiver's slot keeps which files have ended. */
  lemma RestoredEnds(s: I.InSlot, f: FileId)
    requires InAgree(s) && (s.mem.Some? ==> I.Usable(s))
    ensures s.mem.None? <==> I.Restore(s.row).None?
    ensures s.mem.Some? ==>
      var mem, again := s.mem.value, I.Restore(s.row).value;
      && again.files.Keys == mem.files.Keys
      && (f in again.files ==> (again.files[f].InTerminal? <==> mem.files[f].InTerminal?))
  {
    RestoreKeepsAgreement(s);
    if s.mem.Some? {
      RestoreIncoming(s);
    }
  }

  lemma ReceiverRestartsFile(n: Net, f: FileId)
    requires Shape(n) && FileInv(n, f)
    ensures FileInv(ReceiverRestarting(n), f) && JobInv(ReceiverRestarting(n), f)
  {
    BrokenShape(n);
    BrokenFile(n, f);
    DownRestartsFile(Broken(n), f);
  }

  lemma DownRestartsFile(n: Net, f: FileId)
    requires ReceiverShape(n) && LinkShape(n) && FileInv(n, f) && n.link == Down
    ensures FileInv(ReceiverRestarting(n), f) && JobInv(ReceiverRestarting(n), f)
  {
    RestoredEnds(n.r, f);
    assert Collected(n.r.row) == n.r.row;
    RestartedFile(n, I.Restore(n.r.row), f);
  }

  lemma RestartedFile(n: Net, again: Option<I.InMem>, f: FileId)
    requires FileInv(n, f) && LinkShape(n) && n.link == Down
    requires n.r.mem.None? ==> again.None?
    requires n.r.mem.Some? ==> again.Some? && again.value.files.Keys == n.r.mem.value.files.Keys
    requires n.r.mem.Some? && f in again.value.files ==>
               (again.value.files[f].InTerminal? <==> n.r.mem.value.files[f].InTerminal?)
    ensures var n' := n.(r := n.r.(mem := again), lateR := [], orphans := multiset{}, loops := 0, strays := multiset{},
                      rLog := {});
            FileInv(n', f) && JobInv(n', f)
  {
  }
}
