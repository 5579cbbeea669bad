/** No end is invented: a side has a file as rejected, completed or failed only when something earlier ended that
    very file in that very way, whatever broke, restarted, was replayed or was cancelled in between. */
module Success {
  import opened Base
  import opened Storage
  import opened Protocol
  import opened ConvergenceInvariant
  import opened SenderSteps
  import opened ReceiverSteps
  import opened Convergence
  import O = Outgoing
  import I = Incoming

  // ----- Claims

  /** The sender has the end in memory, in its tables or in an event on its way there. */
  ghost predicate SenderHas(n: Net, f: FileId, kind: FileTerminal) {
    || (n.s.mem.Some? && f in n.s.mem.value.files && n.s.mem.value.files[f] == O.OutTerminal(kind))
    || (n.s.row.Some? && f in EndsRecorded(n.s.row.value.recorded, kind))
    || (f, kind) in n.sLog
  }

  ghost predicate ReceiverHas(n: Net, f: FileId, kind: FileTerminal) {
    || (n.r.mem.Some? && f in n.r.mem.value.files && n.r.mem.value.files[f] == I.InTerminal(kind))
    || (n.r.row.Some? && f in EndsRecorded(n.r.row.value.recorded, kind))
    || (f, kind) in n.rLog
  }

  /** What the receiver queues and sends. */
  function AnswerQueued(f: FileId, kind: FileTerminal): ServerReq {
    match kind
    case Rejected => Reject(f)
    case Completed => Done(f)
    case Failed => Fail(f)
  }

  function AnswerSent(f: FileId, kind: FileTerminal): ServerMsg {
    match kind
    case Rejected => SReject(f)
    case Completed => SDone(f)
    case Failed => SError(f)
  }

  /** The sender has no words for a completed file. */
  ghost predicate SenderSays(n: Net, f: FileId, kind: FileTerminal) {
    match kind
    case Rejected => RejectFile(f) in n.sReqs || CReject(f) in n.toR || CReject(f) in n.lateR
    case Completed => false
    case Failed => FailFile(f) in n.sReqs || CError(f) in n.toR || CError(f) in n.lateR || FailureDue(n, f)
  }

  ghost predicate FailureDue(n: Net, f: FileId) {
    Failing(f, true) in n.failing || Failing(f, false) in n.failing
  }

  /** A finished job is about to post the end, or the receiver is telling of it. */
  ghost predicate ReceiverSays(n: Net, f: FileId, kind: FileTerminal) {
    || (kind != Rejected && (Commit(f, kind == Completed) in n.commits || Commit(f, kind == Completed) in n.orphans))
    || AnswerQueued(f, kind) in n.rReqs || AnswerSent(f, kind) in n.toS || AnswerSent(f, kind) in n.lateS
  }

  /** Someone says that the file ended that way. */
  ghost predicate Claimed(n: Net, f: FileId, kind: FileTerminal) {
    SenderHas(n, f, kind) || ReceiverHas(n, f, kind) || SenderSays(n, f, kind) || ReceiverSays(n, f, kind)
  }

  // ----- Where ends come from

  predicate AliveOnSender(n: Net, f: FileId) {
    n.s.mem.Some? && f in n.s.mem.value.files && n.s.mem.value.files[f].OutAlive?
  }

  predicate AliveOnReceiver(n: Net, f: FileId) {
    n.r.mem.Some? && f in n.r.mem.value.files && !n.r.mem.value.files[f].InTerminal?
  }

  /** The file has ended, but how was not recorded before the process stopped. */
  predicate Unrecorded(row: Option<Row>, f: FileId) {
    HasSyncFile(row, f) && row.value.sync.value.files[f] == Terminal && !AnyRecorded(row.value.recorded, f)
  }

  /** The good end of a running download of the file, in the current loop or in another. */
  predicate Succeeds(n: Net, step: Step, f: FileId) {
    || (step == Job(JobEnds(f, true)) && f in n.preparing + n.streaming)
    || (step == Job(StrayEnds(f, true)) && f in n.strays)
  }

  /** A live file is rejected on one of the sides. */
  predicate Rejects(n: Net, step: Step, f: FileId) {
    || (step == Sender(SenderRejects(f)) && AliveOnSender(n, f))
    || (step == Receiver(ReceiverRejects(f)) && AliveOnReceiver(n, f))
  }

  /** A download or an upload of the file fails, a side refuses to go on with a file that is over, or a restart
      finds an end without a record. */
  ghost predicate Fails(n: Net, step: Step, f: FileId) {
    match step
    case Job(JobEnds(g, success)) => g == f && !success && f in n.preparing + n.streaming
    case Job(StrayEnds(g, success)) => g == f && !success && f in n.strays
    case Sender(JobFails(g, _)) => g == f && n.link != Down && f in n.sizes
    case Sender(SenderRecv) => n.link != Down && n.toS != [] && n.toS[0] == SStart(f) && SenderEnded(n, f)
    case Receiver(ReceiverRecv) => n.link == Up && n.toR != [] && n.toR[0] == CChunk(f) && f in n.over
    case Sender(SenderRestarts) => Unrecorded(n.s.row, f)
    case Receiver(ReceiverRestarts) => Unrecorded(n.r.row, f)
    case _ => false
  }

  ghost predicate Originates(n: Net, step: Step, f: FileId, kind: FileTerminal) {
    match kind
    case Rejected => Rejects(n, step, f)
    case Completed => Succeeds(n, step, f)
    case Failed => Fails(n, step, f)
  }

  // ----- Claims are only passed on

  lemma BrokenClaims(n: Net, f: FileId, kind: FileTerminal)
    ensures SenderHas(Broken(n), f, kind) <==> SenderHas(n, f, kind)
    ensures ReceiverHas(Broken(n), f, kind) <==> ReceiverHas(n, f, kind)
    ensures SenderSays(Broken(n), f, kind) ==> SenderSays(n, f, kind)
    ensures ReceiverSays(Broken(n), f, kind) ==> ReceiverSays(n, f, kind)
  {
  }

  // The sender's slot

  /** A sender's slot before and after an operation that may end file `g` with `kind`. */
  ghost predicate OutSlotMoves(s: O.OutSlot, s': O.OutSlot, g: FileId, kind: FileTerminal) {
    && (s'.mem.Some? ==> s.mem.Some?)
    && (s'.mem.Some? ==> forall f :: f in s'.mem.value.files && s'.mem.value.files[f].OutTerminal? ==>
          || (f in s.mem.value.files && s.mem.value.files[f] == s'.mem.value.files[f])
          || (f == g && s'.mem.value.files[f] == O.OutTerminal(kind)))
    && (s'.row.Some? ==> s.row.Some? && s'.row.value.recorded == s.row.value.recorded)
  }

  ghost predicate SenderMoves(n: Net, n': Net, g: FileId, kind: FileTerminal) {
    && OutSlotMoves(n.s, n'.s, g, kind)
    && (n'.sLog == n.sLog || n'.sLog == n.sLog + {(g, kind)})
  }

  lemma SenderMovesHas(n: Net, n': Net, g: FileId, kind: FileTerminal, f: FileId, k: FileTerminal)
    requires SenderMoves(n, n', g, kind)
    ensures SenderHas(n', f, k) ==> SenderHas(n, f, k) || (f == g && k == kind)
  {
  }

  lemma SenderEndsMoves(n: Net, g: FileId, kind: FileTerminal)
    ensures SenderMoves(n, SenderEnds(n, O.TerminalRecv(n.s, g, kind), g, kind), g, kind)
    ensures SenderMoves(n, SenderEnds(n, O.RejectionPost(n.s, g), g, Rejected), g, Rejected)
    ensures SenderMoves(n, SenderEnds(n, O.FailurePost(n.s, g), g, Failed), g, Failed)
  {
    HeardMoves(n.s, g, kind);
    RejectedMoves(n.s, g);
    FailedMoves(n.s, g);
  }

  lemma HeardMoves(s: O.OutSlot, g: FileId, kind: FileTerminal)
    ensures OutSlotMoves(s, O.TerminalRecv(s, g, kind).slot, g, kind)
  {
  }

  lemma RejectedMoves(s: O.OutSlot, g: FileId)
    ensures OutSlotMoves(s, O.RejectionPost(s, g).slot, g, Rejected)
  {
  }

  lemma FailedMoves(s: O.OutSlot, g: FileId)
    ensures OutSlotMoves(s, O.FailurePost(s, g).slot, g, Failed)
  {
  }

  lemma SenderHandlesEnd(n: Net, m: ServerMsg, f: FileId, k: FileTerminal)
    requires !m.SStart?
    ensures var n' := SenderHandles(n, m);
            && (SenderHas(n', f, k) ==> SenderHas(n, f, k) || m == AnswerSent(f, k))
            && (SenderSays(n', f, k) ==> SenderSays(n, f, k))
            && n'.r == n.r && n'.rLog == n.rLog && (ReceiverSays(n', f, k) <==> ReceiverSays(n, f, k))
  {
    var kind := KindSaid(m);
    SenderEndsMoves(n, m.file, kind);
    SenderMovesHas(n, SenderHandles(n, m), m.file, kind, f, k);
  }

  lemma SenderHandlesStart(n: Net, g: FileId, f: FileId, k: FileTerminal)
    ensures var n' := SenderHandles(n, SStart(g));
            && n'.s == n.s && n'.sLog == n.sLog && n'.r == n.r && n'.rLog == n.rLog
            && (SenderSays(n', f, k) ==> SenderSays(n, f, k) || (k == Failed && f == g && n.link != Down && SenderEnded(n, f)))
            && (ReceiverSays(n', f, k) <==> ReceiverSays(n, f, k))
  {
  }

  lemma SenderReceivesClaims(n: Net, f: FileId, k: FileTerminal)
    ensures Claimed(SenderReceives(n), f, k) ==> Claimed(n, f, k) || Originates(n, Sender(SenderRecv), f, k)
  {
    if n.link != Down && n.toS != [] {
      Tail(n.toS);
      var rest := n.(toS := n.toS[1..]);
      if n.toS[0].SStart? {
        SenderHandlesStart(rest, n.toS[0].file, f, k);
      } else {
        SenderHandlesEnd(rest, n.toS[0], f, k);
      }
    }
  }

  lemma SenderReadsLateClaims(n: Net, f: FileId, k: FileTerminal)
    ensures Claimed(SenderReadsLate(n), f, k) ==> Claimed(n, f, k)
  {
    if n.link == Down && n.lateS != [] {
      Tail(n.lateS);
      var rest := n.(lateS := n.lateS[1..]);
      if n.lateS[0].SStart? {
        SenderHandlesStart(rest, n.lateS[0].file, f, k);
      } else {
        SenderHandlesEnd(rest, n.lateS[0], f, k);
      }
    }
  }

  lemma SendingMovesClaims(n: Net, f: FileId, k: FileTerminal)
    requires n.link != Down && n.sReqs != [] && !n.sReqs[0].CloseTransfer?
    ensures var n' := Sending(n);
            && (SenderSays(n', f, k) ==> SenderSays(n, f, k)) && (ReceiverSays(n', f, k) <==> ReceiverSays(n, f, k))
            && n'.s == n.s && n'.sLog == n.sLog && n'.r == n.r && n'.rLog == n.rLog
  {
    Tail(n.sReqs);
  }

  lemma SendingClosesClaims(n: Net, f: FileId, k: FileTerminal)
    requires n.link != Down && n.sReqs != [] && n.sReqs[0].CloseTransfer?
    ensures Claimed(Sending(n), f, k) ==> Claimed(n, f, k)
  {
    Tail(n.sReqs);
    BrokenClaims(n.(sReqs := n.sReqs[1..], s := O.Remove(n.s).slot, gone := true), f, k);
  }

  lemma SendingClaims(n: Net, f: FileId, k: FileTerminal)
    ensures Claimed(Sending(n), f, k) ==> Claimed(n, f, k)
  {
    if n.link != Down && n.sReqs != [] {
      if n.sReqs[0].CloseTransfer? {
        SendingClosesClaims(n, f, k);
      } else {
        SendingMovesClaims(n, f, k);
      }
    }
  }

  lemma DialingClaims(n: Net, order: seq<ClientReq>, f: FileId, k: FileTerminal)
    requires IsPendingOrder(n, order)
    ensures Claimed(Dialing(n, order), f, k) ==> Claimed(n, f, k)
  {
    if n.s.mem.Some? {
      PendingOutAnnounces(n.s.mem.value.files, f);
    }
  }

  lemma FailureClaims(n: Net, g: FileId, abortable: bool, f: FileId, k: FileTerminal)
    ensures Claimed(Failure(n, g, abortable), f, k) ==> Claimed(n, f, k) || Originates(n, Sender(JobFails(g, abortable)), f, k)
  {
    SenderEndsMoves(n, g, Failed);
    if n.link != Down && g in n.sizes {
      SenderMovesHas(n, Failure(n, g, abortable), g, Failed, f, k);
    }
  }

  lemma RejectingMoves(n: Net, g: FileId)
    ensures var n' := SenderRejecting(n, g);
            && n' == n.(s := n'.s, sLog := n'.sLog, sReqs := n'.sReqs)
            && (AliveOnSender(n, g) || (n'.s.mem == n.s.mem && n'.sLog == n.sLog && n'.sReqs == n.sReqs))
            && (n'.sReqs == n.sReqs || n'.sReqs == n.sReqs + [RejectFile(g)])
            && SenderMoves(n, n', g, Rejected)
  {
    SenderEndsMoves(n, g, Rejected);
  }

  lemma SenderRejectingClaims(n: Net, g: FileId, f: FileId, k: FileTerminal)
    ensures Claimed(SenderRejecting(n, g), f, k) ==> Claimed(n, f, k) || Originates(n, Sender(SenderRejects(g)), f, k)
  {
    RejectingMoves(n, g);
    SenderMovesHas(n, SenderRejecting(n, g), g, Rejected, f, k);
  }

  lemma ReportClaims(n: Net, job: Failing, f: FileId, k: FileTerminal)
    ensures Claimed(Report(n, job), f, k) ==> Claimed(n, f, k)
  {
  }

  lemma SendChunkClaims(n: Net, g: FileId, f: FileId, k: FileTerminal)
    ensures Claimed(n.(toR := n.toR + [CChunk(g)]), f, k) ==> Claimed(n, f, k)
  {
  }

  lemma SenderRecordsClaims(n: Net, g: FileId, kind: FileTerminal, f: FileId, k: FileTerminal)
    requires (g, kind) in n.sLog
    ensures Claimed(n.(s := n.s.(row := WithRecorded(n.s.row, g, kind)), sLog := n.sLog - {(g, kind)}), f, k) ==> Claimed(n, f, k)
  {
    if n.s.row.Some? {
      RecordsExactly(n.s.row.value, g, kind, f);
    }
  }

  /** A sender is restored with the recorded kind, or with failed when none was recorded. */
  lemma SenderRestoredKinds(row: Option<Row>, f: FileId, k: FileTerminal)
    ensures var mem := O.Restore(row);
            mem.Some? && f in mem.value.files && mem.value.files[f] == O.OutTerminal(k) ==>
              row.Some? && (f in EndsRecorded(row.value.recorded, k) || (k == Failed && Unrecorded(row, f)))
  {
  }

  lemma SenderRestartClaims(n: Net, f: FileId, k: FileTerminal)
    ensures Claimed(SenderRestarting(n), f, k) ==> Claimed(n, f, k) || Originates(n, Sender(SenderRestarts), f, k)
  {
    BrokenClaims(n, f, k);
    BrokenRows(n);
    SenderRestoredKinds(Collected(n.s.row), f, k);
  }

  lemma BrokenRows(n: Net)
    ensures Broken(n).s.row == n.s.row && Broken(n).r == n.r
  {
  }

  lemma SenderQueueClaims(n: Net, step: SenderStep, f: FileId, k: FileTerminal)
    requires step.Dial? || step.SendNext? || step.SenderRecv? || step.SenderLate?
    ensures Claimed(SenderNext(n, step), f, k) ==> Claimed(n, f, k) || Originates(n, Sender(step), f, k)
  {
    match step {
      case Dial(order) =>
        if IsPendingOrder(n, order) {
          DialingClaims(n, order, f, k);
        }
      case SendNext => SendingClaims(n, f, k);
      case SenderRecv => SenderReceivesClaims(n, f, k);
      case _ => SenderReadsLateClaims(n, f, k);
    }
  }

  lemma SenderClaims(n: Net, step: SenderStep, f: FileId, k: FileTerminal)
    ensures Claimed(SenderNext(n, step), f, k) ==> Claimed(n, f, k) || Originates(n, Sender(step), f, k)
  {
    match step {
      case JobFails(g, abortable) => FailureClaims(n, g, abortable, f, k);
      case JobReports(job) => ReportClaims(n, job, f, k);
      case SendChunk(g) => SendChunkClaims(n, g, f, k);
      case SenderRejects(g) => SenderRejectingClaims(n, g, f, k);
      case SenderRecords(g, kind) =>
        if (g, kind) in n.sLog {
          SenderRecordsClaims(n, g, kind, f, k);
        }
      case SenderRestarts => SenderRestartClaims(n, f, k);
      case _ => SenderQueueClaims(n, step, f, k);
    }
  }

  // The receiver's slot

  ghost predicate InSlotMoves(s: I.InSlot, s': I.InSlot, g: FileId, kind: FileTerminal) {
    && (s'.mem.Some? ==> s.mem.Some?)
    && (s'.mem.Some? ==> forall f :: f in s'.mem.value.files && s'.mem.value.files[f].InTerminal? ==>
          || (f in s.mem.value.files && s.mem.value.files[f] == s'.mem.value.files[f])
          || (f == g && s'.mem.value.files[f] == I.InTerminal(kind)))
    && (s'.row.Some? ==> s.row.Some? && s'.row.value.recorded == s.row.value.recorded)
  }

  ghost predicate ReceiverMoves(n: Net, n': Net, g: FileId, kind: FileTerminal) {
    && InSlotMoves(n.r, n'.r, g, kind)
    && (n'.rLog == n.rLog || n'.rLog == n.rLog + {(g, kind)})
  }

  lemma ReceiverMovesHas(n: Net, n': Net, g: FileId, kind: FileTerminal, f: FileId, k: FileTerminal)
    requires ReceiverMoves(n, n', g, kind)
    ensures ReceiverHas(n', f, k) ==> ReceiverHas(n, f, k) || (f == g && k == kind)
  {
  }

  lemma ReceiverEndsMoves(n: Net, g: FileId, kind: FileTerminal)
    ensures ReceiverMoves(n, ReceiverEnds(n, I.TerminalRecv(n.r, g, kind), g, kind), g, kind)
    ensures ReceiverMoves(n, ReceiverEnds(n, I.RejectionPost(n.r, g), g, Rejected), g, Rejected)
  {
    ToldMoves(n.r, g, kind);
    RejectedHereMoves(n.r, g);
  }

  lemma ToldMoves(s: I.InSlot, g: FileId, kind: FileTerminal)
    ensures InSlotMoves(s, I.TerminalRecv(s, g, kind).slot, g, kind)
  {
  }

  lemma RejectedHereMoves(s: I.InSlot, g: FileId)
    ensures InSlotMoves(s, I.RejectionPost(s, g).slot, g, Rejected)
  {
  }

  lemma ReceiverHandlesTold(n: Net, m: ClientMsg, f: FileId, k: FileTerminal)
    requires m.CReject? || m.CError?
    ensures var n' := ReceiverHandles(n, m);
            && (ReceiverHas(n', f, k) ==> ReceiverHas(n, f, k) || (f == m.file && k == KindTold(m)))
            && n'.s == n.s && n'.sLog == n.sLog && (SenderSays(n', f, k) <==> SenderSays(n, f, k))
            && (ReceiverSays(n', f, k) <==> ReceiverSays(n, f, k))
  {
    ReceiverEndsMoves(n, m.file, KindTold(m));
    ReceiverMovesHas(n, ReceiverHandles(n, m), m.file, KindTold(m), f, k);
  }

  lemma ReceiverHandlesChunk(n: Net, g: FileId, f: FileId, k: FileTerminal)
    ensures var n' := ReceiverHandles(n, CChunk(g));
            && n'.s == n.s && n'.sLog == n.sLog && n'.r == n.r && n'.rLog == n.rLog
            && (SenderSays(n', f, k) <==> SenderSays(n, f, k))
            && (ReceiverSays(n', f, k) ==> ReceiverSays(n, f, k) || (k == Failed && f == g && f in n.over))
  {
  }

  lemma ReceiverReceivesClaims(n: Net, f: FileId, k: FileTerminal)
    ensures Claimed(ReceiverReceives(n), f, k) ==> Claimed(n, f, k) || Originates(n, Receiver(ReceiverRecv), f, k)
  {
    if n.link == Up && n.toR != [] {
      Tail(n.toR);
      var m, rest := n.toR[0], n.(toR := n.toR[1..]);
      if m.CReject? || m.CError? {
        ReceiverHandlesTold(rest, m, f, k);
      } else if m.CChunk? {
        ReceiverHandlesChunk(rest, m.file, f, k);
      }
    }
  }

  lemma RegisterClaims(n: Net, conn: ConnId, closed: bool, f: FileId, k: FileTerminal)
    ensures var n' := n.(r := I.Register(n.r, SENDER, n.sizes, conn, closed).slot);
            ReceiverHas(n', f, k) ==> ReceiverHas(n, f, k)
  {
  }

  lemma LateRequestClaims(n: Net, i: nat, closed: bool, f: FileId, k: FileTerminal)
    requires i < |n.lateR| && n.lateR[i].CRequest?
    ensures Claimed(ReceiverReadsLate(n, i, closed), f, k) ==> Claimed(n, f, k)
  {
    DropAt(n.lateR, i);
    RegisterClaims(n, STALE, closed, f, k);
  }

  lemma LateToldClaims(n: Net, i: nat, closed: bool, f: FileId, k: FileTerminal)
    requires i < |n.lateR| && (n.lateR[i].CReject? || n.lateR[i].CError?)
    ensures Claimed(ReceiverReadsLate(n, i, closed), f, k) ==> Claimed(n, f, k)
  {
    DropAt(n.lateR, i);
    var m := n.lateR[i];
    assert m in n.lateR;
    ReceiverEndsMoves(n, m.file, KindTold(m));
    ReceiverMovesHas(n, ReceiverReadsLate(n, i, closed), m.file, KindTold(m), f, k);
  }

  lemma LateClaims(n: Net, i: nat, closed: bool, f: FileId, k: FileTerminal)
    ensures Claimed(ReceiverReadsLate(n, i, closed), f, k) ==> Claimed(n, f, k)
  {
    if i < |n.lateR| {
      if n.lateR[i].CRequest? {
        LateRequestClaims(n, i, closed, f, k);
      } else if n.lateR[i].CChunk? {
        DropAt(n.lateR, i);
      } else {
        LateToldClaims(n, i, closed, f, k);
      }
    }
  }

  lemma TurnedClaims(n: Net, f: FileId, k: FileTerminal)
    ensures Claimed(Turned(n), f, k) ==> Claimed(n, f, k)
  {
    BrokenClaims(n, f, k);
  }

  lemma AcceptedClaims(n: Net, replay: seq<ServerReq>, closed: bool, f: FileId, k: FileTerminal)
    requires IsReplayOrder(n, replay) && n.link == Dialed && n.toR != [] && n.toR[0] == CRequest
    requires I.Register(n.r, SENDER, n.sizes, n.session, closed).result.Ok?
    ensures Claimed(Accepting(n, replay, closed), f, k) ==> Claimed(n, f, k)
  {
    Tail(n.toR);
    RegisterClaims(n, n.session, closed, f, k);
    if n.r.mem.Some? {
      PendingInAnnounces(n.r.mem.value.files, f);
    }
  }

  lemma AcceptingClaims(n: Net, replay: seq<ServerReq>, closed: bool, f: FileId, k: FileTerminal)
    requires IsReplayOrder(n, replay)
    ensures Claimed(Accepting(n, replay, closed), f, k) ==> Claimed(n, f, k)
  {
    if n.link == Dialed && n.toR != [] && n.toR[0] == CRequest {
      if I.Register(n.r, SENDER, n.sizes, n.session, closed).result.Ok? {
        AcceptedClaims(n, replay, closed, f, k);
      } else {
        TurnedClaims(n, f, k);
      }
    }
  }

  lemma TakingClosesClaims(n: Net, f: FileId, k: FileTerminal)
    requires n.link == Up && n.rReqs != [] && n.rReqs[0].Close?
    ensures Claimed(Taking(n), f, k) ==> Claimed(n, f, k)
  {
    Tail(n.rReqs);
    BrokenClaims(n.(rReqs := n.rReqs[1..], r := I.Remove(n.r).slot, gone := true), f, k);
  }

  /** A request that announces an end becomes the message that does. */
  lemma TakingSays(n: Net, f: FileId, k: FileTerminal)
    requires n.link == Up && n.rReqs != [] && !n.rReqs[0].Close?
    ensures AnswerQueued(f, k) in Taking(n).rReqs || AnswerSent(f, k) in Taking(n).toS ==>
              AnswerQueued(f, k) in n.rReqs || AnswerSent(f, k) in n.toS
  {
    Tail(n.rReqs);
  }

  lemma TakingKeeps(n: Net)
    requires n.link == Up && n.rReqs != [] && !n.rReqs[0].Close?
    ensures var n' := Taking(n);
            n' == n.(rReqs := n'.rReqs, toS := n'.toS, preparing := n'.preparing, streaming := n'.streaming,
                     handed := n'.handed, over := n'.over)
  {
  }

  lemma TakingClaims(n: Net, f: FileId, k: FileTerminal)
    ensures Claimed(Taking(n), f, k) ==> Claimed(n, f, k)
  {
    if n.link == Up && n.rReqs != [] {
      if n.rReqs[0].Close? {
        TakingClosesClaims(n, f, k);
      } else {
        TakingSays(n, f, k);
        TakingKeeps(n);
      }
    }
  }

  lemma ReceiverRejectingMoves(n: Net, g: FileId)
    ensures var n' := ReceiverRejecting(n, g);
            && n' == n.(r := n'.r, rLog := n'.rLog, rReqs := n'.rReqs)
            && (AliveOnReceiver(n, g) || (n'.r.mem == n.r.mem && n'.rLog == n.rLog && n'.rReqs == n.rReqs))
            && (n'.rReqs == n.rReqs || n'.rReqs == n.rReqs + [Reject(g)])
            && ReceiverMoves(n, n', g, Rejected)
  {
    ReceiverEndsMoves(n, g, Rejected);
    assert n.rReqs + [] == n.rReqs;
  }

  lemma ReceiverRejectingClaims(n: Net, g: FileId, f: FileId, k: FileTerminal)
    ensures Claimed(ReceiverRejecting(n, g), f, k) ==> Claimed(n, f, k) || Originates(n, Receiver(ReceiverRejects(g)), f, k)
  {
    ReceiverRejectingMoves(n, g);
    ReceiverMovesHas(n, ReceiverRejecting(n, g), g, Rejected, f, k);
  }

  lemma {:induction false} OverlayKeepsEnds(files: map<FileId, I.InFile>, rows: seq<InFlightRow>, f: FileId)
    ensures f in I.Overlay(files, rows) && I.Overlay(files, rows)[f].InTerminal? ==>
              f in files && files[f] == I.Overlay(files, rows)[f]
  {
    if rows != [] {
      OverlayKeepsEnds(files, rows[..|rows| - 1], f);
    }
  }

  /** A restart gives a file an end only as it was recorded, or as failed when it had ended and nothing was. */
  lemma RestoredClaims(row: Option<Row>, f: FileId, k: FileTerminal)
    ensures var mem := I.Restore(row);
            mem.Some? && f in mem.value.files && mem.value.files[f] == I.InTerminal(k) ==>
              row.Some? && (f in EndsRecorded(row.value.recorded, k) || (k == Failed && Unrecorded(row, f)))
  {
    if I.Restore(row).Some? {
      var files := map g | g in row.value.paths :: I.RestoredFile(StateOfFile(row, g).value);
      OverlayKeepsEnds(files, AliveInFlight(row.value.sync.value), f);
    }
  }

  lemma ReceiverRestartClaims(n: Net, f: FileId, k: FileTerminal)
    ensures Claimed(ReceiverRestarting(n), f, k) ==> Claimed(n, f, k) || Originates(n, Receiver(ReceiverRestarts), f, k)
  {
    BrokenClaims(n, f, k);
    BrokenRows(n);
    RestoredClaims(Collected(n.r.row), f, k);
  }

  lemma ReceiverRecordsClaims(n: Net, g: FileId, kind: FileTerminal, f: FileId, k: FileTerminal)
    requires (g, kind) in n.rLog
    ensures Claimed(n.(r := n.r.(row := WithRecorded(n.r.row, g, kind)), rLog := n.rLog - {(g, kind)}), f, k) ==> Claimed(n, f, k)
  {
    if n.r.row.Some? {
      RecordsExactly(n.r.row.value, g, kind, f);
    }
  }

  lemma ReceiverQueueClaims(n: Net, step: ReceiverStep, f: FileId, k: FileTerminal)
    requires step.Accept? || step.TakeNext? || step.ReceiverRecv? || step.ReceiverLate?
    ensures Claimed(ReceiverNext(n, step), f, k) ==> Claimed(n, f, k) || Originates(n, Receiver(step), f, k)
  {
    match step {
      case Accept(replay, closed) =>
        if IsReplayOrder(n, replay) {
          AcceptingClaims(n, replay, closed, f, k);
        }
      case TakeNext => TakingClaims(n, f, k);
      case ReceiverRecv => ReceiverReceivesClaims(n, f, k);
      case ReceiverLate(i, closed) => LateClaims(n, i, closed, f, k);
    }
  }

  lemma NotesClaims(n: Net, f: FileId, k: FileTerminal)
    ensures Claimed(LoopEnding(n), f, k) ==> Claimed(n, f, k)
    ensures Claimed(n.(r := n.r.(row := Purged(n.r.row))), f, k) ==> Claimed(n, f, k)
  {
  }

  lemma ReceiverClaims(n: Net, step: ReceiverStep, f: FileId, k: FileTerminal)
    ensures Claimed(ReceiverNext(n, step), f, k) ==> Claimed(n, f, k) || Originates(n, Receiver(step), f, k)
  {
    match step {
      case ReceiverRejects(g) => ReceiverRejectingClaims(n, g, f, k);
      case LoopEnds => NotesClaims(n, f, k);
      case ReceiverRecords(g, kind) =>
        if (g, kind) in n.rLog {
          ReceiverRecordsClaims(n, g, kind, f, k);
        }
      case ReceiverPurges => NotesClaims(n, f, k);
      case ReceiverRestarts => ReceiverRestartClaims(n, f, k);
      case _ => ReceiverQueueClaims(n, step, f, k);
    }
  }

  // Jobs

  lemma PostingMoves(n: Net, c: Commit)
    ensures ReceiverMoves(n, Posting(n, c), c.file, if c.success then Completed else Failed)
  {
  }

  lemma CommittingClaims(n: Net, c: Commit, f: FileId, k: FileTerminal)
    requires c in n.commits
    ensures Claimed(Committing(n, c), f, k) ==> Claimed(n, f, k)
  {
    PostingMoves(n, c);
    ReceiverMovesHas(n, Committing(n, c), c.file, if c.success then Completed else Failed, f, k);
  }

  lemma OrphanClaims(n: Net, c: Commit, f: FileId, k: FileTerminal)
    requires c in n.orphans
    ensures Claimed(CommittingOrphan(n, c), f, k) ==> Claimed(n, f, k)
  {
    PostingMoves(n, c);
    ReceiverMovesHas(n, CommittingOrphan(n, c), c.file, if c.success then Completed else Failed, f, k);
  }

  lemma AskedForClaims(n: Net, g: FileId, dir: Dir, f: FileId, k: FileTerminal)
    ensures Claimed(AskedFor(n, g, dir), f, k) ==> Claimed(n, f, k)
  {
    StartMoves(n.r, g, dir);
    ReceiverMovesHas(n, n.(r := I.StartDownload(n.r, g, dir).slot), g, k, f, k);
    StartedHas(n.r, g, dir, f, k);
    AskedForFrame(n, g, dir);
  }

  lemma StartMoves(s: I.InSlot, g: FileId, dir: Dir)
    ensures forall kind :: InSlotMoves(s, I.StartDownload(s, g, dir).slot, g, kind)
  {
  }

  lemma StartedHas(s: I.InSlot, g: FileId, dir: Dir, f: FileId, k: FileTerminal)
    ensures var mem := I.StartDownload(s, g, dir).slot.mem;
            mem.Some? && f in mem.value.files && mem.value.files[f] == I.InTerminal(k) ==>
              s.mem.Some? && f in s.mem.value.files && s.mem.value.files[f] == I.InTerminal(k)
  {
  }

  lemma AskedForFrame(n: Net, g: FileId, dir: Dir)
    ensures var n' := AskedFor(n, g, dir);
            && n' == n.(r := I.StartDownload(n.r, g, dir).slot, rReqs := n'.rReqs, strays := n'.strays)
            && (n'.rReqs == n.rReqs || n'.rReqs == n.rReqs + [ServerReq.Download(g)])
  {
    assert n.rReqs + [] == n.rReqs;
  }

  lemma StrayEndingClaims(n: Net, g: FileId, success: bool, f: FileId, k: FileTerminal)
    ensures Claimed(StrayEnding(n, g, success), f, k) ==> Claimed(n, f, k) || Originates(n, Job(StrayEnds(g, success)), f, k)
  {
  }

  lemma EndingClaims(n: Net, g: FileId, success: bool, f: FileId, k: FileTerminal)
    ensures Claimed(Ending(n, g, success), f, k) ==> Claimed(n, f, k) || Originates(n, Job(JobEnds(g, success)), f, k)
  {
  }

  lemma StartingClaims(n: Net, g: FileId, f: FileId, k: FileTerminal)
    ensures Claimed(Starting(n, g), f, k) ==> Claimed(n, f, k)
    ensures Claimed(StrayStopping(n, g), f, k) ==> Claimed(n, f, k)
  {
  }

  lemma JobClaims(n: Net, step: JobStep, f: FileId, k: FileTerminal)
    ensures Claimed(JobNext(n, step), f, k) ==> Claimed(n, f, k) || Originates(n, Job(step), f, k)
  {
    match step {
      case Ask(g, dir) => AskedForClaims(n, g, dir, f, k);
      case JobStarts(g) => StartingClaims(n, g, f, k);
      case JobEnds(g, success) => EndingClaims(n, g, success, f, k);
      case CommitJob(c) =>
        if c in n.commits {
          CommittingClaims(n, c, f, k);
        }
      case CommitOrphan(c) =>
        if c in n.orphans {
          OrphanClaims(n, c, f, k);
        }
      case StrayEnds(g, success) => StrayEndingClaims(n, g, success, f, k);
      case StrayStops(g) => StartingClaims(n, g, f, k);
    }
  }

  lemma LeaveClaims(n: Net, step: LeaveStep, f: FileId, k: FileTerminal)
    ensures Claimed(LeaveNext(n, step), f, k) ==> Claimed(n, f, k)
  {
  }

  /** No step makes a new claim of any kind but the ones that end that very file in that way. */
  lemma StepClaims(n: Net, step: Step, f: FileId, kind: FileTerminal)
    ensures Claimed(Next(n, step), f, kind) ==> Claimed(n, f, kind) || Originates(n, step, f, kind)
  {
    match step {
      case Sender(s) => SenderClaims(n, s, f, kind);
      case Receiver(r) => ReceiverClaims(n, r, f, kind);
      case Job(j) => JobClaims(n, j, f, kind);
      case Leave(l) => LeaveClaims(n, l, f, kind);
      case Break => BrokenClaims(n, f, kind);
    }
  }

  // ----- Over every run

  /** Step `i` of the run ends the file in that way. */
  ghost predicate OriginatesAt(n: Net, steps: seq<Step>, i: nat, f: FileId, kind: FileTerminal) {
    i < |steps| && Originates(Run(n, steps[..i]), steps[i], f, kind)
  }

  lemma {:induction false} ClaimsHaveOrigins(n: Net, steps: seq<Step>, f: FileId, kind: FileTerminal) returns (i: nat)
    requires Claimed(Run(n, steps), f, kind) && !Claimed(n, f, kind)
    ensures OriginatesAt(n, steps, i, f, kind)
    decreases |steps|
  {
    StepClaims(n, steps[0], f, kind);
    if Originates(n, steps[0], f, kind) {
      i := 0;
      assert steps[..0] == [];
    } else {
      var j := ClaimsHaveOrigins(Next(n, steps[0]), steps[1..], f, kind);
      i := j + 1;
      assert steps[..i][1..] == steps[1..][..j] && steps[..i][0] == steps[0];
    }
  }

  lemma NothingClaimedAtFirst(sizes: map<FileId, nat>, f: FileId, kind: FileTerminal)
    ensures !Claimed(Init(sizes), f, kind)
  {
  }

  /** Over every run, also one in which a side leaves: a side that has a file as rejected, completed or failed has
      it from a step earlier in the run that ended exactly that file in exactly that way. */
  lemma EndsHaveOrigins(sizes: map<FileId, nat>, steps: seq<Step>, f: FileId, kind: FileTerminal)
    ensures var n := Run(Init(sizes), steps);
            SenderHas(n, f, kind) || ReceiverHas(n, f, kind) ==> exists i: nat :: OriginatesAt(Init(sizes), steps, i, f, kind)
  {
    NothingClaimedAtFirst(sizes, f, kind);
    if Claimed(Run(Init(sizes), steps), f, kind) {
      var i := ClaimsHaveOrigins(Init(sizes), steps, f, kind);
    }
  }

  /** Step `i` of the run is the good end of a download of the file. */
  ghost predicate SucceedsAt(n: Net, steps: seq<Step>, i: nat, f: FileId) {
    i < |steps| && Succeeds(Run(n, steps[..i]), steps[i], f)
  }

  /** In particular the sender has a file as completed only when some download of it ended well. */
  lemma CompletedMeansDownloaded(sizes: map<FileId, nat>, steps: seq<Step>, f: FileId)
    ensures SenderCompleted(Run(Init(sizes), steps), f) ==>
              exists i: nat :: SucceedsAt(Init(sizes), steps, i, f)
  {
    if SenderCompleted(Run(Init(sizes), steps), f) {
      EndsHaveOrigins(sizes, steps, f, Completed);
      var i: nat :| OriginatesAt(Init(sizes), steps, i, f, Completed);
      assert SucceedsAt(Init(sizes), steps, i, f);
    }
  }

  /** No other way of ending the file was taken in the run. */
  ghost predicate OnlyEndsAs(n: Net, steps: seq<Step>, f: FileId, kind: FileTerminal) {
    forall i: nat, k :: OriginatesAt(n, steps, i, f, k) ==> k == kind
  }

  lemma KindIs(sizes: map<FileId, nat>, steps: seq<Step>, f: FileId, kind: FileTerminal, k: FileTerminal)
    requires OnlyEndsAs(Init(sizes), steps, f, kind)
    ensures SenderHas(Run(Init(sizes), steps), f, k) || ReceiverHas(Run(Init(sizes), steps), f, k) ==> k == kind
  {
    EndsHaveOrigins(sizes, steps, f, k);
  }

  /** Both sides end up with the same kind: after any run that ends quiet and attached, in which a file was ended
      in one way only, it is alive on both sides or has ended in that way on both. */
  lemma QuietSidesAgreeOnKind(sizes: map<FileId, nat>, steps: seq<Step>, f: FileId, kind: FileTerminal)
    requires var n := Run(Init(sizes), steps); !n.gone && Quiet(n) && Attached(n) && f in n.sizes
    requires OnlyEndsAs(Init(sizes), steps, f, kind)
    ensures var n := Run(Init(sizes), steps);
            && n.s.mem.Some? && f in n.s.mem.value.files && n.r.mem.Some? && f in n.r.mem.value.files
            && var sent, received := n.s.mem.value.files[f], n.r.mem.value.files[f];
               || (sent == O.OutAlive && !received.InTerminal?)
               || (sent == O.OutTerminal(kind) && received == I.InTerminal(kind))
  {
    InitInv(sizes);
    RunInv(Init(sizes), steps);
    var n := Run(Init(sizes), steps);
    QuietAgrees(n);
    if n.s.mem.value.files[f].OutTerminal? {
      KindIs(sizes, steps, f, kind, n.s.mem.value.files[f].kind);
    }
    if n.r.mem.value.files[f].InTerminal? {
      KindIs(sizes, steps, f, kind, n.r.mem.value.files[f].kind);
    }
  }
}
