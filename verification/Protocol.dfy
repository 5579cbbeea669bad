/** Two managers joined by a protocol v6 connection that may break at any time: the sender with its
    request queue, the receiver with its request queue and download jobs, and the two directions of the
    wire. Both processes may stop and be restored from their tables at any time, too.

    The receiver's loop of a broken connection keeps running until it notices. Until then it may read messages
    that were still on the wire, an overdue transfer request among them, and may start and finish downloads
    that were asked of it; what it sends goes nowhere. The sender runs one connection at a time, so it reads
    leftovers only before dialing again. A download that reached its final critical section finishes even when
    its loop is gone. */
module Protocol {
  import opened Base
  import opened Storage
  import O = Outgoing
  import I = Incoming

  /** Sender to receiver. `CRequest` is the transfer request that opens a connection. */
  datatype ClientMsg = CRequest | CReject(file: FileId) | CError(file: FileId) | CChunk(file: FileId)

  /** Receiver to sender. */
  datatype ServerMsg = SDone(file: FileId) | SError(file: FileId) | SReject(file: FileId) | SStart(file: FileId)

  /** `Dialed`: the sender has connected and sent its request. `Up`: the receiver has registered it. */
  datatype Link = Down | Dialed | Up

  /** A download whose outcome is known and still has to be posted. */
  datatype Commit = Commit(file: FileId, success: bool)

  /** A sender's job that has posted a failure and still has to report it; upload jobs can be aborted,
      checksum jobs cannot. */
  datatype Failing = Failing(file: FileId, abortable: bool)

  datatype Net = Net(
    sizes: map<FileId, nat>,
    s: O.OutSlot,
    r: I.InSlot,
    link: Link,
    session: ConnId,
    sReqs: seq<ClientReq>,
    rReqs: seq<ServerReq>,
    toR: seq<ClientMsg>,
    toS: seq<ServerMsg>,
    lateR: seq<ClientMsg>,
    lateS: seq<ServerMsg>,
    preparing: set<FileId>,      // download jobs by phase
    streaming: set<FileId>,
    handed: set<FileId>,
    over: set<FileId>,
    commits: multiset<Commit>,   // of the current connection
    orphans: multiset<Commit>,   // of other loops
    failing: multiset<Failing>,
    loops: nat,                  // receiver loops other than the current one
    strays: multiset<FileId>,    // downloads these were asked for or are doing
    sLog: set<(FileId, FileTerminal)>,  // events not yet written to the tables
    rLog: set<(FileId, FileTerminal)>,
    gone: bool                   // one side has cancelled or removed the transfer
  )

  const SENDER: Peer := "sender"
  const RECEIVER: Peer := "receiver"
  const STALE: ConnId := 0

  function Init(sizes: map<FileId, nat>): Net {
    Net(sizes, O.InsertOutgoing(O.OutSlot(None, None), RECEIVER, sizes).slot, I.InSlot(None, None), Down, STALE,
        [], [], [], [], [], [], {}, {}, {}, {}, multiset{}, multiset{}, multiset{}, 0, multiset{}, {}, {}, false)
  }

  datatype SenderStep =
    | Dial(order: seq<ClientReq>)
    | SendNext
    | SenderRecv
    | SenderLate
    | JobFails(file: FileId, abortable: bool)
    | JobReports(job: Failing)
    | SendChunk(file: FileId)
    | SenderRejects(file: FileId)
    | SenderRecords(file: FileId, kind: FileTerminal)
    | SenderRestarts

  datatype ReceiverStep =
    | Accept(replay: seq<ServerReq>, oldConnClosed: bool)
    | TakeNext
    | ReceiverRecv
    | ReceiverLate(i: nat, oldConnClosed: bool)
    | ReceiverRejects(file: FileId)
    | LoopEnds
    | ReceiverRecords(file: FileId, kind: FileTerminal)
    | ReceiverPurges
    | ReceiverRestarts

  /** Downloads: asked for by the user, then moved along by their jobs. */
  datatype JobStep =
    | Ask(file: FileId, dir: Dir)
    | JobStarts(file: FileId)
    | JobEnds(file: FileId, success: bool)
    | CommitJob(commit: Commit)
    | CommitOrphan(commit: Commit)
    | StrayEnds(file: FileId, success: bool)
    | StrayStops(file: FileId)

  /** A side cancels the transfer, or removes it for good. */
  datatype LeaveStep = SenderCancels | SenderRemoves | ReceiverCancels | ReceiverRemoves

  datatype Step = Sender(s: SenderStep) | Receiver(r: ReceiverStep) | Job(j: JobStep) | Leave(l: LeaveStep) | Break

  /** The receiver's entry holds the connection of the current session. */
  predicate Attached(n: Net) {
    n.link == Up && n.r.mem.Some? && n.r.mem.value.conn == Some(n.session)
  }

  /** The downloads that the current loop was asked for or is doing, but for those that are over. */
  function Unfinished(n: Net): multiset<FileId> {
    multiset(set r | r in n.rReqs && r.Download? :: r.file) + multiset(n.preparing) + multiset(n.streaming)
  }

  function Broken(n: Net): Net {
    if n.link == Down then n
    else
      n.(link := Down, s := O.Disconnect(n.s).slot, sReqs := [], rReqs := [],
         lateR := n.lateR + n.toR, toR := [], lateS := n.toS, toS := [],
         preparing := {}, streaming := {}, handed := {}, over := {},
         orphans := n.orphans + n.commits, commits := multiset{}, failing := multiset{},
         loops := if n.link == Up then n.loops + 1 else n.loops, strays := n.strays + Unfinished(n))
  }

  // ----- The sender

  /** `outgoing_connected`, then the transfer request. */
  function Dialing(n: Net, order: seq<ClientReq>): Net {
    if n.link != Down || n.s.mem.None? then n
    else
      var after := O.Connected(n.s, n.session + 1);
      n.(s := after.slot, session := n.session + 1, link := Dialed, sReqs := order + after.pushed,
         toR := [CRequest], toS := [], lateS := [])
  }

  /** An upload job of the file is aborted when it has not finished. */
  function StopUpload(n: Net, f: FileId): Net {
    n.(failing := n.failing[Failing(f, true) := 0])
  }

  function SenderEnds(n: Net, after: O.OutAfter, f: FileId, kind: FileTerminal): Net {
    n.(s := after.slot, sLog := if after.result == Ok(true) then n.sLog + {(f, kind)} else n.sLog)
  }

  function Sending(n: Net): Net {
    if n.link == Down || n.sReqs == [] then n
    else
      var rest := n.(sReqs := n.sReqs[1..]);
      match n.sReqs[0]
      case RejectFile(f) => StopUpload(rest.(toR := n.toR + [CReject(f)]), f)
      case FailFile(f) => rest.(toR := n.toR + [CError(f)])
      case CloseTransfer => Broken(rest.(s := O.Remove(n.s).slot, gone := true))
  }

  /** What the sender does with a message; `on_start` answers with an error for an ended file. */
  function SenderHandles(n: Net, m: ServerMsg): Net {
    match m
    case SDone(f) => StopUpload(SenderEnds(n, O.TerminalRecv(n.s, f, Completed), f, Completed), f)
    case SError(f) => StopUpload(SenderEnds(n, O.TerminalRecv(n.s, f, Failed), f, Failed), f)
    case SReject(f) => StopUpload(SenderEnds(n, O.TerminalRecv(n.s, f, Rejected), f, Rejected), f)
    case SStart(f) =>
      if n.link != Down && n.s.mem.Some? && (f in n.s.mem.value.files ==> n.s.mem.value.files[f].OutTerminal?)
      then n.(toR := n.toR + [CError(f)]) else n
  }

  function SenderReceives(n: Net): Net {
    if n.link == Down || n.toS == [] then n else SenderHandles(n.(toS := n.toS[1..]), n.toS[0])
  }

  function SenderReadsLate(n: Net): Net {
    if n.link != Down || n.lateS == [] then n else SenderHandles(n.(lateS := n.lateS[1..]), n.lateS[0])
  }

  /** A job posts a failure; it reports afterwards whether or not the post was accepted. */
  function Failure(n: Net, f: FileId, abortable: bool): Net {
    if n.link == Down || f !in n.sizes then n
    else SenderEnds(n, O.FailurePost(n.s, f), f, Failed).(failing := n.failing + multiset{Failing(f, abortable)})
  }

  function Report(n: Net, job: Failing): Net {
    if n.link == Down || job !in n.failing then n
    else n.(failing := n.failing - multiset{job}, toR := n.toR + [CError(job.file)])
  }

  function SenderRejecting(n: Net, f: FileId): Net {
    var after := O.RejectionPost(n.s, f);
    SenderEnds(n, after, f, Rejected).(sReqs := if n.link == Down then n.sReqs else n.sReqs + after.pushed)
  }

  function SenderRestarting(n: Net): Net {
    var down := Broken(n);
    var row := Collected(down.s.row);
    down.(s := O.OutSlot(O.Restore(row), row), lateS := [], sLog := {})
  }

  // ----- The receiver

  /** The loop of a refused request reads nothing more; like any other loop it still ends with a disconnect. */
  function Turned(n: Net): Net {
    Broken(n).(lateR := n.lateR, loops := n.loops + 1)
  }

  function Accepting(n: Net, replay: seq<ServerReq>, oldConnClosed: bool): Net {
    if n.link != Dialed || n.toR == [] || n.toR[0] != CRequest then n
    else
      var after := I.Register(n.r, SENDER, n.sizes, n.session, oldConnClosed);
      if after.result.Err? then Turned(n)
      else n.(r := after.slot, link := Up, toR := n.toR[1..], rReqs := replay + after.pushed)
  }

  function StopDownload(n: Net, f: FileId): Net {
    n.(preparing := n.preparing - {f}, streaming := n.streaming - {f}, handed := n.handed - {f}, over := n.over - {f})
  }

  function ReceiverEnds(n: Net, after: I.InAfter, f: FileId, kind: FileTerminal): Net {
    n.(r := after.slot, rLog := if after.result == Ok(true) then n.rLog + {(f, kind)} else n.rLog)
  }

  function Taking(n: Net): Net {
    if n.link != Up || n.rReqs == [] then n
    else
      var rest := n.(rReqs := n.rReqs[1..]);
      match n.rReqs[0]
      case Download(f) =>
        if f in n.preparing + n.streaming + n.handed then rest
        else rest.(preparing := n.preparing + {f}, over := n.over - {f})
      case Start(f) => rest.(toS := n.toS + [SStart(f)])
      case Reject(f) => StopDownload(rest.(toS := n.toS + [SReject(f)]), f)
      case Done(f) => rest.(toS := n.toS + [SDone(f)])
      case Fail(f) => rest.(toS := n.toS + [SError(f)])
      case Close => Broken(rest.(r := I.Remove(n.r).slot, gone := true))
  }

  /** What a receiver loop does with a message. Only the current loop has jobs to stop and a wire to
      answer on; a chunk for a job that is over is answered with an error. */
  function ReceiverHandles(n: Net, m: ClientMsg): Net {
    match m
    case CRequest => n
    case CReject(f) => StopDownload(ReceiverEnds(n, I.TerminalRecv(n.r, f, Rejected), f, Rejected), f)
    case CError(f) => StopDownload(ReceiverEnds(n, I.TerminalRecv(n.r, f, Failed), f, Failed), f)
    case CChunk(f) => if f in n.over then n.(toS := n.toS + [SError(f)]) else n
  }

  function ReceiverReceives(n: Net): Net {
    if n.link != Up || n.toR == [] then n else ReceiverHandles(n.(toR := n.toR[1..]), n.toR[0])
  }

  /** The downloads that are replayed to a connection when it is registered. */
  function Replayed(s: I.InSlot): set<FileId> {
    if s.mem.Some? then set f | f in s.mem.value.files && s.mem.value.files[f].InFlight? else {}
  }

  /** Another loop reads a leftover. The loop of a leftover request registers its own connection, which the sender
      has left, and does what is asked of it there until it notices. */
  function ReceiverReadsLate(n: Net, i: nat, oldConnClosed: bool): Net {
    if i >= |n.lateR| then n
    else
      var rest := n.(lateR := n.lateR[..i] + n.lateR[i + 1..]);
      match n.lateR[i]
      case CRequest =>
        var after := I.Register(n.r, SENDER, n.sizes, STALE, oldConnClosed);
        rest.(r := after.slot, loops := n.loops + 1,
              strays := if after.result == Ok(false) then n.strays + multiset(Replayed(n.r)) else n.strays)
      case CReject(f) => ReceiverEnds(rest, I.TerminalRecv(n.r, f, Rejected), f, Rejected)
      case CError(f) => ReceiverEnds(rest, I.TerminalRecv(n.r, f, Failed), f, Failed)
      case CChunk(_) => rest
  }

  /** Requests reach the current loop only when the entry holds its connection; elsewhere nothing is told to
      the sender, but a download is started all the same. */
  function Push(n: Net, reqs: seq<ServerReq>): Net {
    if Attached(n) then n.(rReqs := n.rReqs + reqs) else n
  }

  function AskedFor(n: Net, f: FileId, dir: Dir): Net {
    var after := I.StartDownload(n.r, f, dir);
    Push(n, after.pushed).(r := after.slot,
                           strays := if after.pushed != [] && !Attached(n) then n.strays + multiset{f} else n.strays)
  }

  function Starting(n: Net, f: FileId): Net {
    if f !in n.preparing then n
    else n.(preparing := n.preparing - {f}, streaming := n.streaming + {f}, rReqs := n.rReqs + [Start(f)])
  }

  function Ending(n: Net, f: FileId, success: bool): Net {
    if f !in n.preparing + n.streaming then n
    else n.(preparing := n.preparing - {f}, streaming := n.streaming - {f}, handed := n.handed + {f},
            commits := n.commits + multiset{Commit(f, success)})
  }

  /** The outcome is posted; the event is emitted whatever the post answered. */
  function Posting(n: Net, c: Commit): Net {
    n.(r := I.FinishPost(n.r, c.file, c.success).slot,
       rLog := n.rLog + {(c.file, if c.success then Completed else Failed)})
  }

  function Committing(n: Net, c: Commit): Net {
    if c !in n.commits then n
    else
      Posting(n, c).(commits := n.commits - multiset{c},
                     rReqs := n.rReqs + [if c.success then Done(c.file) else Fail(c.file)],
                     handed := n.handed - {c.file},
                     over := if c.file in n.handed then n.over + {c.file} else n.over)
  }

  function CommittingOrphan(n: Net, c: Commit): Net {
    if c !in n.orphans then n else Posting(n, c).(orphans := n.orphans - multiset{c})
  }

  /** A stray download comes to its end: what remains is its final section. */
  function StrayEnding(n: Net, f: FileId, success: bool): Net {
    if f !in n.strays then n
    else n.(strays := n.strays - multiset{f}, orphans := n.orphans + multiset{Commit(f, success)})
  }

  /** It is aborted, or never begun. */
  function StrayStopping(n: Net, f: FileId): Net {
    n.(strays := n.strays - multiset{f})
  }

  function ReceiverRejecting(n: Net, f: FileId): Net {
    var after := I.RejectionPost(n.r, f);
    ReceiverEnds(Push(n, after.pushed), after, f, Rejected)
  }

  function LoopEnding(n: Net): Net {
    if n.loops == 0 then n
    else
      n.(loops := n.loops - 1, r := I.Disconnect(n.r).slot, strays := if n.loops == 1 then multiset{} else n.strays)
  }

  function ReceiverRestarting(n: Net): Net {
    var down := Broken(n);
    var row := Collected(down.r.row);
    down.(r := I.InSlot(I.Restore(row), row), lateR := [], orphans := multiset{}, loops := 0,
           strays := multiset{}, rLog := {})
  }

  // ----- Runs

  function SenderNext(n: Net, step: SenderStep): Net {
    match step
    case Dial(order) => if IsPendingOrder(n, order) then Dialing(n, order) else n
    case SendNext => Sending(n)
    case SenderRecv => SenderReceives(n)
    case SenderLate => SenderReadsLate(n)
    case JobFails(f, abortable) => Failure(n, f, abortable)
    case JobReports(job) => Report(n, job)
    case SendChunk(f) => if n.link == Down then n else n.(toR := n.toR + [CChunk(f)])
    case SenderRejects(f) => SenderRejecting(n, f)
    case SenderRecords(f, kind) =>
      if (f, kind) in n.sLog then n.(s := n.s.(row := WithRecorded(n.s.row, f, kind)), sLog := n.sLog - {(f, kind)}) else n
    case SenderRestarts => SenderRestarting(n)
  }

  function ReceiverNext(n: Net, step: ReceiverStep): Net {
    match step
    case Accept(replay, closed) => if IsReplayOrder(n, replay) then Accepting(n, replay, closed) else n
    case TakeNext => Taking(n)
    case ReceiverRecv => ReceiverReceives(n)
    case ReceiverLate(i, closed) => ReceiverReadsLate(n, i, closed)
    case ReceiverRejects(f) => ReceiverRejecting(n, f)
    case LoopEnds => LoopEnding(n)
    case ReceiverRecords(f, kind) =>
      if (f, kind) in n.rLog then n.(r := n.r.(row := WithRecorded(n.r.row, f, kind)), rLog := n.rLog - {(f, kind)}) else n
    case ReceiverPurges => n.(r := n.r.(row := Purged(n.r.row)))
    case ReceiverRestarts => ReceiverRestarting(n)
  }

  function JobNext(n: Net, step: JobStep): Net {
    match step
    case Ask(f, dir) => AskedFor(n, f, dir)
    case JobStarts(f) => Starting(n, f)
    case JobEnds(f, success) => Ending(n, f, success)
    case CommitJob(c) => Committing(n, c)
    case CommitOrphan(c) => CommittingOrphan(n, c)
    case StrayEnds(f, success) => StrayEnding(n, f, success)
    case StrayStops(f) => StrayStopping(n, f)
  }

  function LeaveNext(n: Net, step: LeaveStep): Net {
    match step
    case SenderCancels => n.(s := O.IssueClose(n.s).slot, gone := true)
    case SenderRemoves => n.(s := O.Remove(n.s).slot, gone := true)
    case ReceiverCancels => n.(r := I.IssueClose(n.r).slot, gone := true)
    case ReceiverRemoves => n.(r := I.Remove(n.r).slot, gone := true)
  }

  function Next(n: Net, step: Step): Net {
    match step
    case Sender(s) => SenderNext(n, s)
    case Receiver(r) => ReceiverNext(n, r)
    case Job(j) => JobNext(n, j)
    case Leave(l) => LeaveNext(n, l)
    case Break => Broken(n)
  }

  /** `order` is what replaying the sender's pending requests may yield. */
  predicate IsPendingOrder(n: Net, order: seq<ClientReq>) {
    if O.Usable(n.s) then IsListing(order, O.PendingOut(n.s.mem.value.files)) else order == []
  }

  predicate IsReplayOrder(n: Net, replay: seq<ServerReq>) {
    if n.r.mem.Some? then IsListing(replay, I.PendingIn(n.r.mem.value.files)) else replay == []
  }

  function Run(n: Net, steps: seq<Step>): Net
    decreases |steps|
  {
    if steps == [] then n else Run(Next(n, steps[0]), steps[1..])
  }
}
