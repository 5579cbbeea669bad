/** A reconnection left alone becomes quiet within a known number of steps, and then both sides agree. */
module Settling {
  import opened Base
  import opened Storage
  import opened Protocol
  import opened Agreement
  import opened ConvergenceInvariant
  import opened SenderSteps
  import opened ReceiverSteps
  import opened Convergence
  import O = Outgoing
  import I = Incoming

  /** The steps by which queues drain and jobs end, without outside calls and without breaking. */
  predicate Draining(n: Net, step: Step) {
    match step
    case Sender(SendNext) => n.sReqs != []
    case Sender(SenderRecv) => n.toS != []
    case Sender(JobReports(job)) => job in n.failing
    case Receiver(TakeNext) => n.rReqs != []
    case Receiver(ReceiverRecv) => n.toR != []
    case Job(JobStarts(f)) => f in n.preparing
    case Job(JobEnds(f, _)) => f in n.preparing + n.streaming
    case Job(CommitJob(c)) => c in n.commits
    case _ => false
  }

  /** A connection on which nothing can drain is quiet, and conversely. */
  lemma NothingDrains(n: Net)
    requires n.link == Up
    ensures Quiet(n) <==> forall step :: !Draining(n, step)
  {
    if forall step :: !Draining(n, step) {
      assert !Draining(n, Sender(SendNext)) && !Draining(n, Sender(SenderRecv));
      assert !Draining(n, Receiver(TakeNext)) && !Draining(n, Receiver(ReceiverRecv));
      if n.failing != multiset{} {
        var job :| job in n.failing;
        assert Draining(n, Sender(JobReports(job)));
      }
      if n.commits != multiset{} {
        var c :| c in n.commits;
        assert Draining(n, Job(CommitJob(c)));
      }
      if n.preparing + n.streaming != {} {
        var f :| f in n.preparing + n.streaming;
        assert Draining(n, Job(JobEnds(f, true)));
      }
    }
  }

  function ClientMsgWork(q: seq<ClientMsg>): nat {
    if q == [] then 0 else ClientMsgWork(q[..|q| - 1]) + if q[|q| - 1].CChunk? then 2 else 1
  }

  function ServerMsgWork(q: seq<ServerMsg>): nat {
    if q == [] then 0 else ServerMsgWork(q[..|q| - 1]) + if q[|q| - 1].SStart? then 2 else 1
  }

  function ReqWork(r: ServerReq): nat {
    match r
    case Download(_) => 9
    case Start(_) => 3
    case _ => 2
  }

  function ServerReqWork(q: seq<ServerReq>): nat {
    if q == [] then 0 else ServerReqWork(q[..|q| - 1]) + ReqWork(q[|q| - 1])
  }

  function WireWork(n: Net): nat {
    2 * |n.sReqs| + ClientMsgWork(n.toR) + ServerMsgWork(n.toS) + ServerReqWork(n.rReqs)
  }

  function JobWork(n: Net): nat {
    2 * |n.failing| + 3 * |n.commits| + 4 * |n.streaming| + 8 * |n.preparing|
  }

  /** How many draining steps are left at most. */
  function Work(n: Net): nat {
    WireWork(n) + JobWork(n)
  }

  lemma {:induction false} ClientMsgHead(q: seq<ClientMsg>)
    requires q != []
    ensures ClientMsgWork(q) == ClientMsgWork(q[1..]) + if q[0].CChunk? then 2 else 1
  {
    if |q| > 1 {
      ClientMsgHead(q[..|q| - 1]);
      assert q[..|q| - 1][1..] == q[1..][..|q| - 2];
    }
  }

  lemma {:induction false} ServerMsgHead(q: seq<ServerMsg>)
    requires q != []
    ensures ServerMsgWork(q) == ServerMsgWork(q[1..]) + if q[0].SStart? then 2 else 1
  {
    if |q| > 1 {
      ServerMsgHead(q[..|q| - 1]);
      assert q[..|q| - 1][1..] == q[1..][..|q| - 2];
    }
  }

  lemma {:induction false} ServerReqHead(q: seq<ServerReq>)
    requires q != []
    ensures ServerReqWork(q) == ServerReqWork(q[1..]) + ReqWork(q[0])
  {
    if |q| > 1 {
      ServerReqHead(q[..|q| - 1]);
      assert q[..|q| - 1][1..] == q[1..][..|q| - 2];
    }
  }

  lemma Appended(n: Net, a: ClientMsg, b: ServerMsg, c: ServerReq)
    ensures ClientMsgWork(n.toR + [a]) == ClientMsgWork(n.toR) + if a.CChunk? then 2 else 1
    ensures ServerMsgWork(n.toS + [b]) == ServerMsgWork(n.toS) + if b.SStart? then 2 else 1
    ensures ServerReqWork(n.rReqs + [c]) == ServerReqWork(n.rReqs) + ReqWork(c)
  {
    assert (n.toR + [a])[..|n.toR|] == n.toR;
    assert (n.toS + [b])[..|n.toS|] == n.toS;
    assert (n.rReqs + [c])[..|n.rReqs|] == n.rReqs;
  }

  lemma SendNextDrains(n: Net)
    requires n.link == Up && n.sReqs != [] && n.sReqs[0] != CloseTransfer
    ensures Work(Sending(n)) < Work(n) && Sending(n).r == n.r && Sending(n).link == Up
  {
    var f := n.sReqs[0].file;
    Appended(n, CReject(f), SDone(f), Close);
    Appended(n, CError(f), SDone(f), Close);
  }

  lemma SenderRecvDrains(n: Net)
    requires n.link == Up && n.toS != []
    ensures var n' := SenderReceives(n); Work(n') < Work(n) && n'.r == n.r && n'.link == Up
  {
    ServerMsgHead(n.toS);
    var m := n.toS[0];
    if m.SStart? {
      Appended(n, CError(m.file), m, Close);
    } else {
      HandlesEnd(n.(toS := n.toS[1..]), m);
    }
  }

  lemma TakeDrains(n: Net)
    requires n.link == Up && n.rReqs != [] && n.rReqs[0] != Close
    ensures var n' := Taking(n); Work(n') < Work(n) && n'.r == n.r && n'.link == Up
  {
    ServerReqHead(n.rReqs);
    var f := n.rReqs[0].file;
    Appended(n, CRequest, SStart(f), Close);
    Appended(n, CRequest, SReject(f), Close);
    Appended(n, CRequest, SDone(f), Close);
    Appended(n, CRequest, SError(f), Close);
    StoppedWork(n, f);
  }

  lemma StoppedWork(n: Net, f: FileId)
    ensures |n.preparing - {f}| <= |n.preparing| && |n.streaming - {f}| <= |n.streaming|
  {
    if f in n.preparing {
      assert n.preparing == (n.preparing - {f}) + {f};
    } else {
      assert n.preparing - {f} == n.preparing;
    }
    if f in n.streaming {
      assert n.streaming == (n.streaming - {f}) + {f};
    } else {
      assert n.streaming - {f} == n.streaming;
    }
  }

  lemma ChunkDrains(n: Net)
    requires n.link == Up && n.toR != [] && n.toR[0].CChunk?
    ensures var n' := ReceiverReceives(n); Work(n') < Work(n) && n'.link == Up && n'.r == n.r && n'.session == n.session
  {
    ClientMsgHead(n.toR);
    Appended(n, CRequest, SError(n.toR[0].file), Close);
  }

  lemma ToldDrains(n: Net)
    requires n.link == Up && n.toR != [] && (n.toR[0].CReject? || n.toR[0].CError?)
    ensures Work(ReceiverReceives(n)) < Work(n)
  {
    ClientMsgHead(n.toR);
    HandlesTold(n.(toR := n.toR[1..]), n.toR[0]);
    StoppedWork(n, n.toR[0].file);
    assert WireWork(ReceiverReceives(n)) < WireWork(n);
    assert JobWork(ReceiverReceives(n)) <= JobWork(n);
  }

  lemma ToldStaysAttached(n: Net)
    requires n.link == Up && n.toR != [] && (n.toR[0].CReject? || n.toR[0].CError?)
    ensures var n' := ReceiverReceives(n); n'.link == Up && (Attached(n) ==> Attached(n'))
  {
  }

  lemma JobStartsDrains(n: Net, f: FileId)
    requires f in n.preparing
    ensures Work(Starting(n, f)) < Work(n)
  {
    StartWork(n, f);
    StartWire(n, f);
  }

  lemma StartWire(n: Net, f: FileId)
    requires f in n.preparing
    ensures WireWork(Starting(n, f)) == WireWork(n) + 3
  {
    Appended(n, CRequest, SDone(f), Start(f));
  }

  lemma StartWork(n: Net, f: FileId)
    requires f in n.preparing
    ensures JobWork(Starting(n, f)) <= JobWork(n) - 4
  {
    StreamingGrows(n, f);
    assert |n.preparing - {f}| == |n.preparing| - 1;
  }

  lemma JobEndsDrains(n: Net, f: FileId, success: bool)
    requires f in n.preparing + n.streaming
    ensures Work(Ending(n, f, success)) < Work(n)
  {
    StoppedWork(n, f);
    if f in n.preparing {
      assert n.preparing == (n.preparing - {f}) + {f};
    } else {
      assert n.streaming == (n.streaming - {f}) + {f};
    }
  }

  lemma CommitWire(n: Net, c: Commit)
    requires c in n.commits
    ensures WireWork(Committing(n, c)) == WireWork(n) + 2
  {
    Appended(n, CRequest, SDone(c.file), if c.success then Done(c.file) else Fail(c.file));
  }

  lemma CommitWork(n: Net, c: Commit)
    requires c in n.commits
    ensures JobWork(Committing(n, c)) == JobWork(n) - 3
  {
    assert |n.commits - multiset{c}| == |n.commits| - 1;
  }

  lemma CommitStaysAttached(n: Net, c: Commit)
    requires n.link == Up && c in n.commits
    ensures var n' := Committing(n, c); n'.link == Up && n'.gone == n.gone && (Attached(n) ==> Attached(n'))
  {
  }

  lemma CommitDrains(n: Net, c: Commit)
    requires c in n.commits
    ensures Work(Committing(n, c)) < Work(n)
  {
    CommitWire(n, c);
    CommitWork(n, c);
  }

  lemma JobsDrain(n: Net, step: JobStep)
    requires n.link == Up && Draining(n, Job(step))
    ensures var n' := JobNext(n, step);
            Work(n') < Work(n) && n'.link == Up && n'.gone == n.gone && (Attached(n) ==> Attached(n'))
  {
    match step {
      case JobStarts(f) => JobStartsDrains(n, f);
      case JobEnds(f, success) => JobEndsDrains(n, f, success);
      case CommitJob(c) =>
        CommitDrains(n, c);
        CommitStaysAttached(n, c);
      case _ =>
    }
  }

  lemma StreamingGrows(n: Net, f: FileId)
    ensures |n.streaming + {f}| <= |n.streaming| + 1
  {
    if f in n.streaming {
      assert n.streaming + {f} == n.streaming;
    }
  }

  ghost predicate LessLeft(n: Net, n': Net) {
    Work(n') < Work(n) && !n'.gone && n'.link == Up && (Attached(n) ==> Attached(n'))
  }

  lemma SenderDrains(n: Net, step: SenderStep)
    requires Inv(n) && n.link == Up && !n.gone && Draining(n, Sender(step))
    ensures LessLeft(n, SenderNext(n, step))
  {
    match step {
      case SendNext =>
        assert n.sReqs[0] in n.sReqs;
        SendNextInv(n);
        SendNextDrains(n);
      case SenderRecv =>
        SenderRecvInv(n);
        SenderRecvDrains(n);
      case JobReports(job) => Appended(n, CError(job.file), SDone(""), Close);
      case _ =>
    }
  }

  lemma ReceiverDrains(n: Net, step: ReceiverStep)
    requires Inv(n) && n.link == Up && !n.gone && Draining(n, Receiver(step))
    ensures LessLeft(n, ReceiverNext(n, step))
  {
    match step {
      case TakeNext =>
        assert n.rReqs[0] in n.rReqs;
        TakeInv(n);
        TakeDrains(n);
      case ReceiverRecv =>
        assert n.toR[0] in n.toR;
        ReceiverRecvInv(n);
        if n.toR[0].CChunk? {
          ChunkDrains(n);
        } else {
          ToldDrains(n);
          ToldStaysAttached(n);
        }
      case _ =>
    }
  }

  /** Every draining step leaves strictly less to do on the same connection. */
  lemma DrainingWorks(n: Net, step: Step)
    requires Inv(n) && n.link == Up && !n.gone && Draining(n, step)
    ensures Inv(Next(n, step)) && LessLeft(n, Next(n, step))
  {
    StepInv(n, step);
    match step {
      case Sender(s) => SenderDrains(n, s);
      case Receiver(r) => ReceiverDrains(n, r);
      case Job(j) => JobsDrain(n, j);
      case _ =>
    }
  }

  /** Each step of the list drains something when its turn comes. */
  ghost predicate AllDrain(n: Net, steps: seq<Step>)
    decreases |steps|
  {
    steps != [] ==> Draining(n, steps[0]) && AllDrain(Next(n, steps[0]), steps[1..])
  }

  /** Convergence: in whatever order queues are drained and jobs end, it takes at most `Work` steps on any
      connection that is up; on an attached one, when nothing is left both sides agree on every file. */
  lemma {:induction false} Converges(n: Net, steps: seq<Step>)
    requires Inv(n) && !n.gone && n.link == Up && AllDrain(n, steps)
    ensures |steps| <= Work(n)
    ensures var n' := Run(n, steps);
            && Inv(n') && !n'.gone && n'.link == Up
            && ((forall step :: !Draining(n', step)) <==> Quiet(n'))
            && (Attached(n) ==> Attached(n') && (Quiet(n') ==> SidesAgree(n')))
    decreases |steps|
  {
    if steps == [] {
      NothingDrains(n);
      if Quiet(n) && Attached(n) {
        QuietAgrees(n);
      }
    } else {
      DrainingWorks(n, steps[0]);
      Converges(Next(n, steps[0]), steps[1..]);
    }
  }

  /** The receiver's entry holds a connection whose reader is gone. */
  predicate HoldsClosed(n: Net, oldConnClosed: bool) {
    n.r.mem.Some? && n.r.mem.value.conn.Some? && oldConnClosed
  }

  /** A reconnection attaches the receiver's entry exactly unless that still holds a connection whose reader is
      gone; then it is refused and the sender is where it was. */
  lemma ReconnectionAttaches(n: Net, order: seq<ClientReq>, replay: seq<ServerReq>, oldConnClosed: bool)
    requires Inv(n) && !n.gone && n.link == Down
    requires IsPendingOrder(n, order) && IsReplayOrder(Dialing(n, order), replay)
    ensures var n' := Accepting(Dialing(n, order), replay, oldConnClosed);
            && Inv(n') && !n'.gone
            && (Attached(n') <==> !HoldsClosed(n, oldConnClosed))
            && (n'.link == Down <==> HoldsClosed(n, oldConnClosed))
  {
    DialInv(n, order);
    AcceptInv(Dialing(n, order), replay, oldConnClosed);
  }

  /** A refusal undoes what caused it: the run of the refused request ends with a disconnect as well, and once some
      disconnect has run, the next reconnection attaches whatever it finds. Until then it is refused exactly as long
      as the connection held counts as closed. */
  lemma RefusalClears(n: Net, order: seq<ClientReq>, replay: seq<ServerReq>,
                      again: seq<ClientReq>, replayed: seq<ServerReq>, oldConnClosed: bool)
    requires Inv(n) && !n.gone && n.link == Down && HoldsClosed(n, true)
    requires IsPendingOrder(n, order) && IsReplayOrder(Dialing(n, order), replay)
    requires IsPendingOrder(n, again) && IsReplayOrder(n, replayed)
    ensures var refused := Accepting(Dialing(n, order), replay, true);
            && refused.link == Down && refused.loops == n.loops + 1 && refused.r == n.r
            && Attached(Accepting(Dialing(LoopEnding(refused), again), replayed, oldConnClosed))
            && (Attached(Accepting(Dialing(refused, again), replayed, oldConnClosed)) <==> !oldConnClosed)
  {
    var refused := Accepting(Dialing(n, order), replay, true);
    ReconnectionAttaches(n, order, replay, true);
    RefusedKeeps(n, order, replay);
    LoopEndsInv(refused);
    ReconnectionAttaches(refused, again, replayed, oldConnClosed);
    ReconnectionAttaches(LoopEnding(refused), again, replayed, oldConnClosed);
  }

  lemma RefusedKeeps(n: Net, order: seq<ClientReq>, replay: seq<ServerReq>)
    requires SenderShape(n) && n.link == Down && HoldsClosed(n, true)
    ensures var refused := Accepting(Dialing(n, order), replay, true);
            && refused.loops == n.loops + 1 && refused.r == n.r
            && O.Usable(refused.s) && refused.s.mem.value.files == n.s.mem.value.files
  {
  }

  /** The whole promise: after any run, once the sides reconnect and both lists of pending requests are
      replayed, in whatever order they come and interleave, the connection has a bounded number of steps to
      make, and when it has made them both sides agree on every file, unless the reconnection was refused. */
  lemma ReconnectionConverges(sizes: map<FileId, nat>, before: seq<Step>, order: seq<ClientReq>, replay: seq<ServerReq>,
                              oldConnClosed: bool, after: seq<Step>)
    requires var n := Run(Init(sizes), before);
             && !n.gone && n.link == Down
             && IsPendingOrder(n, order) && IsReplayOrder(Dialing(n, order), replay)
             && AllDrain(Accepting(Dialing(n, order), replay, oldConnClosed), after)
    ensures var n := Run(Init(sizes), before);
            var n' := Accepting(Dialing(n, order), replay, oldConnClosed);
            if HoldsClosed(n, oldConnClosed) then n'.link == Down
            else
              && Attached(n') && |after| <= Work(n')
              && ((forall step :: !Draining(Run(n', after), step)) ==> SidesAgree(Run(n', after)))
  {
    var n := Run(Init(sizes), before);
    InitInv(sizes);
    RunInv(Init(sizes), before);
    ReconnectionAttaches(n, order, replay, oldConnClosed);
    if !HoldsClosed(n, oldConnClosed) {
      Converges(Accepting(Dialing(n, order), replay, oldConnClosed), after);
    }
  }
}
