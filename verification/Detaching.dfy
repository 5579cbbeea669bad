/** How the receiver's entry loses a working connection, and what comes of it. The check in `register_incoming` is
    the wrong way round: it refuses a registration exactly when the connection held is dead and lets another
    one take the place of a connection that lives. A loop that notices late that its connection broke takes away
    whatever connection is held by then, and so does the run of a refused request when it ends. Afterwards a file
    may be ended unheard, by a rejection or by a download that another loop does; `Missed` proves that these are
    all the ends that are missed. */
module Detaching {
  import opened Base
  import opened Storage
  import opened Protocol
  import opened Agreement
  import opened ConvergenceInvariant
  import opened SenderSteps
  import opened ReceiverSteps
  import opened Convergence
  import opened Missed
  import O = Outgoing
  import I = Incoming

  // ----- When a registration leaves the connection held alone

  /** A registration of a known transfer keeps the connection its entry holds exactly when the request does not
      match, the transfer is cancelled, or the connection held is dead. A matching request is refused exactly
      when that connection is dead, where a living one is what should have been protected. */
  lemma RegistrationKeepsIff(s: I.InSlot, peer: Peer, sizes: map<FileId, nat>, conn: ConnId, oldConnClosed: bool)
    requires s.mem.Some? && s.mem.value.conn.Some? && s.mem.value.conn != Some(conn)
    ensures var mem, after := s.mem.value, I.Register(s, peer, sizes, conn, oldConnClosed);
            && after.slot.mem.Some?
            && (after.slot.mem.value.conn == mem.conn
                <==> peer != mem.peer || sizes != mem.sizes || mem.state == Canceled || oldConnClosed)
            && (after.result.Err? <==> peer != mem.peer || sizes != mem.sizes || oldConnClosed)
  {
  }

  /** That is the registration. The run of a request does not stop there: it ends with a disconnect, the run of a
      refused one at once. When it has ended nothing is held, whether the request was accepted or refused, matched
      or not; until then its own connection is held exactly when it matched and was not refused. */
  lemma RequestTakesConnection(s: I.InSlot, peer: Peer, sizes: map<FileId, nat>, conn: ConnId, oldConnClosed: bool)
    requires I.Usable(s) && s.mem.value.conn != Some(conn)
    ensures var mem, after := s.mem.value, I.Register(s, peer, sizes, conn, oldConnClosed);
            && after.slot.mem.Some?
            && (after.slot.mem.value.conn == Some(conn)
                <==> peer == mem.peer && sizes == mem.sizes && !(mem.conn.Some? && oldConnClosed))
            && (after.result.Err? <==> after.slot == s)
            && I.Disconnect(after.slot).slot == I.Disconnect(s).slot
            && I.Disconnect(s).slot == s.(mem := Some(mem.(conn := None)))
  {
  }

  /** On a working connection, a leftover request of an earlier one takes its place exactly unless the working
      connection counts as dead. */
  lemma LateRequestDetachesIff(n: Net, i: nat, oldConnClosed: bool)
    requires Inv(n) && Attached(n) && i < |n.lateR| && n.lateR[i] == CRequest
    ensures Attached(ReceiverReadsLate(n, i, oldConnClosed)) <==> oldConnClosed
    ensures !oldConnClosed ==> ReceiverReadsLate(n, i, oldConnClosed).r.mem.value.conn == Some(STALE)
  {
  }

  // ----- Runs from two untouched sides

  /** One untouched file "a"; `conn` is the receiver's entry's connection, if it has an entry. */
  ghost predicate Untouched(n: Net, link: Link, session: ConnId, loops: nat, conn: Option<Option<ConnId>>) {
    && n.sizes == map["a" := 1] && !n.gone && n.link == link && n.session == session && n.loops == loops
    && O.Usable(n.s) && n.s.mem.value.files == map["a" := O.OutAlive]
    && (conn.None? ==> n.r.mem.None? && n.r.row.None?)
    && (conn.Some? ==> I.Usable(n.r) && n.r.mem.value.conn == conn.value)
    && (conn.Some? ==> n.r.mem.value.files == map["a" := I.Idle])
    && (conn.Some? ==> n.r.mem.value.peer == SENDER && n.r.mem.value.sizes == n.sizes)
    && n.sReqs == [] && n.rReqs == [] && n.toS == [] && n.toR == (if link == Dialed then [CRequest] else [])
    && n.failing == multiset{} && n.commits == multiset{} && n.preparing == {} && n.streaming == {}
    && n.strays == multiset{} && n.orphans == multiset{}
  }

  lemma UntouchedAgrees(n: Net, loops: nat, conn: Option<Option<ConnId>>)
    requires Untouched(n, Up, n.session, loops, conn) && conn.Some?
    ensures Quiet(n) && SidesAgree(n) && (Attached(n) <==> conn.value == Some(n.session))
  {
  }

  lemma UntouchedDials(n: Net, loops: nat, conn: Option<Option<ConnId>>)
    requires Untouched(n, Down, n.session, loops, conn)
    ensures Untouched(Next(n, Sender(Dial([]))), Dialed, n.session + 1, loops, conn)
    ensures Next(n, Sender(Dial([]))).lateR == n.lateR
  {
    assert O.PendingOut(n.s.mem.value.files) == {};
  }

  lemma UntouchedAccepts(n: Net, loops: nat, conn: Option<Option<ConnId>>)
    requires Untouched(n, Dialed, n.session, loops, conn)
    ensures Untouched(Next(n, Receiver(Accept([], false))), Up, n.session, loops, Some(Some(n.session)))
    ensures Next(n, Receiver(Accept([], false))).lateR == n.lateR
  {
    if conn.Some? {
      assert I.PendingIn(n.r.mem.value.files) == {};
    }
  }

  lemma UntouchedRefused(n: Net, loops: nat, held: ConnId)
    requires Untouched(n, Dialed, n.session, loops, Some(Some(held)))
    ensures Untouched(Next(n, Receiver(Accept([], true))), Down, n.session, loops + 1, Some(Some(held)))
  {
    assert I.PendingIn(n.r.mem.value.files) == {};
  }

  lemma UntouchedBreaks(n: Net, link: Link, loops: nat, conn: Option<Option<ConnId>>)
    requires Untouched(n, link, n.session, loops, conn) && link != Down
    ensures Untouched(Next(n, Break), Down, n.session, if link == Up then loops + 1 else loops, conn)
    ensures Next(n, Break).lateR == n.lateR + n.toR
  {
  }

  lemma UntouchedLoopEnds(n: Net, loops: nat, conn: Option<Option<ConnId>>)
    requires Untouched(n, n.link, n.session, loops + 1, conn) && conn.Some?
    ensures Untouched(Next(n, Receiver(LoopEnds)), n.link, n.session, loops, Some(None))
  {
  }

  lemma UntouchedReadsRequest(n: Net, loops: nat, held: ConnId)
    requires Untouched(n, Up, n.session, loops, Some(Some(held))) && n.lateR == [CRequest]
    ensures Untouched(Next(n, Receiver(ReceiverLate(0, false))), Up, n.session, loops + 1, Some(Some(STALE)))
  {
  }

  lemma DetachedRejects(n: Net, loops: nat, conn: Option<ConnId>)
    requires Untouched(n, Up, n.session, loops, Some(conn)) && conn != Some(n.session)
    ensures var n' := Next(n, Receiver(ReceiverRejects("a")));
            !n'.gone && Quiet(n') && !Attached(n') && !SidesAgree(n')
    ensures Misses(n, Receiver(ReceiverRejects("a")), "a")
  {
    var n' := Next(n, Receiver(ReceiverRejects("a")));
    assert "a" in n'.sizes && !SenderEnded(n', "a") && ReceiverEnded(n', "a");
  }

  lemma {:induction false} RunOneMore(n: Net, steps: seq<Step>, step: Step)
    ensures Run(n, steps + [step]) == Next(Run(n, steps), step)
    decreases |steps|
  {
    if steps == [] {
      assert ([] + [step])[1..] == [];
    } else {
      assert (steps + [step])[1..] == steps[1..] + [step];
      RunOneMore(Next(n, steps[0]), steps[1..], step);
    }
  }

  /** Dialing, being accepted, and breaking: no loop ends, and nobody rejects anything. */
  predicate Connecting(step: Step) {
    match step
    case Sender(Dial(_)) => true
    case Receiver(Accept(_, _)) => true
    case Break => true
    case _ => false
  }

  /** Dial and be accepted, in addition to `steps`. */
  lemma Connects(n: Net, steps: seq<Step>, loops: nat, conn: Option<Option<ConnId>>) returns (more: seq<Step>)
    requires var m := Run(n, steps); Untouched(m, Down, m.session, loops, conn)
    ensures var m := Run(n, more);
            Untouched(m, Up, m.session, loops, Some(Some(m.session))) && m.session == Run(n, steps).session + 1
            && m.lateR == Run(n, steps).lateR
    ensures forall step :: step in more ==> step in steps || Connecting(step)
  {
    UntouchedDials(Run(n, steps), loops, conn);
    RunOneMore(n, steps, Sender(Dial([])));
    var dialed := steps + [Sender(Dial([]))];
    UntouchedAccepts(Run(n, dialed), loops, conn);
    RunOneMore(n, dialed, Receiver(Accept([], false)));
    more := dialed + [Receiver(Accept([], false))];
  }

  /** A first connection that broke, with its loop still running. */
  lemma ConnectedAndBroke(n: Net) returns (steps: seq<Step>)
    requires Untouched(n, Down, n.session, 0, None)
    ensures var m := Run(n, steps);
            Untouched(m, Down, m.session, 1, Some(Some(m.session)))
  {
    var up := Connects(n, [], 0, None);
    var m := Run(n, up);
    UntouchedBreaks(m, Up, 0, Some(Some(m.session)));
    RunOneMore(n, up, Break);
    steps := up + [Break];
  }

  lemma RefusedAfterBreak(n: Net) returns (steps: seq<Step>)
    requires Untouched(n, Down, n.session, 0, None)
    ensures var m := Run(n, steps);
            !m.gone && m.link == Dialed && m.r.mem.Some? && m.r.mem.value.conn.Some?
    ensures var m := Next(Run(n, steps), Receiver(Accept([], true)));
            !m.gone && m.r == Run(n, steps).r && m.r.mem.Some? && m.r.mem.value.conn.Some?
            && Untouched(m, Down, m.session, 2, Some(m.r.mem.value.conn))
  {
    var broke := ConnectedAndBroke(n);
    var m := Run(n, broke);
    UntouchedDials(m, 1, Some(Some(m.session)));
    RunOneMore(n, broke, Sender(Dial([])));
    steps := broke + [Sender(Dial([]))];
    UntouchedRefused(Run(n, steps), 1, m.session);
    RefusalKeepsEntry(Run(n, steps));
  }

  lemma RefusalKeepsEntry(n: Net)
    requires Next(n, Receiver(Accept([], true))).link == Down
    ensures Next(n, Receiver(Accept([], true))).r == n.r
  {
  }

  /** The refusal: the connection broke, the receiver's entry still holds the dead connection, the sender dials
      again, and is sent away although nothing is in progress. */
  lemma DeadConnectionBlocks()
    ensures exists steps :: var n := Run(Init(map["a" := 1]), steps);
              && !n.gone && n.link == Dialed
              && n.r.mem.Some? && n.r.mem.value.conn.Some?
              && Next(n, Receiver(Accept([], true))).link == Down
              && !Next(n, Receiver(Accept([], true))).gone
  {
    var steps := RefusedAfterBreak(Init(map["a" := 1]));
  }

  /** A request that was on its way when the first connection broke, and a second connection in use. */
  lemma RequestOverdue(n: Net) returns (steps: seq<Step>)
    requires Untouched(n, Down, n.session, 0, None) && n.lateR == []
    ensures var m := Run(n, steps);
            Untouched(m, Up, m.session, 0, Some(Some(m.session))) && m.lateR == [CRequest] && m.session != STALE
    ensures forall step :: step in steps ==> Connecting(step)
  {
    UntouchedDials(n, 0, None);
    RunOneMore(n, [], Sender(Dial([])));
    var dialed := [] + [Sender(Dial([]))];
    UntouchedBreaks(Run(n, dialed), Dialed, 0, None);
    RunOneMore(n, dialed, Break);
    steps := Connects(n, dialed + [Break], 0, None);
  }

  lemma OverdueRequestDetaches(n: Net) returns (steps: seq<Step>)
    requires Untouched(n, Down, n.session, 0, None) && n.lateR == []
    ensures var m := Run(n, steps);
            && !m.gone && Attached(m) && Quiet(m) && SidesAgree(m)
            && var late := Next(m, Receiver(ReceiverLate(0, false)));
               Untouched(late, Up, late.session, 1, Some(Some(STALE))) && late.session != STALE
    ensures forall step :: step in steps ==> Connecting(step)
  {
    steps := RequestOverdue(n);
    var m := Run(n, steps);
    UntouchedAgrees(m, 0, Some(Some(m.session)));
    UntouchedReadsRequest(m, 0, m.session);
  }

  /** The missing protection: a connection in use, quiet and in agreement, is taken from the entry by a request
      that an earlier connection left behind. */
  lemma LivingConnectionReplaced()
    ensures exists steps :: var n := Run(Init(map["a" := 1]), steps);
              && !n.gone && Attached(n) && Quiet(n) && SidesAgree(n)
              && var late := Next(n, Receiver(ReceiverLate(0, false)));
                 !late.gone && !Attached(late) && late.r.mem.Some? && late.r.mem.value.conn == Some(STALE)
  {
    var steps := OverdueRequestDetaches(Init(map["a" := 1]));
  }

  // ----- Three ways to reject a file unheard, and one to lose the end of a download

  lemma OverdueRequestSilences(n: Net) returns (steps: seq<Step>)
    requires Untouched(n, Down, n.session, 0, None) && n.lateR == []
    ensures Silenced(Run(n, steps)) && Receiver(LoopEnds) !in steps
  {
    var before := OverdueRequestDetaches(n);
    RunOneMore(n, before, Receiver(ReceiverLate(0, false)));
    var late := before + [Receiver(ReceiverLate(0, false))];
    DetachedRejects(Run(n, late), 1, Some(STALE));
    RunOneMore(n, late, Receiver(ReceiverRejects("a")));
    steps := late + [Receiver(ReceiverRejects("a"))];
  }

  lemma LateDisconnectSilences(n: Net) returns (steps: seq<Step>)
    requires Untouched(n, Down, n.session, 0, None)
    ensures Silenced(Run(n, steps))
  {
    var broke := ConnectedAndBroke(n);
    var m := Run(n, broke);
    var again := Connects(n, broke, 1, Some(Some(m.session)));
    var up := Run(n, again);
    UntouchedLoopEnds(up, 0, Some(Some(up.session)));
    RunOneMore(n, again, Receiver(LoopEnds));
    var ended := again + [Receiver(LoopEnds)];
    DetachedRejects(Run(n, ended), 0, None);
    RunOneMore(n, ended, Receiver(ReceiverRejects("a")));
    steps := ended + [Receiver(ReceiverRejects("a"))];
  }

  lemma RejectsUnheard(n: Net, conn: ConnId)
    requires Untouched(n, Up, n.session, 1, Some(Some(conn)))
    ensures var taken := Next(n, Receiver(LoopEnds));
            !Attached(taken) && Silenced(Next(taken, Receiver(ReceiverRejects("a"))))
  {
    UntouchedLoopEnds(n, 0, Some(Some(conn)));
    DetachedRejects(Next(n, Receiver(LoopEnds)), 0, None);
  }

  lemma ConnectsAgain(n: Net)
    requires Untouched(n, Down, n.session, 1, Some(None))
    ensures var up := Next(Next(n, Sender(Dial([]))), Receiver(Accept([], false)));
            && Untouched(up, Up, up.session, 1, Some(Some(up.session)))
            && Attached(up) && Quiet(up) && SidesAgree(up)
  {
    UntouchedDials(n, 1, Some(None));
    var dialed := Next(n, Sender(Dial([])));
    UntouchedAccepts(dialed, 1, Some(None));
    var up := Next(dialed, Receiver(Accept([], false)));
    UntouchedAgrees(up, 1, Some(Some(up.session)));
  }

  /** Asked for where another loop reads, the download of the file is done there. */
  lemma StrayDownload(n: Net, conn: ConnId)
    requires Untouched(n, Up, n.session, 1, Some(Some(conn))) && conn != n.session
    ensures var asked := Next(n, Job(Ask("a", "d")));
            && !asked.gone && Quiet(asked) && !Attached(asked) && SidesAgree(asked)
            && asked.strays == multiset{"a"} && asked.orphans == multiset{}
    ensures var ended := Next(Next(n, Job(Ask("a", "d"))), Job(StrayEnds("a", false)));
            Silenced(Next(ended, Job(CommitOrphan(Commit("a", false)))))
            && Misses(ended, Job(CommitOrphan(Commit("a", false))), "a")
  {
    StrayAsked(n, conn);
    var asked := AskedFor(n, "a", "d");
    StrayPosted(StrayEnding(asked, "a", false));
  }

  lemma StrayAsked(n: Net, conn: ConnId)
    requires Untouched(n, Up, n.session, 1, Some(Some(conn))) && conn != n.session
    ensures var asked := AskedFor(n, "a", "d");
            && !asked.gone && Quiet(asked) && !Attached(asked) && SidesAgree(asked) && !SenderEnded(asked, "a")
            && asked.strays == multiset{"a"} && asked.orphans == multiset{} && "a" in asked.sizes
            && I.Usable(asked.r) && asked.r.mem.value.files == map["a" := I.InFlight("d")]
  {
  }

  lemma StrayPosted(n: Net)
    requires !n.gone && Quiet(n) && !Attached(n) && n.orphans == multiset{Commit("a", false)}
    requires I.Usable(n.r) && n.r.mem.value.files == map["a" := I.InFlight("d")] && "a" in n.sizes && !SenderEnded(n, "a")
    ensures Silenced(Next(n, Job(CommitOrphan(Commit("a", false)))))
    ensures Misses(n, Job(CommitOrphan(Commit("a", false))), "a")
  {
    var n' := Next(n, Job(CommitOrphan(Commit("a", false))));
    assert "a" in n'.sizes && !SenderEnded(n', "a") && ReceiverEnded(n', "a");
  }

  /** Nothing is left to do, and the sides disagree. */
  ghost predicate Silenced(n: Net) {
    !n.gone && Quiet(n) && !Attached(n) && !SidesAgree(n)
  }

  /** A run that settles in disagreement: the receiver's first loop notices the break only after the second
      connection is registered, its `incoming_disconnect` takes the second connection's handle, and a
      rejection made then is stored but not sent. */
  lemma LateDisconnectMissesRejection()
    ensures exists steps :: Silenced(Run(Init(map["a" := 1]), steps))
  {
    var steps := LateDisconnectSilences(Init(map["a" := 1]));
  }

  /** Another one, without any loop that ends: the entry's living connection is replaced by the one of an overdue
      request. */
  lemma OverdueRequestMissesRejection()
    ensures exists steps :: Silenced(Run(Init(map["a" := 1]), steps)) && Receiver(LoopEnds) !in steps
  {
    var steps := OverdueRequestSilences(Init(map["a" := 1]));
  }

  /** A third one, in which the loop of the first connection has ended in good time: a request that was refused
      because of that connection ends after the next one was accepted, and takes the connection with it. */
  lemma RefusedRequestMissesRejection()
    ensures exists steps ::
              var refused := Next(Run(Init(map["a" := 1]), steps), Receiver(Accept([], true)));
              var cleared := Next(refused, Receiver(LoopEnds));
              var up := Next(Next(cleared, Sender(Dial([]))), Receiver(Accept([], false)));
              var taken := Next(up, Receiver(LoopEnds));
              && refused.link == Down && refused.loops == 2 && cleared.loops == 1
              && Attached(up) && Quiet(up) && SidesAgree(up) && !Attached(taken)
              && Silenced(Next(taken, Receiver(ReceiverRejects("a"))))
  {
    var n := Init(map["a" := 1]);
    var steps := RefusedAfterBreak(n);
    var refused := Next(Run(n, steps), Receiver(Accept([], true)));
    var held := refused.r.mem.value.conn;
    UntouchedLoopEnds(refused, 1, Some(held));
    var cleared := Next(refused, Receiver(LoopEnds));
    ConnectsAgain(cleared);
    var up := Next(Next(cleared, Sender(Dial([]))), Receiver(Accept([], false)));
    RejectsUnheard(up, up.session);
  }

  /** And one in which nobody rejects anything and no loop ends: the download is asked for where an overdue request
      has taken the place of the connection, fails there, and the sender never hears of it. */
  lemma StrayDownloadIsMissed()
    ensures exists steps ::
              (forall step :: step in steps ==> Connecting(step))
              && var n := Run(Init(map["a" := 1]), steps);
                 var asked := Next(Next(n, Receiver(ReceiverLate(0, false))), Job(Ask("a", "d")));
                 var ended := Next(asked, Job(StrayEnds("a", false)));
                 && Attached(n) && Quiet(n) && SidesAgree(n)
                 && Quiet(asked) && SidesAgree(asked)
                 && Silenced(Next(ended, Job(CommitOrphan(Commit("a", false)))))
  {
    var n := Init(map["a" := 1]);
    var steps := OverdueRequestDetaches(n);
    var late := Next(Run(n, steps), Receiver(ReceiverLate(0, false)));
    StrayDownload(late, STALE);
  }

  // ----- When a single rejection is heard

  lemma AttachedRejectionArrives(n: Net, f: FileId)
    requires Inv(n) && Quiet(n) && f in n.sizes && !ReceiverEnded(n, f) && Attached(n)
    ensures SidesAgree(SenderReceives(Taking(ReceiverRejecting(n, f))))
  {
    var n1 := ReceiverRejecting(n, f);
    ReceiverRejectsInv(n, f);
    RejectionQueued(n, f);
    var n2 := Taking(n1);
    TakeInv(n1);
    var n3 := SenderReceives(n2);
    SenderRecvInv(n2);
    RejectionSettles(n1, n2, n3);
    QuietAgrees(n3);
  }

  lemma RejectionQueued(n: Net, f: FileId)
    requires Quiet(n) && Attached(n) && ReceiverShape(n) && f in n.sizes && !ReceiverEnded(n, f)
    ensures var n1 := ReceiverRejecting(n, f);
            n1 == n.(r := n1.r, rLog := n1.rLog, rReqs := [Reject(f)]) && Attached(n1)
  {
    assert [] + [Reject(f)] == [Reject(f)];
  }

  lemma RejectionSettles(n1: Net, n2: Net, n3: Net)
    requires n2 == Taking(n1) && n3 == SenderReceives(n2)
    requires Attached(n1) && n1.sReqs == [] && n1.toR == [] && n1.toS == []
    requires n1.failing == multiset{} && n1.commits == multiset{} && n1.preparing == {} && n1.streaming == {}
    requires |n1.rReqs| == 1 && n1.rReqs[0].Reject?
    ensures n2.link == Up && n2.toS != [] && Quiet(n3) && Attached(n3)
  {
  }

  lemma DetachedRejectionIsMissed(n: Net, f: FileId)
    requires Shape(n) && Quiet(n) && SidesAgree(n) && f in n.sizes && !ReceiverEnded(n, f) && !Attached(n)
    ensures !SidesAgree(SenderReceives(Taking(ReceiverRejecting(n, f))))
  {
    var n1 := ReceiverRejecting(n, f);
    ReceiverTerminates(n.r, f, Rejected);
    assert n1.rReqs == [] && n1.toS == [];
    assert !SenderEnded(n1, f) && ReceiverEnded(n1, f) && f in n1.sizes;
  }

  /** Exactly when a rejection reaches the sender: from a quiet connection on which both sides agree, rejecting
      a live file and letting its message through leads to agreement if and only if the receiver's entry
      holds the connection when the rejection is made. */
  lemma RejectionArrivesIff(n: Net, f: FileId)
    requires Inv(n) && Quiet(n) && SidesAgree(n) && f in n.sizes && !ReceiverEnded(n, f)
    ensures SidesAgree(SenderReceives(Taking(ReceiverRejecting(n, f)))) <==> Attached(n)
  {
    if Attached(n) {
      AttachedRejectionArrives(n, f);
    } else {
      DetachedRejectionIsMissed(n, f);
    }
  }
}
