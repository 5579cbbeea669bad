/** The sender's steps, and a breaking wire, keep the two-party invariant. */
module SenderSteps {
  import opened Base
  import opened Storage
  import opened Protocol
  import opened Agreement
  import opened ConvergenceInvariant
  import O = Outgoing
  import I = Incoming

  // ----- Breaking and dialing

  lemma BrokenShape(n: Net)
    requires Shape(n)
    ensures Shape(Broken(n))
  {
    OutOthersAgree(n.s, n.session);
  }

  lemma BrokenFile(n: Net, f: FileId)
    requires Shape(n) && FileInv(n, f)
    ensures FileInv(Broken(n), f)
  {
    if n.link != Down {
      var n' := Broken(n);
      assert SenderTold(n', f) ==> SenderTold(n, f) || SenderTelling(n, f);
      assert ReceiverSaid(n', f) ==> ReceiverSaying(n, f);
      assert SenderCompleted(n', f) <==> SenderCompleted(n, f);
    }
  }

  lemma BrokenJobs(n: Net, f: FileId)
    requires Shape(n) && JobInv(n, f)
    ensures JobInv(Broken(n), f)
  {
    UnfinishedWorks(n, f);
    assert n.link != Down ==> (Orphaned(Broken(n), f) ==> Orphaned(n, f) || Working(n, f));
    assert n.link != Down ==> !Working(Broken(n), f);
  }

  lemma BrokenInv(n: Net)
    requires Inv(n)
    ensures Inv(Broken(n)) && Broken(n).gone == n.gone
  {
    BrokenShape(n);
    forall f
      ensures FileInv(Broken(n), f) && JobInv(Broken(n), f)
    {
      assert FileInv(n, f) && JobInv(n, f);
      BrokenFile(n, f);
      BrokenJobs(n, f);
    }
  }

  lemma DialShape(n: Net, order: seq<ClientReq>)
    requires Shape(n) && IsPendingOrder(n, order)
    ensures Shape(Dialing(n, order))
  {
    OutOthersAgree(n.s, n.session + 1);
    PendingOutAnnounces(n.s.mem.value.files, "");
    assert order + [] == order;
  }

  lemma DialFile(n: Net, order: seq<ClientReq>, f: FileId)
    requires Shape(n) && IsPendingOrder(n, order) && FileInv(n, f)
    ensures FileInv(Dialing(n, order), f)
  {
    if n.link == Down {
      var files, n' := n.s.mem.value.files, Dialing(n, order);
      PendingOutAnnounces(files, f);
      assert order + [] == order;
      assert n'.s.mem.value.files == files;
      assert RejectFile(f) in order <==> RejectFile(f) in O.PendingOut(files);
      assert FailFile(f) in order <==> FailFile(f) in O.PendingOut(files);
      assert SenderCompleted(n', f) <==> SenderCompleted(n, f);
    }
  }

  // ----- The sender ends a file

  /** A sender's slot before and after file `f` may have ended with `kind`. */
  ghost predicate OnlyEnds(s: O.OutSlot, s': O.OutSlot, f: FileId, kind: FileTerminal) {
    && s.mem.Some? && s'.mem.Some? && s.row.Some? && s'.row.Some?
    && s'.mem.value == s.mem.value.(files := s'.mem.value.files)
    && s'.mem.value.files.Keys == s.mem.value.files.Keys
    && (forall g :: g in s.mem.value.files && (g != f || s.mem.value.files[g].OutTerminal?) ==>
          s'.mem.value.files[g] == s.mem.value.files[g])
    && (f in s.mem.value.files && !s.mem.value.files[f].OutTerminal? ==> s'.mem.value.files[f] == O.OutTerminal(kind))
    && s'.row.value.recorded == s.row.value.recorded
  }

  lemma SenderTerminates(s: O.OutSlot, f: FileId, kind: FileTerminal)
    requires OutAgree(s) && O.Usable(s)
    ensures var after := O.Terminate(s, f, kind);
            && OutAgree(after.slot) && OnlyEnds(s, after.slot, f, kind)
            && O.TerminalRecv(s, f, kind).slot == after.slot
            && (kind == Rejected ==> O.RejectionPost(s, f).slot == after.slot)
            && (kind == Failed ==> O.FailurePost(s, f).slot == after.slot)
  {
    OutTerminateAgrees(s, f, kind);
  }

  lemma SenderHandlesShape(n: Net, m: ServerMsg)
    requires Shape(n)
    ensures Shape(SenderHandles(n, m)) && SenderHandles(n, m).gone == n.gone
  {
    if !m.SStart? {
      SenderTerminates(n.s, m.file, KindSaid(m));
    }
  }

  function KindSaid(m: ServerMsg): FileTerminal {
    match m
    case SDone(_) => Completed
    case SReject(_) => Rejected
    case _ => Failed
  }

  /** What handling an end message comes to. */
  lemma HandlesEnd(n: Net, m: ServerMsg)
    requires !m.SStart?
    ensures SenderHandles(n, m)
         == StopUpload(SenderEnds(n, O.TerminalRecv(n.s, m.file, KindSaid(m)), m.file, KindSaid(m)), m.file)
  {
  }

  /** `rest` is `n` with the message `m` taken off one of the queues towards the sender; what it said about
      `f` is still being said unless it was `m` that said it. */
  ghost predicate TookFromReceiver(n: Net, rest: Net, m: ServerMsg, f: FileId) {
    && rest == n.(toS := rest.toS, lateS := rest.lateS)
    && (ReceiverSaying(rest, f) ==> ReceiverSaying(n, f))
    && (ReceiverSaying(n, f) && (f != m.file || m.SStart?) ==> ReceiverSaying(rest, f))
    && (ReceiverSaid(rest, f) ==> ReceiverSaid(n, f))
  }

  lemma StartAnsweredFile(n: Net, rest: Net, m: ServerMsg, f: FileId)
    requires FileInv(n, f) && m.SStart? && TookFromReceiver(n, rest, m, f)
    ensures FileInv(SenderHandles(rest, m), f)
  {
    var n' := SenderHandles(rest, m);
    assert n'.toR == n.toR || (n'.toR == n.toR + [CError(m.file)] && SenderEnded(n, m.file));
    assert SenderTelling(n', f) <==> SenderTelling(n, f) || CError(f) in n'.toR;
  }

  /** The sender ends a file because the receiver said so. */
  lemma SenderToldFile(n: Net, rest: Net, m: ServerMsg, s': O.OutSlot)
    requires FileInv(n, m.file) && !m.SStart? && ReceiverEnded(n, m.file) && TookFromReceiver(n, rest, m, m.file)
    requires s' == O.TerminalRecv(n.s, m.file, KindSaid(m)).slot && OnlyEnds(n.s, s', m.file, KindSaid(m))
    ensures FileInv(SenderHandles(rest, m), m.file)
  {
    var f, n' := m.file, SenderHandles(rest, m);
    HandlesEnd(rest, m);
    assert SenderEnded(n', f) && ReceiverEnded(n', f);
  }

  /** Other files do not notice. */
  lemma SenderToldOther(n: Net, rest: Net, m: ServerMsg, s': O.OutSlot, f: FileId)
    requires FileInv(n, f) && !m.SStart? && f != m.file && TookFromReceiver(n, rest, m, f)
    requires s' == O.TerminalRecv(n.s, m.file, KindSaid(m)).slot && OnlyEnds(n.s, s', m.file, KindSaid(m))
    ensures FileInv(SenderHandles(rest, m), f)
  {
    var n' := SenderHandles(rest, m);
    HandlesEnd(rest, m);
    assert n'.s == s';
    assert SenderEnded(n', f) <==> SenderEnded(n, f);
    assert SenderCompleted(n', f) <==> SenderCompleted(n, f);
    assert Logged(n'.sLog, f) <==> Logged(n.sLog, f);
    assert SenderTelling(n', f) <==> SenderTelling(n, f);
  }

  lemma HandlesKeepsJobs(n: Net, m: ServerMsg)
    ensures SameJobs(n, SenderHandles(n, m))
  {
  }

  lemma SenderHandlesInv(n: Net, rest: Net, m: ServerMsg)
    requires Inv(n) && Shape(rest)
    requires forall f :: TookFromReceiver(n, rest, m, f)
    requires m in n.toS || m in n.lateS
    ensures Inv(SenderHandles(rest, m)) && SenderHandles(rest, m).gone == n.gone
  {
    SenderHandlesShape(rest, m);
    assert FileInv(n, m.file) && TookFromReceiver(n, rest, m, m.file);
    HandlesKeepsJobs(rest, m);
    SameJobsInv(n, SenderHandles(rest, m));
    if !m.SStart? {
      SenderTerminates(n.s, m.file, KindSaid(m));
    }
    var s' := O.TerminalRecv(n.s, m.file, KindSaid(m)).slot;
    forall f
      ensures FileInv(SenderHandles(rest, m), f)
    {
      assert FileInv(n, f) && TookFromReceiver(n, rest, m, f);
      if m.SStart? {
        StartAnsweredFile(n, rest, m, f);
      } else if f == m.file {
        SenderToldFile(n, rest, m, s');
      } else {
        SenderToldOther(n, rest, m, s', f);
      }
    }
  }

  lemma TookNext(n: Net, f: FileId)
    requires n.toS != []
    ensures TookFromReceiver(n, n.(toS := n.toS[1..]), n.toS[0], f)
  {
    Tail(n.toS);
  }

  lemma TookLate(n: Net, f: FileId)
    requires n.lateS != []
    ensures TookFromReceiver(n, n.(lateS := n.lateS[1..]), n.lateS[0], f)
  {
    Tail(n.lateS);
  }

  lemma SenderRecvInv(n: Net)
    requires Inv(n) && n.link != Down && n.toS != []
    ensures Inv(SenderReceives(n)) && SenderReceives(n).gone == n.gone
  {
    forall f
      ensures TookFromReceiver(n, n.(toS := n.toS[1..]), n.toS[0], f)
    {
      TookNext(n, f);
    }
    SenderHandlesInv(n, n.(toS := n.toS[1..]), n.toS[0]);
  }

  lemma SenderLateInv(n: Net)
    requires Inv(n) && n.link == Down && n.lateS != []
    ensures Inv(SenderReadsLate(n)) && SenderReadsLate(n).gone == n.gone
  {
    forall f
      ensures TookFromReceiver(n, n.(lateS := n.lateS[1..]), n.lateS[0], f)
    {
      TookLate(n, f);
    }
    SenderHandlesInv(n, n.(lateS := n.lateS[1..]), n.lateS[0]);
  }

  lemma SendNextTelling(n: Net, f: FileId)
    requires n.link != Down && n.sReqs != [] && n.sReqs[0] != CloseTransfer
    ensures SenderTelling(Sending(n), f) <==> SenderTelling(n, f)
  {
    Tail(n.sReqs);
  }

  lemma SendNextFile(n: Net, f: FileId)
    requires FileInv(n, f) && n.link != Down && n.sReqs != [] && n.sReqs[0] != CloseTransfer
    ensures FileInv(Sending(n), f)
  {
    SendNextTelling(n, f);
  }

  lemma SendNextShape(n: Net)
    requires Shape(n) && n.link != Down && n.sReqs != [] && n.sReqs[0] != CloseTransfer
    ensures Shape(Sending(n)) && Sending(n).gone == n.gone
  {
    var n' := Sending(n);
    Tail(n.sReqs);
    assert n' == n.(sReqs := n.sReqs[1..], toR := n'.toR, failing := n'.failing);
    assert SenderShape(n') && ReceiverShape(n');
  }

  lemma JobFailsShape(n: Net, g: FileId, abortable: bool)
    requires Shape(n)
    ensures Shape(Failure(n, g, abortable))
  {
    SenderTerminates(n.s, g, Failed);
  }

  lemma JobFailsFile(n: Net, g: FileId, abortable: bool, s': O.OutSlot, f: FileId)
    requires FileInv(n, f) && n.link != Down && g in n.sizes
    requires s' == O.FailurePost(n.s, g).slot && OnlyEnds(n.s, s', g, Failed)
    ensures FileInv(Failure(n, g, abortable), f)
  {
    var n' := Failure(n, g, abortable);
    assert n'.s == s';
    assert SenderTelling(n', f) <==> SenderTelling(n, f) || f == g;
    assert SenderCompleted(n', f) <==> SenderCompleted(n, f);
  }

  lemma JobReportsFile(n: Net, job: Failing, f: FileId)
    requires FileInv(n, f) && n.link != Down && job in n.failing
    ensures FileInv(Report(n, job), f)
  {
    var n' := Report(n, job);
    assert SenderTelling(n', f) <==> SenderTelling(n, f);
    assert ReceiverSaying(n', f) <==> ReceiverSaying(n, f);
    assert Working(n', f) <==> Working(n, f);
  }

  lemma SendChunkFile(n: Net, g: FileId, f: FileId)
    requires FileInv(n, f) && n.link != Down
    ensures FileInv(n.(toR := n.toR + [CChunk(g)]), f)
  {
    var n' := n.(toR := n.toR + [CChunk(g)]);
    assert SenderTelling(n', f) <==> SenderTelling(n, f);
    assert ReceiverSaying(n', f) <==> ReceiverSaying(n, f);
    assert Working(n', f) <==> Working(n, f);
  }

  lemma SenderRejectsShape(n: Net, g: FileId)
    requires Shape(n)
    ensures Shape(SenderRejecting(n, g))
  {
    SenderTerminates(n.s, g, Rejected);
  }

  /** The sender has ended `g` as rejected, and tells so when it has a connection. */
  lemma RejectedFile(n: Net, n': Net, g: FileId, told: bool, f: FileId)
    requires FileInv(n, f) && OnlyEnds(n.s, n'.s, g, Rejected)
    requires n' == n.(s := n'.s, sLog := n'.sLog, sReqs := n'.sReqs)
    requires n'.sReqs == n.sReqs + if told then [RejectFile(g)] else []
    requires n'.sLog == n.sLog || n'.sLog == n.sLog + {(g, Rejected)}
    requires n.link != Down && g in n.s.mem.value.files && !n.s.mem.value.files[g].OutTerminal? ==> told
    ensures FileInv(n', f)
  {
    assert SenderTelling(n', f) <==> SenderTelling(n, f) || (f == g && told);
    assert SenderCompleted(n', f) <==> SenderCompleted(n, f);
  }

  lemma SenderRejectsFile(n: Net, g: FileId, s': O.OutSlot, f: FileId)
    requires FileInv(n, f) && (n.link != Down ==> n.s.mem.Some? && n.s.mem.value.conn.Some?)
    requires s' == O.RejectionPost(n.s, g).slot && OnlyEnds(n.s, s', g, Rejected) && O.Usable(n.s)
    ensures FileInv(SenderRejecting(n, g), f)
  {
    var pushed := O.RejectionPost(n.s, g).pushed;
    assert pushed == [] || pushed == [RejectFile(g)];
    RejectedFile(n, SenderRejecting(n, g), g, n.link != Down && pushed != [], f);
  }

  lemma SenderRecordsShape(n: Net, g: FileId, kind: FileTerminal)
    requires Shape(n) && SenderEnded(n, g)
    ensures Shape(n.(s := n.s.(row := WithRecorded(n.s.row, g, kind))))
  {
    OutRecordAgrees(n.s, g, kind);
  }

  lemma SenderRecordsFile(n: Net, g: FileId, kind: FileTerminal, f: FileId)
    requires Shape(n) && FileInv(n, f) && (g, kind) in n.sLog
    ensures FileInv(n.(s := n.s.(row := WithRecorded(n.s.row, g, kind)), sLog := n.sLog - {(g, kind)}), f)
  {
    var n' := n.(s := n.s.(row := WithRecorded(n.s.row, g, kind)), sLog := n.sLog - {(g, kind)});
    assert SenderCompleted(n', f) ==> SenderCompleted(n, f);
    assert SenderTelling(n', f) <==> SenderTelling(n, f);
    assert ReceiverSaying(n', f) <==> ReceiverSaying(n, f);
    assert Working(n', f) <==> Working(n, f);
  }

  lemma SenderRestartsShape(n: Net)
    requires Shape(n)
    ensures Shape(SenderRestarting(n)) && SenderRestarting(n).gone == n.gone
  {
    BrokenShape(n);
    RestoreOutgoing(Broken(n).s);
  }

  lemma SenderRestartsFile(n: Net, f: FileId)
    requires Shape(n) && FileInv(n, f)
    ensures FileInv(SenderRestarting(n), f)
  {
    var down := Broken(n);
    BrokenShape(n);
    BrokenFile(n, f);
    RestoreOutgoing(down.s);
    RestartedFile(down, O.Restore(down.s.row).value, f);
  }

  lemma RestartedFile(n: Net, again: O.OutMem, f: FileId)
    requires FileInv(n, f) && n.link == Down && n.s.mem.Some? && n.s.row.Some?
    requires again.files.Keys == n.s.mem.value.files.Keys
    requires f in again.files ==> (again.files[f].OutTerminal? <==> n.s.mem.value.files[f].OutTerminal?)
    requires f in again.files && again.files[f] == O.OutTerminal(Completed) ==> f in n.s.row.value.recorded.completed
    ensures FileInv(n.(s := n.s.(mem := Some(again)), lateS := [], sLog := {}), f)
  {
  }
}
