/** The two event state machines: `FileEventTx`, which decides what is reported about one file, and
    `TransferEventTx`, which decides what is reported about a whole transfer. */
module Events {
  import opened Base

  datatype FileTx = Idle | Throttled | Preflight | Flying | Ended

  datatype FileEvent = Pending | Started(offset: nat) | Progress(bytes: nat) | ChecksumStep | Paused
                     | ThrottledAt(bytes: nat) | EndedAs(kind: FileTerminal)

  /** The calls on a `FileEventTx`. `EmitFlying` carries a progress or checksum event, `End` a final one. */
  datatype FileOp = Begin(offset: nat, withProgress: bool) | EmitFlying(event: FileEvent) | Pause | SilentStop
                  | Throttle(bytes: nat) | Prepare | AnnouncePending | End(kind: FileTerminal)

  /** The state after a call. `Pause` and `SilentStop` replace whatever state there was by `Idle`, and
      `Prepare` by `Preflight`, also when the file had ended. */
  function StateAfter(state: FileTx, op: FileOp): FileTx {
    match op
    case Begin(_, _) => if state == Ended then Ended else Flying
    case EmitFlying(_) => state
    case Pause => Idle
    case SilentStop => Idle
    case Throttle(_) => if state == Idle then FileTx.Throttled else state
    case Prepare => Preflight
    case AnnouncePending => state
    case End(_) => Ended
  }

  function Emitted(state: FileTx, op: FileOp): seq<FileEvent> {
    match op
    case Begin(offset, withProgress) =>
      if state == Ended then [] else if withProgress then [Started(offset), Progress(offset)] else [Started(offset)]
    case EmitFlying(event) => if state == Preflight || state == Flying then [event] else []
    case Pause => if state == Idle || state == Ended then [] else [Paused]
    case SilentStop => []
    case Throttle(bytes) => if state == Idle then [ThrottledAt(bytes)] else []
    case Prepare => []
    case AnnouncePending => if state == Idle then [Pending] else []
    case End(kind) => if state == Ended then [] else [EndedAs(kind)]
  }

  class FileEventTx {
    var state: FileTx
    var transferred: nat
    var log: seq<FileEvent>

    constructor ()
      ensures state == Idle && transferred == 0 && log == []
    {
      state, transferred, log := Idle, 0, [];
    }

    method EmitInFlight(event: FileEvent)
      requires event.Progress? || event.ChecksumStep?
      modifies this
      ensures state == StateAfter(old(state), EmitFlying(event))
      ensures log == old(log) + Emitted(old(state), EmitFlying(event))
      ensures state == old(state) && log == old(log) + if old(state) in {Preflight, Flying} then [event] else []
      ensures transferred == if event.Progress? && old(state) in {Preflight, Flying} then event.bytes else old(transferred)
      ensures EndEvents(log) == EndEvents(old(log))
    {
      EndEventsConcat(log, [event]);
      if state != Preflight && state != Flying {
        return;
      }
      if event.Progress? {
        transferred := event.bytes;
      }
      log := log + [event];
    }

    method StartInner(offset: nat, withProgress: bool)
      modifies this
      ensures state == StateAfter(old(state), Begin(offset, withProgress))
      ensures log == old(log) + Emitted(old(state), Begin(offset, withProgress))
      ensures old(state) == Ended ==> state == Ended && log == old(log)
      ensures old(state) != Ended ==>
        state == Flying && log == old(log) + [Started(offset)] + if withProgress then [Progress(offset)] else []
      ensures transferred == old(transferred)
      ensures EndEvents(log) == EndEvents(old(log))
    {
      EndEventsConcat(log, [Started(offset)]);
      EndEventsConcat(log + [Started(offset)], [Progress(offset)]);
      assert log + [Started(offset), Progress(offset)] == log + [Started(offset)] + [Progress(offset)];
      if state == Ended {
        return;
      }
      state := Flying;
      log := log + [Started(offset)];
      if withProgress {
        log := log + [Progress(offset)];
      }
    }

    /** The state is replaced before it is looked at. */
    method Stop()
      modifies this
      ensures state == StateAfter(old(state), Pause)
      ensures log == old(log) + Emitted(old(state), Pause)
      ensures state == Idle && log == old(log) + if old(state) in {Idle, Ended} then [] else [Paused]
      ensures transferred == old(transferred)
      ensures EndEvents(log) == EndEvents(old(log))
    {
      EndEventsConcat(log, [Paused]);
      var before := state;
      state := Idle;
      if before == Idle || before == Ended {
        return;
      }
      log := log + [Paused];
    }

    method StopSilent()
      modifies this
      ensures state == StateAfter(old(state), SilentStop)
      ensures log == old(log) + Emitted(old(state), SilentStop)
      ensures state == Idle && log == old(log)
      ensures transferred == old(transferred)
      ensures EndEvents(log) == EndEvents(old(log))
    {
      state := Idle;
    }

    method Terminate(kind: FileTerminal)
      modifies this
      ensures state == StateAfter(old(state), End(kind))
      ensures log == old(log) + Emitted(old(state), End(kind))
      ensures state == Ended && log == old(log) + if old(state) == Ended then [] else [EndedAs(kind)]
      ensures transferred == old(transferred)
      ensures EndEvents(log) == EndEvents(old(log)) + if old(state) == Ended then 0 else 1
    {
      EndEventsConcat(log, [EndedAs(kind)]);
      var before := state;
      state := Ended;
      if before != Ended {
        log := log + [EndedAs(kind)];
      }
    }

    method ThrottledBy(bytes: nat)
      modifies this
      ensures state == StateAfter(old(state), Throttle(bytes))
      ensures log == old(log) + Emitted(old(state), Throttle(bytes))
      ensures old(state) == Idle ==> state == FileTx.Throttled && log == old(log) + [ThrottledAt(bytes)]
      ensures old(state) != Idle ==> state == old(state) && log == old(log)
      ensures transferred == old(transferred)
      ensures EndEvents(log) == EndEvents(old(log))
    {
      EndEventsConcat(log, [ThrottledAt(bytes)]);
      if state == Idle {
        log := log + [ThrottledAt(bytes)];
        state := FileTx.Throttled;
      }
    }

    method PreflightBegins()
      modifies this
      ensures state == StateAfter(old(state), Prepare)
      ensures log == old(log) + Emitted(old(state), Prepare)
      ensures state == Preflight && log == old(log)
      ensures transferred == old(transferred)
      ensures EndEvents(log) == EndEvents(old(log))
    {
      state := Preflight;
    }

    method PendingBegins()
      modifies this
      ensures state == StateAfter(old(state), AnnouncePending)
      ensures log == old(log) + Emitted(old(state), AnnouncePending)
      ensures state == old(state) && log == old(log) + if old(state) == Idle then [Pending] else []
      ensures transferred == old(transferred)
      ensures EndEvents(log) == EndEvents(old(log))
    {
      EndEventsConcat(log, [Pending]);
      if state == Idle {
        log := log + [Pending];
      }
    }
  }

  // ----- When a file can be reported as ended twice

  function StateAfterAll(state: FileTx, ops: seq<FileOp>): FileTx
    decreases |ops|
  {
    if ops == [] then state else StateAfterAll(StateAfter(state, ops[0]), ops[1..])
  }

  function EmittedByAll(state: FileTx, ops: seq<FileOp>): seq<FileEvent>
    decreases |ops|
  {
    if ops == [] then [] else Emitted(state, ops[0]) + EmittedByAll(StateAfter(state, ops[0]), ops[1..])
  }

  function EndEvents(log: seq<FileEvent>): nat {
    if log == [] then 0 else EndEvents(log[1..]) + if log[0].EndedAs? then 1 else 0
  }

  /** The calls that forget that a file has ended. */
  predicate Forgets(op: FileOp) {
    op.Pause? || op.SilentStop? || op.Prepare?
  }

  lemma EndEventsConcat(a: seq<FileEvent>, b: seq<FileEvent>)
    ensures EndEvents(a + b) == EndEvents(a) + EndEvents(b)
  {
    if a == [] {
      assert a + b == b;
    } else {
      assert (a + b)[1..] == a[1..] + b;
      EndEventsConcat(a[1..], b);
    }
  }

  /** Somewhere in `ops` the end is forgotten and the file is ended again later. */
  ghost predicate EndsAgain(ops: seq<FileOp>) {
    exists i, j :: 0 <= i < j < |ops| && Forgets(ops[i]) && ops[j].End?
  }

  ghost predicate EndsSome(ops: seq<FileOp>) {
    exists j :: 0 <= j < |ops| && ops[j].End?
  }

  /** From a state that has not ended, an end event is emitted exactly when some call ends the file; the
      events passed through in flight are not end events. */
  lemma {:induction false} EndsEmit(state: FileTx, ops: seq<FileOp>)
    requires state != Ended
    requires forall i :: 0 <= i < |ops| && ops[i].EmitFlying? ==> !ops[i].event.EndedAs?
    ensures EndEvents(EmittedByAll(state, ops)) > 0 <==> EndsSome(ops)
    decreases |ops|
  {
    if ops != [] {
      var op, rest := ops[0], ops[1..];
      var out := Emitted(state, op);
      EndEventsConcat(out, EmittedByAll(StateAfter(state, op), rest));
      SomeHeadTail(ops);
      if op.End? {
        assert ops[0].End?;
        assert out == [EndedAs(op.kind)];
      } else {
        NoEndEmitted(state, op);
        EndsEmit(StateAfter(state, op), rest);
      }
    }
  }

  lemma SomeHeadTail(ops: seq<FileOp>)
    requires ops != []
    ensures EndsSome(ops) <==> ops[0].End? || EndsSome(ops[1..])
  {
    if EndsSome(ops[1..]) {
      var j :| 0 <= j < |ops[1..]| && ops[1..][j].End?;
      assert ops[j + 1].End?;
    }
    if EndsSome(ops) && !ops[0].End? {
      var j :| 0 <= j < |ops| && ops[j].End?;
      assert ops[1..][j - 1].End?;
    }
  }

  lemma NoEndEmitted(state: FileTx, op: FileOp)
    requires !op.End? && (op.EmitFlying? ==> !op.event.EndedAs?)
    ensures EndEvents(Emitted(state, op)) == 0
  {
    var out := Emitted(state, op);
    if |out| == 2 {
      assert out == [out[0]] + [out[1]];
      EndEventsConcat([out[0]], [out[1]]);
    }
  }

  /** The terminal state is not absorbing: once a file has been reported as ended, it is reported as ended
      again exactly when a later call forgets the end and a still later one ends the file. */
  lemma {:induction false} SecondEndIff(ops: seq<FileOp>)
    requires forall i :: 0 <= i < |ops| && ops[i].EmitFlying? ==> !ops[i].event.EndedAs?
    ensures EndEvents(EmittedByAll(Ended, ops)) > 0 <==> EndsAgain(ops)
    decreases |ops|
  {
    if ops != [] {
      var op, rest := ops[0], ops[1..];
      var out := Emitted(Ended, op);
      EndEventsConcat(out, EmittedByAll(StateAfter(Ended, op), rest));
      AgainHeadTail(ops);
      if Forgets(op) {
        EndsEmit(StateAfter(Ended, op), rest);
      } else {
        SecondEndIff(rest);
      }
    }
  }

  lemma AgainHeadTail(ops: seq<FileOp>)
    requires ops != []
    ensures EndsAgain(ops) <==> (Forgets(ops[0]) && EndsSome(ops[1..])) || EndsAgain(ops[1..])
  {
    if EndsAgain(ops) {
      var i, j :| 0 <= i < j < |ops| && Forgets(ops[i]) && ops[j].End?;
      if i == 0 {
        assert ops[1..][j - 1].End?;
      } else {
        assert Forgets(ops[1..][i - 1]) && ops[1..][j - 1].End?;
      }
    }
    if Forgets(ops[0]) && EndsSome(ops[1..]) {
      var j :| 0 <= j < |ops[1..]| && ops[1..][j].End?;
      assert Forgets(ops[0]) && ops[j + 1].End?;
    }
    if EndsAgain(ops[1..]) {
      var i, j :| 0 <= i < j < |ops[1..]| && Forgets(ops[1..][i]) && ops[1..][j].End?;
      assert Forgets(ops[i + 1]) && ops[j + 1].End?;
    }
  }

  // ----- What the state remembers

  /** The file was ended and nothing has made it forgotten since. */
  ghost predicate EndStands(ops: seq<FileOp>) {
    exists i :: 0 <= i < |ops| && ops[i].End? && forall j :: i < j < |ops| ==> !Forgets(ops[j])
  }

  predicate Grounds(op: FileOp) {
    op.Pause? || op.SilentStop? || op.End?
  }

  /** The call takes the file in flight: preparing always does, starting does unless the file has ended. */
  ghost predicate TakesOff(ops: seq<FileOp>, i: nat)
    requires i < |ops|
  {
    ops[i].Prepare? || (ops[i].Begin? && !EndStands(ops[..i]))
  }

  /** Some call took the file in flight, and none has stopped or ended it since. */
  ghost predicate InFlight(ops: seq<FileOp>) {
    exists i :: 0 <= i < |ops| && TakesOff(ops, i) && forall j :: i < j < |ops| ==> !Grounds(ops[j])
  }

  lemma {:induction false} StateSnoc(state: FileTx, ops: seq<FileOp>)
    requires ops != []
    ensures StateAfterAll(state, ops) == StateAfter(StateAfterAll(state, ops[..|ops| - 1]), ops[|ops| - 1])
    decreases |ops|
  {
    if |ops| > 1 {
      assert ops[1..][..|ops| - 2] == ops[..|ops| - 1][1..];
      StateSnoc(StateAfter(state, ops[0]), ops[1..]);
    }
  }

  lemma EndStandsSnoc(ops: seq<FileOp>)
    requires ops != []
    ensures EndStands(ops) <==> ops[|ops| - 1].End? || (!Forgets(ops[|ops| - 1]) && EndStands(ops[..|ops| - 1]))
  {
    var n := |ops| - 1;
    if !ops[n].End? && !Forgets(ops[n]) && EndStands(ops[..n]) {
      var i :| 0 <= i < n && ops[..n][i].End? && forall j :: i < j < n ==> !Forgets(ops[..n][j]);
      assert ops[i].End?;
      forall j | i < j < |ops|
        ensures !Forgets(ops[j])
      {
        assert j < n ==> ops[..n][j] == ops[j];
      }
    }
    if EndStands(ops) && !ops[n].End? {
      var i :| 0 <= i < |ops| && ops[i].End? && forall j :: i < j < |ops| ==> !Forgets(ops[j]);
      assert ops[..n][i].End?;
    }
  }

  /** A file is in the terminal state exactly when it was ended and no call has made that forgotten since. */
  lemma {:induction false} EndedIff(ops: seq<FileOp>)
    ensures StateAfterAll(Idle, ops) == Ended <==> EndStands(ops)
    decreases |ops|
  {
    if ops != [] {
      StateSnoc(Idle, ops);
      EndStandsSnoc(ops);
      EndedIff(ops[..|ops| - 1]);
    }
  }

  lemma InFlightSnoc(ops: seq<FileOp>)
    requires ops != []
    ensures InFlight(ops) <==> TakesOff(ops, |ops| - 1) || (!Grounds(ops[|ops| - 1]) && InFlight(ops[..|ops| - 1]))
  {
    var n := |ops| - 1;
    if !Grounds(ops[n]) && InFlight(ops[..n]) {
      var i :| 0 <= i < n && TakesOff(ops[..n], i) && forall j :: i < j < n ==> !Grounds(ops[..n][j]);
      assert ops[..n][..i] == ops[..i];
      assert TakesOff(ops, i);
      forall j | i < j < |ops|
        ensures !Grounds(ops[j])
      {
        assert j < n ==> ops[..n][j] == ops[j];
      }
    }
    if InFlight(ops) && !TakesOff(ops, n) {
      var i :| 0 <= i < |ops| && TakesOff(ops, i) && forall j :: i < j < |ops| ==> !Grounds(ops[j]);
      assert ops[..n][..i] == ops[..i];
      assert TakesOff(ops[..n], i);
    }
  }

  /** Progress of a file is passed on exactly while it is in flight: after it was prepared or started, unless it had
      ended, and before it is stopped or ended. */
  lemma {:induction false} InFlightIff(ops: seq<FileOp>, event: FileEvent)
    ensures StateAfterAll(Idle, ops) in {Preflight, Flying} <==> InFlight(ops)
    ensures Emitted(StateAfterAll(Idle, ops), EmitFlying(event)) == if InFlight(ops) then [event] else []
    decreases |ops|
  {
    if ops != [] {
      var n := |ops| - 1;
      StateSnoc(Idle, ops);
      InFlightSnoc(ops);
      EndedIff(ops[..n]);
      InFlightIff(ops[..n], event);
    }
  }

  /** What is reported as an end, and how often, is the kinds of the calls that end the file: the report of a call
      has the kind of that call, and the first such call is always reported. */
  lemma EndIsReportedAs(ops: seq<FileOp>, i: nat)
    requires i < |ops| && ops[i].End?
    ensures var before := StateAfterAll(Idle, ops[..i]);
            && (Emitted(before, ops[i]) == [EndedAs(ops[i].kind)] <==> !EndStands(ops[..i]))
            && (Emitted(before, ops[i]) == [] <==> EndStands(ops[..i]))
            && ((forall j :: 0 <= j < i ==> !ops[j].End?) ==> Emitted(before, ops[i]) == [EndedAs(ops[i].kind)])
  {
    EndedIff(ops[..i]);
    if EndStands(ops[..i]) {
      var j :| 0 <= j < i && ops[..i][j].End?;
      assert ops[j].End?;
    }
  }

  // ----- Transfers

  datatype TransferTx = Ongoing | Terminated

  datatype TransferEvent = Queued | Received | Deferred | CanceledBy(peer: bool) | FailedTransfer

  predicate IsClosing(e: TransferEvent) {
    e.CanceledBy? || e.FailedTransfer?
  }

  class TransferEventTx {
    var state: TransferTx
    var log: seq<TransferEvent>

    constructor (blocked: bool)
      ensures state == (if blocked then Terminated else Ongoing) && log == []
    {
      state := if blocked then Terminated else Ongoing;
      log := [];
    }

    method EmitOngoing(event: TransferEvent)
      requires !IsClosing(event)
      modifies this
      ensures state == old(state)
      ensures log == old(log) + if old(state) == Ongoing then [event] else []
    {
      if state == Terminated {
        return;
      }
      log := log + [event];
    }

    method Stop(event: TransferEvent)
      requires IsClosing(event)
      modifies this
      ensures state == Terminated
      ensures log == old(log) + if old(state) == Ongoing then [event] else []
    {
      var before := state;
      state := Terminated;
      if before == Ongoing {
        log := log + [event];
      }
    }
  }
}
