/** What an application is told about one transfer, in order, and how often it hears of an end. */
module Reports {
  import opened Base
  import E = Events

  datatype Report = FileEnded(file: FileId, kind: FileTerminal) | FileNews(file: FileId) | Transfer(event: E.TransferEvent)

  /** How often the file was reported as ended. */
  function Ends(log: seq<Report>, f: FileId): nat {
    if log == [] then 0
    else
      var last := log[|log| - 1];
      Ends(log[..|log| - 1], f) + if last.FileEnded? && last.file == f then 1 else 0
  }

  /** How often the transfer was reported as closed. */
  function Closings(log: seq<Report>): nat {
    if log == [] then 0
    else
      var last := log[|log| - 1];
      Closings(log[..|log| - 1]) + if last.Transfer? && E.IsClosing(last.event) then 1 else 0
  }

  /** No event about the transfer follows a closing one. */
  predicate ClosingIsLast(log: seq<Report>) {
    log == [] ||
    (ClosingIsLast(log[..|log| - 1]) && (log[|log| - 1].Transfer? ==> Closings(log[..|log| - 1]) == 0))
  }

  lemma Appended(log: seq<Report>, r: Report, f: FileId)
    ensures Ends(log + [r], f) == Ends(log, f) + if r.FileEnded? && r.file == f then 1 else 0
    ensures Closings(log + [r]) == Closings(log) + if r.Transfer? && E.IsClosing(r.event) then 1 else 0
    ensures ClosingIsLast(log + [r]) <==> ClosingIsLast(log) && (r.Transfer? ==> Closings(log) == 0)
  {
    assert (log + [r])[..|log|] == log;
  }

  lemma {:induction false} ReportedCounts(log: seq<Report>, f: FileId, kind: FileTerminal)
    ensures FileEnded(f, kind) in log ==> Ends(log, f) >= 1
  {
    if log != [] {
      ReportedCounts(log[..|log| - 1], f, kind);
    }
  }

  lemma {:induction false} ClosingSplits(log: seq<Report>, i: nat)
    requires ClosingIsLast(log) && i < |log| && log[i].Transfer? && E.IsClosing(log[i].event)
    ensures forall j :: i < j < |log| ==> !log[j].Transfer?
    ensures Closings(log) >= 1
  {
    var n := |log| - 1;
    if i < n {
      ClosingSplits(log[..n], i);
      forall j | i < j < |log|
        ensures !log[j].Transfer?
      {
        if j < n {
          assert log[..n][j] == log[j];
        }
      }
    }
  }
}
