/** The recorder that stores events: it keeps the last byte count reported for each running file and stores it
    with the event that stops the file. */
module Progress {
  import opened Base

  type Count = n: nat | n < 0x1_0000_0000_0000_0000

  datatype Event =
    | Started(transfer: TransferId, file: FileId, bytes: Count)
    | Advanced(transfer: TransferId, file: FileId, bytes: Count)
    | Succeeded(transfer: TransferId, file: FileId)
    | Failed(transfer: TransferId, file: FileId)
    | Rejected(transfer: TransferId, file: FileId)
    | Paused(transfer: TransferId, file: FileId)
    | TransferEnded(transfer: TransferId)
    | Other(transfer: TransferId)

  /** The cast of an unsigned count to the signed column type. */
  function AsI64(n: Count): int {
    if n < 0x8000_0000_0000_0000 then n else n - 0x1_0000_0000_0000_0000
  }

  predicate Stops(e: Event) {
    e.Failed? || e.Rejected? || e.Paused?
  }

  /** The event carries a count for this file. */
  predicate Reports(e: Event, t: TransferId, f: FileId) {
    (e.Started? || e.Advanced?) && e.transfer == t && e.file == f
  }

  /** The event stops this file or ends its transfer. */
  predicate Resets(e: Event, t: TransferId, f: FileId) {
    e.transfer == t && (e.TransferEnded? || (Stops(e) && e.file == f))
  }

  function Noted(seen: map<TransferId, map<FileId, int>>, t: TransferId, f: FileId): Option<int> {
    if t in seen && f in seen[t] then Some(seen[t][f]) else None
  }

  function ValueOr(o: Option<int>, default: int): int {
    if o.Some? then o.value else default
  }

  /** The last count reported for the file since it last stopped or its transfer last ended. */
  function LastCount(history: seq<Event>, t: TransferId, f: FileId): Option<int> {
    if history == [] then None
    else
      var e := history[|history| - 1];
      if Reports(e, t, f) then Some(AsI64(e.bytes))
      else if Resets(e, t, f) then None
      else LastCount(history[..|history| - 1], t, f)
  }

  /** Event `i` reports the file's count, and nothing after it reports or resets it. */
  ghost predicate StillCurrent(history: seq<Event>, t: TransferId, f: FileId, i: nat) {
    && i < |history| && Reports(history[i], t, f)
    && forall j :: i < j < |history| ==> !Reports(history[j], t, f) && !Resets(history[j], t, f)
  }

  lemma {:induction false} LastCountIs(history: seq<Event>, t: TransferId, f: FileId, i: nat)
    requires StillCurrent(history, t, f, i)
    ensures LastCount(history, t, f) == Some(AsI64(history[i].bytes))
  {
    var n := |history| - 1;
    if i < n {
      assert !Reports(history[n], t, f) && !Resets(history[n], t, f);
      LastCountIs(history[..n], t, f, i);
    }
  }

  lemma {:induction false} LastCountFrom(history: seq<Event>, t: TransferId, f: FileId) returns (i: nat)
    requires LastCount(history, t, f).Some?
    ensures StillCurrent(history, t, f, i)
  {
    var n := |history| - 1;
    if Reports(history[n], t, f) {
      i := n;
    } else {
      i := LastCountFrom(history[..n], t, f);
      assert history[..n][i] == history[i];
      forall j | i < j < |history|
        ensures !Reports(history[j], t, f) && !Resets(history[j], t, f)
      {
        if j < n {
          assert history[..n][j] == history[j];
        }
      }
    }
  }

  /** There is a count exactly when some report of it is still current, and then it is that report's. */
  lemma LastCountMeaning(history: seq<Event>, t: TransferId, f: FileId, v: int)
    ensures LastCount(history, t, f) == Some(v)
       <==> exists i: nat :: StillCurrent(history, t, f, i) && AsI64(history[i].bytes) == v
  {
    if LastCount(history, t, f).Some? {
      var i := LastCountFrom(history, t, f);
      LastCountIs(history, t, f, i);
    }
    if i: nat :| StillCurrent(history, t, f, i) && AsI64(history[i].bytes) == v {
      LastCountIs(history, t, f, i);
    }
  }

  /** What each event does to the count of a file: a start or progress of this very file sets it, its failure, rejection
      or pause and the end of its transfer clear it, and nothing else touches it. */
  lemma CountAfter(history: seq<Event>, e: Event, t: TransferId, f: FileId)
    ensures var before, after := LastCount(history, t, f), LastCount(history + [e], t, f);
            match e
            case Started(u, g, bytes) => after == if u == t && g == f then Some(AsI64(bytes)) else before
            case Advanced(u, g, bytes) => after == if u == t && g == f then Some(AsI64(bytes)) else before
            case Failed(u, g) => after == if u == t && g == f then None else before
            case Rejected(u, g) => after == if u == t && g == f then None else before
            case Paused(u, g) => after == if u == t && g == f then None else before
            case TransferEnded(u) => after == if u == t then None else before
            case Succeeded(_, _) => after == before
            case Other(_) => after == before
  {
    assert (history + [e])[..|history|] == history;
  }

  /** The cast keeps the count up to multiples of the range of the column, and exactly when it fits. */
  lemma CastKeeps(n: Count)
    ensures -0x8000_0000_0000_0000 <= AsI64(n) < 0x8000_0000_0000_0000
    ensures AsI64(n) % 0x1_0000_0000_0000_0000 == n
    ensures AsI64(n) == n <==> n < 0x8000_0000_0000_0000
  {
  }

  class StorageDispatch {
    var fileProgress: map<TransferId, map<FileId, int>>
    ghost var history: seq<Event>

    /** The map holds the last counts of the events handled so far. */
    ghost predicate Valid()
      reads this
    {
      forall t, f :: Noted(fileProgress, t, f) == LastCount(history, t, f)
    }

    constructor ()
      ensures Valid() && history == []
    {
      fileProgress, history := map[], [];
    }

    method GetFileProgress(t: TransferId, f: FileId) returns (n: int)
      modifies this`fileProgress
      ensures n == ValueOr(Noted(old(fileProgress), t, f), 0)
      ensures forall u, g :: Noted(fileProgress, u, g) == if u == t && g == f then None else Noted(old(fileProgress), u, g)
    {
      var files := if t in fileProgress then fileProgress[t] else map[];
      n := if f in files then files[f] else 0;
      fileProgress := fileProgress[t := files - {f}];
    }

    method StoreProgress(t: TransferId, f: FileId, n: int)
      modifies this`fileProgress
      ensures forall u, g :: Noted(fileProgress, u, g) == if u == t && g == f then Some(n) else Noted(old(fileProgress), u, g)
    {
      var files := if t in fileProgress then fileProgress[t] else map[];
      fileProgress := fileProgress[t := files[f := n]];
    }

    method ClearTransfer(t: TransferId)
      modifies this`fileProgress
      ensures forall u, g :: Noted(fileProgress, u, g) == if u == t then None else Noted(old(fileProgress), u, g)
    {
      fileProgress := fileProgress - {t};
    }

    /** `handle_event`: answers the byte count stored with an event that stops a file. */
    method HandleEvent(e: Event) returns (stored: Option<int>)
      requires Valid()
      modifies this
      ensures Valid() && history == old(history) + [e]
      ensures stored == if Stops(e) then Some(ValueOr(LastCount(old(history), e.transfer, e.file), 0)) else None
      ensures stored.Some? <==> e.Failed? || e.Rejected? || e.Paused?
    {
      stored := None;
      match e {
        case Started(t, f, bytes) => StoreProgress(t, f, AsI64(bytes));
        case Advanced(t, f, bytes) => StoreProgress(t, f, AsI64(bytes));
        case TransferEnded(t) => ClearTransfer(t);
        case Succeeded(_, _) =>
        case Other(_) =>
        case _ =>
          var n := GetFileProgress(e.transfer, e.file);
          stored := Some(n);
      }
      history := history + [e];
      assert history[..|history| - 1] == old(history);
    }
  }
}
