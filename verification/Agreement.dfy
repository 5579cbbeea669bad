/** Memory agrees with the tables after every operation, and restoring from the tables rebuilds memory. */
module Agreement {
  import opened Base
  import opened Storage
  import O = Outgoing
  import I = Incoming

  // ----- What agreement means

  /** The in-flight rows of one file. */
  function RowsOf(rows: seq<InFlightRow>, f: FileId): seq<InFlightRow> {
    if rows == [] then []
    else
      var last := rows[|rows| - 1];
      RowsOf(rows[..|rows| - 1], f) + (if last.file == f then [last] else [])
  }

  ghost predicate InFileAgrees(file: I.InFile, f: FileId, sync: Sync, seen: Recorded) {
    && f in sync.files
    && (AnyRecorded(seen, f) ==> sync.files[f] == Terminal)
    && match file
       case Idle => sync.files[f] == Alive && RowsOf(sync.inFlight, f) == []
       case InFlight(dir) => sync.files[f] == Alive && RowsOf(sync.inFlight, f) == [InFlightRow(f, dir)]
       case InTerminal(_) => sync.files[f] == Terminal && RowsOf(sync.inFlight, f) == []
  }

  /** The tables hold a sync record for exactly the entry's files, in the entry's transfer state. */
  ghost predicate InShape(mem: I.InMem, row: Option<Row>) {
    && row.Some? && !row.value.isOutgoing && row.value.sync.Some?
    && row.value.peer == mem.peer && row.value.paths == mem.sizes
    && row.value.sync.value.localState == mem.state
    && mem.files.Keys == mem.sizes.Keys && row.value.sync.value.files.Keys == mem.sizes.Keys
  }

  /** Entry and tables of a receiving transfer agree. File by file this is asked of a transfer that is not
      cancelled: cancelling idles running downloads in memory only. */
  ghost predicate InAgree(s: I.InSlot) {
    match s.mem
    case None => s.row.Some? ==> s.row.value.isOutgoing || s.row.value.sync.None?
    case Some(mem) =>
      && InShape(mem, s.row)
      && mem.state != New
      && (mem.state != Canceled ==>
            forall f :: f in mem.files ==> InFileAgrees(mem.files[f], f, s.row.value.sync.value, s.row.value.recorded))
  }

  ghost predicate OutFileAgrees(file: O.OutFile, f: FileId, sync: Sync, seen: Recorded) {
    && f in sync.files
    && (AnyRecorded(seen, f) ==> sync.files[f] == Terminal)
    && (file.OutTerminal? <==> sync.files[f] == Terminal)
  }

  ghost predicate OutShape(mem: O.OutMem, row: Option<Row>) {
    && row.Some? && row.value.isOutgoing && row.value.sync.Some?
    && row.value.peer == mem.peer && row.value.paths == mem.sizes
    && row.value.sync.value.localState == mem.state
    && mem.files.Keys == mem.sizes.Keys && row.value.sync.value.files.Keys == mem.sizes.Keys
  }

  /** Entry and tables of a sending transfer agree, cancelled or not. */
  ghost predicate OutAgree(s: O.OutSlot) {
    match s.mem
    case None => s.row.Some? ==> !s.row.value.isOutgoing || s.row.value.sync.None?
    case Some(mem) =>
      && OutShape(mem, s.row)
      && forall f :: f in mem.files ==> OutFileAgrees(mem.files[f], f, s.row.value.sync.value, s.row.value.recorded)
  }

  // ----- In-flight rows

  lemma {:induction false} RowsOfWithout(rows: seq<InFlightRow>, f: FileId, g: FileId)
    ensures RowsOf(Without(rows, f), g) == if f == g then [] else RowsOf(rows, g)
  {
    if rows == [] {
    } else {
      var n := |rows| - 1;
      RowsOfWithout(rows[..n], f, g);
      var head := Without(rows[..n], f);
      if rows[n].file != f {
        assert (head + [rows[n]])[..|head|] == head;
      } else {
        assert head + [] == head;
      }
    }
  }

  lemma RowsOfStarted(rows: seq<InFlightRow>, f: FileId, dir: Dir, g: FileId)
    ensures RowsOf(rows + [InFlightRow(f, dir)], g) == RowsOf(rows, g) + if f == g then [InFlightRow(f, dir)] else []
  {
    assert (rows + [InFlightRow(f, dir)])[..|rows|] == rows;
  }

  lemma {:induction false} RowsOfAlive(files: map<FileId, FileSync>, rows: seq<InFlightRow>, f: FileId)
    requires f in files
    ensures RowsOf(AliveIn(files, rows), f) == if files[f] == Alive then RowsOf(rows, f) else []
  {
    if rows == [] {
    } else {
      var n := |rows| - 1;
      RowsOfAlive(files, rows[..n], f);
      var head := AliveIn(files, rows[..n]);
      if rows[n].file in files && files[rows[n].file] == Alive {
        assert (head + [rows[n]])[..|head|] == head;
      } else {
        assert head + [] == head;
      }
    }
  }

  /** Only a file's own rows count when the in-flight rows are put on top of the restored files. */
  lemma {:induction false} OverlayAt(files: map<FileId, I.InFile>, rows: seq<InFlightRow>, f: FileId)
    requires f in files
    ensures I.Overlay(files, rows).Keys == files.Keys
    ensures I.Overlay(files, rows)[f]
         == if files[f].InTerminal? || RowsOf(rows, f) == [] then files[f]
            else I.InFlight(RowsOf(rows, f)[|RowsOf(rows, f)| - 1].baseDir)
  {
    if rows == [] {
    } else {
      OverlayAt(files, rows[..|rows| - 1], f);
    }
  }

  // ----- The receiving operations keep agreement

  lemma RegisterAgrees(s: I.InSlot, peer: Peer, sizes: map<FileId, nat>, conn: ConnId, closed: bool)
    requires InAgree(s)
    ensures InAgree(I.Register(s, peer, sizes, conn, closed).slot)
  {
  }

  lemma StartDownloadAgrees(s: I.InSlot, f: FileId, dir: Dir)
    requires InAgree(s)
    ensures InAgree(I.StartDownload(s, f, dir).slot)
  {
    var after := I.StartDownload(s, f, dir);
    if after.result == Ok(true) {
      var mem, mem' := s.mem.value, after.slot.mem.value;
      var row, row' := s.row.value, after.slot.row.value;
      forall g | g in mem'.files
        ensures InFileAgrees(mem'.files[g], g, row'.sync.value, row'.recorded)
      {
        assert InFileAgrees(mem.files[g], g, row.sync.value, row.recorded);
        RowsOfStarted(row.sync.value.inFlight, f, dir, g);
      }
    }
  }

  lemma TerminateAgrees(s: I.InSlot, f: FileId, kind: FileTerminal)
    requires InAgree(s) && s.mem.Some?
    ensures InAgree(I.Terminate(s, f, kind).slot)
  {
    var after := I.Terminate(s, f, kind);
    if after.result.Ok? && s.mem.value.state != Canceled {
      var mem, mem' := s.mem.value, after.slot.mem.value;
      var row, row' := s.row.value, after.slot.row.value;
      forall g | g in mem'.files
        ensures InFileAgrees(mem'.files[g], g, row'.sync.value, row'.recorded)
      {
        assert InFileAgrees(mem.files[g], g, row.sync.value, row.recorded);
        RowsOfWithout(row.sync.value.inFlight, f, g);
      }
    }
  }

  lemma CloseAndRemoveAgree(s: I.InSlot)
    requires InAgree(s)
    ensures InAgree(I.IssueClose(s).slot)
    ensures InAgree(I.Remove(s).slot)
    ensures InAgree(I.Disconnect(s).slot)
  {
  }

  /** Recording an end event keeps agreement when the file has ended in the tables. */
  lemma RecordAgrees(s: I.InSlot, f: FileId, kind: FileTerminal)
    requires InAgree(s)
    requires I.Usable(s) && f in s.mem.value.files ==> s.mem.value.files[f].InTerminal?
    ensures InAgree(s.(row := WithRecorded(s.row, f, kind)))
  {
    if I.Usable(s) {
      var mem, row := s.mem.value, s.row.value;
      var row' := WithRecorded(s.row, f, kind).value;
      forall g | g in mem.files
        ensures InFileAgrees(mem.files[g], g, row'.sync.value, row'.recorded)
      {
        assert InFileAgrees(mem.files[g], g, row.sync.value, row.recorded);
      }
    }
  }

  // ----- Restoring the receiving side

  /** The kind a restored terminal file gets: what was recorded, rejected before completed before failed,
      and failed when the event never reached the tables. */
  function KindOf(seen: Recorded, f: FileId): FileTerminal {
    if f in seen.rejected then Rejected else if f in seen.completed then Completed else Failed
  }

  ghost predicate RestoredAs(before: I.InFile, after: I.InFile, f: FileId, seen: Recorded) {
    match before
    case InTerminal(_) => after == I.InTerminal(KindOf(seen, f))
    case _ => after == before
  }

  /** Forgetting memory and restoring from the tables gives back the same entry: same peer, files and
      transfer state, every download where it was, every ended file ended, with its recorded kind. */
  lemma RestoreIncoming(s: I.InSlot)
    requires InAgree(s) && I.Usable(s)
    ensures I.Restore(s.row).Some?
    ensures var mem, again := s.mem.value, I.Restore(s.row).value;
            && again.peer == mem.peer && again.sizes == mem.sizes && again.state == mem.state
            && again.conn.None? && again.files.Keys == mem.files.Keys
            && forall f :: f in mem.files ==> RestoredAs(mem.files[f], again.files[f], f, s.row.value.recorded)
    ensures InAgree(s.(mem := I.Restore(s.row)))
  {
    var mem, row := s.mem.value, s.row.value;
    var again := I.Restore(s.row).value;
    var files := map f | f in row.paths :: I.RestoredFile(StateOfFile(s.row, f).value);
    if mem.files == map[] {
      OverlayKeys(files, AliveInFlight(row.sync.value));
    }
    forall f | f in mem.files
      ensures again.files.Keys == mem.files.Keys
      ensures RestoredAs(mem.files[f], again.files[f], f, row.recorded)
      ensures InFileAgrees(again.files[f], f, row.sync.value, row.recorded)
    {
      assert InFileAgrees(mem.files[f], f, row.sync.value, row.recorded);
      OverlayAt(files, AliveInFlight(row.sync.value), f);
      RowsOfAlive(row.sync.value.files, row.sync.value.inFlight, f);
    }
  }

  lemma {:induction false} OverlayKeys(files: map<FileId, I.InFile>, rows: seq<InFlightRow>)
    ensures I.Overlay(files, rows).Keys == files.Keys
  {
    if rows != [] {
      OverlayKeys(files, rows[..|rows| - 1]);
    }
  }

  /** A cancelled transfer is restored as cancelled, and one without a sync record is not restored. */
  lemma RestoreKeepsAgreement(s: I.InSlot)
    requires InAgree(s)
    ensures InAgree(s.(mem := I.Restore(s.row)))
    ensures s.mem.None? <==> I.Restore(s.row).None?
    ensures s.mem.Some? ==> I.Restore(s.row).value.state == s.mem.value.state
  {
    if I.Usable(s) {
      RestoreIncoming(s);
    } else if s.mem.Some? {
      var row := s.row.value;
      var files := map f | f in row.paths :: I.RestoredFile(StateOfFile(s.row, f).value);
      OverlayKeys(files, AliveInFlight(row.sync.value));
    }
  }

  // ----- The sending operations keep agreement

  lemma OutTerminateAgrees(s: O.OutSlot, f: FileId, kind: FileTerminal)
    requires OutAgree(s) && s.mem.Some?
    ensures OutAgree(O.Terminate(s, f, kind).slot)
  {
  }

  lemma OutOthersAgree(s: O.OutSlot, conn: ConnId)
    requires OutAgree(s)
    ensures OutAgree(O.Connected(s, conn).slot)
    ensures OutAgree(O.IssueClose(s).slot)
    ensures OutAgree(O.Remove(s).slot)
    ensures OutAgree(O.Disconnect(s).slot)
  {
  }

  lemma OutRecordAgrees(s: O.OutSlot, f: FileId, kind: FileTerminal)
    requires OutAgree(s)
    requires s.mem.Some? && f in s.mem.value.files ==> s.mem.value.files[f].OutTerminal?
    ensures OutAgree(s.(row := WithRecorded(s.row, f, kind)))
  {
    if s.mem.Some? {
      var mem, row := s.mem.value, s.row.value;
      var row' := WithRecorded(s.row, f, kind).value;
      forall g | g in mem.files
        ensures OutFileAgrees(mem.files[g], g, row'.sync.value, row'.recorded)
      {
        assert OutFileAgrees(mem.files[g], g, row.sync.value, row.recorded);
      }
    }
  }

  /** Restoring the sending side: same transfer state, and exactly the ended files are ended. */
  lemma RestoreOutgoing(s: O.OutSlot)
    requires OutAgree(s)
    ensures OutAgree(s.(mem := O.Restore(s.row)))
    ensures s.mem.None? <==> O.Restore(s.row).None?
    ensures s.mem.Some? ==>
      var mem, again := s.mem.value, O.Restore(s.row).value;
      && again.peer == mem.peer && again.sizes == mem.sizes && again.state == mem.state
      && again.conn.None? && again.files.Keys == mem.files.Keys
      && forall f :: f in mem.files ==>
           again.files[f] == if mem.files[f].OutTerminal? then O.OutTerminal(KindOf(s.row.value.recorded, f)) else O.OutAlive
  {
    if s.mem.Some? {
      var mem, row := s.mem.value, s.row.value;
      forall f | f in mem.files
        ensures OutFileAgrees(mem.files[f], f, row.sync.value, row.recorded)
      {
      }
    }
  }
}
