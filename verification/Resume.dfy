/** The resumable byte stream of one file: the sender reads chunks from an offset, the receiver checks its
    partial file by checksum, picks the offset, appends, validates the whole and only then places it. A file is
    a sequence of bytes and the hash an arbitrary function, collision-free only where a lemma says so. */
module Resume {
  import opened Base

  type Bytes = seq<bv8>

  /** Bytes between two progress reports. */
  const REPORT_PROGRESS_THRESHOLD: nat := 65536

  /** Bytes read from the source at a time. */
  const CHUNK_SIZE: nat := 1048576

  /** `ReportChsum`: the digest of the first `limit` bytes of the sender's file. */
  datatype Report<D> = Report(limit: nat, checksum: D)

  /** What the peer and the connection do during one attempt. `answer` is the reply about the partial file,
      `full` the digest of the whole file; each is `None` when it never comes. The chunks end when the
      connection goes away, after which at most `sends` messages got through. */
  datatype Link<D> = Link(answer: Option<Report<D>>, full: Option<D>, startSent: bool, chunks: seq<Bytes>, sends: nat)

  datatype Outcome = Placed | Stopped | MismatchedSize | UnexpectedData | ChecksumMismatch

  function Flat(chunks: seq<Bytes>): Bytes {
    if chunks == [] then [] else chunks[0] + Flat(chunks[1..])
  }

  // ----- Picking the offset

  /** Where the next attempt starts; `None` when the connection is lost before that is known. */
  function ResumeOffset<D(==)>(hash: Bytes -> D, size: nat, tmp: Option<Bytes>, link: Link<D>): Option<nat> {
    match tmp
    case None => Some(0)
    case Some(part) =>
      if |part| < size then
        if link.answer.None? then None
        else Some(if link.answer.value == Report(|part|, hash(part)) then |part| else 0)
      else if |part| == size then
        if link.full.None? then None else Some(if link.full.value == hash(part) then |part| else 0)
      else Some(0)
  }

  /** The partial file once it is open for writing. */
  function Opened(tmp: Option<Bytes>, offset: nat): Bytes {
    if offset == 0 || tmp.None? then [] else tmp.value
  }

  // ----- Receiving

  /** Where the receive loop ends: the bytes written, the progress reported, the chunks used. */
  datatype Received = Received(written: Bytes, progress: seq<nat>, used: nat, cut: bool, tooLong: bool)

  /** The receive loop from the point where `used` chunks are in `written` and `progress` has been reported. */
  function Receive(size: nat, written: Bytes, chunks: seq<Bytes>, used: nat, sends: nat, progress: seq<nat>): Received
    requires used <= |chunks| && progress != []
    decreases |chunks| - used
  {
    if |written| >= size then Received(written, progress, used, false, false)
    else if used == |chunks| then Received(written, progress, used, true, false)
    else if |written| + |chunks[used]| > size then Received(written, progress, used + 1, false, true)
    else
      var more := written + chunks[used];
      if progress[|progress| - 1] + REPORT_PROGRESS_THRESHOLD > |more| then
        Receive(size, more, chunks, used + 1, sends, progress)
      else if sends == 0 then Received(more, progress, used + 1, true, false)
      else Receive(size, more, chunks, used + 1, sends - 1, progress + [|more|])
  }

  /** One attempt: the partial file left behind, the outcome, what was placed, and the progress reported. */
  datatype Attempt = Attempt(tmp: Option<Bytes>, outcome: Outcome, placed: Option<Bytes>, progress: seq<nat>)

  function Streamed<D(==)>(hash: Bytes -> D, size: nat, part: Bytes, link: Link<D>): Attempt {
    if link.sends == 0 then Attempt(Some(part), Stopped, None, [])
    else
      var r := Receive(size, part, link.chunks, 0, link.sends - 1, [|part|]);
      if r.cut then Attempt(Some(r.written), Stopped, None, r.progress)
      else if r.tooLong then Attempt(None, MismatchedSize, None, r.progress)
      else if link.full.None? then Attempt(Some(r.written), Stopped, None, r.progress)
      else if link.full.value != hash(r.written) then Attempt(None, ChecksumMismatch, None, r.progress)
      else Attempt(None, Placed, Some(r.written), r.progress)
  }

  function Attempted<D(==)>(hash: Bytes -> D, size: nat, tmp: Option<Bytes>, link: Link<D>): Attempt {
    var offset := ResumeOffset(hash, size, tmp, link);
    if offset.None? || !link.startSent then Attempt(tmp, Stopped, None, [])
    else Streamed(hash, size, Opened(tmp, offset.value), link)
  }

  class TmpFile {
    var content: Option<Bytes>

    constructor (content: Option<Bytes>)
      ensures this.content == content
    {
      this.content := content;
    }

    method Append(chunk: Bytes)
      requires content.Some?
      modifies this
      ensures content == Some(old(content).value + chunk)
    {
      content := Some(content.value + chunk);
    }
  }

  /** The job that downloads one file. */
  class Download<D(==)> {
    const hash: Bytes -> D
    const size: nat
    var offset: nat

    constructor (hash: Bytes -> D, size: nat)
      ensures this.hash == hash && this.size == size && offset == 0
    {
      this.hash, this.size, this.offset := hash, size, 0;
    }

    /** `Downloader::init`. */
    method Init(tmp: TmpFile, link: Link<D>) returns (ok: bool)
      requires offset == 0
      modifies this
      ensures ok <==> ResumeOffset(hash, size, tmp.content, link).Some?
      ensures ok ==> Some(offset) == ResumeOffset(hash, size, tmp.content, link)
    {
      ok := true;
      if tmp.content.Some? {
        var part := tmp.content.value;
        var csum := hash(part);
        if |part| < size {
          if link.answer.None? {
            return false;
          }
          var report := link.answer.value;
          offset := if report.limit == |part| && report.checksum == csum then |part| else 0;
        } else if |part| == size {
          if link.full.None? {
            return false;
          }
          offset := if link.full.value == csum then |part| else 0;
        } else {
          offset := 0;
        }
      }
    }

    /** `Downloader::open`: truncates unless the partial file is kept. */
    method Open(tmp: TmpFile)
      requires offset > 0 ==> tmp.content.Some?
      modifies tmp
      ensures tmp.content == Some(Opened(old(tmp.content), offset))
    {
      if offset == 0 {
        tmp.content := Some([]);
      }
    }

    /** The receive loop: the count of bytes received is the length of what was written, it never passes the
        declared size, and the check for unexpected data after the loop never fires. */
    method ConsumeChunks(tmp: TmpFile, chunks: seq<Bytes>, sends: nat)
      returns (outcome: Option<Outcome>, progress: seq<nat>, used: nat)
      requires tmp.content.Some? && |tmp.content.value| == offset <= size
      modifies tmp
      ensures tmp.content.Some? && |tmp.content.value| <= size
      ensures outcome.None? ==> |tmp.content.value| == size
      ensures outcome in {None, Some(Stopped), Some(MismatchedSize)}
      ensures sends == 0 ==> outcome == Some(Stopped) && progress == [] && tmp.content == old(tmp.content)
      ensures sends > 0 ==>
        var r := Receive(size, old(tmp.content).value, chunks, 0, sends - 1, [offset]);
        && tmp.content == Some(r.written) && progress == r.progress && used == r.used
        && outcome == if r.cut then Some(Stopped) else if r.tooLong then Some(MismatchedSize) else None
      ensures outcome != Some(Stopped) ==>
        progress != [] && |tmp.content.value| < progress[|progress| - 1] + REPORT_PROGRESS_THRESHOLD
    {
      progress, used := [], 0;
      if sends == 0 {
        return Some(Stopped), progress, used;
      }
      var bytesReceived, lastProgress, left := offset, offset, sends - 1;
      progress := [bytesReceived];
      ghost var whole := Receive(size, tmp.content.value, chunks, 0, left, progress);
      while bytesReceived < size
        invariant tmp.content.Some? && |tmp.content.value| == bytesReceived <= size
        invariant used <= |chunks| && progress != [] && lastProgress == progress[|progress| - 1] && 0 <= left
        invariant bytesReceived < lastProgress + REPORT_PROGRESS_THRESHOLD
        invariant whole == Receive(size, tmp.content.value, chunks, used, left, progress)
        decreases size - bytesReceived, |chunks| - used
      {
        if used == |chunks| {
          return Some(Stopped), progress, used;
        }
        var chunk := chunks[used];
        used := used + 1;
        if |chunk| + bytesReceived > size {
          return Some(MismatchedSize), progress, used;
        }
        tmp.Append(chunk);
        bytesReceived := bytesReceived + |chunk|;
        if lastProgress + REPORT_PROGRESS_THRESHOLD <= bytesReceived {
          if left == 0 {
            return Some(Stopped), progress, used;
          }
          left := left - 1;
          progress := progress + [bytesReceived];
          lastProgress := bytesReceived;
        }
      }
      outcome := None;
      if bytesReceived > size {
        outcome := Some(UnexpectedData);
      }
    }

    /** One whole attempt: look at the partial file, pick the offset, stream, validate, place. */
    method Run(tmp: TmpFile, link: Link<D>) returns (outcome: Outcome, placed: Option<Bytes>, progress: seq<nat>)
      requires offset == 0
      modifies this, tmp
      ensures Attempt(tmp.content, outcome, placed, progress) == Attempted(hash, size, old(tmp.content), link)
      ensures outcome != UnexpectedData
    {
      placed, progress := None, [];
      var ok := Init(tmp, link);
      if !ok || !link.startSent {
        return Stopped, placed, progress;
      }
      Open(tmp);
      var early, reported, _ := ConsumeChunks(tmp, link.chunks, link.sends);
      progress := reported;
      if early == Some(Stopped) {
        return Stopped, placed, progress;
      }
      if early == Some(MismatchedSize) {
        tmp.content := None;
        return MismatchedSize, placed, progress;
      }
      if link.full.None? {
        return Stopped, placed, progress;
      }
      if link.full.value != hash(tmp.content.value) {
        tmp.content := None;
        return ChecksumMismatch, placed, progress;
      }
      placed := tmp.content;
      tmp.content := None;
      outcome := Placed;
    }
  }

  // ----- Bounds of the receive loop

  predicate NoEmpty(chunks: seq<Bytes>) {
    forall i :: 0 <= i < |chunks| ==> chunks[i] != []
  }

  /** What was written is the start followed by the chunks used, within the declared size, and the loop only
      leaves by itself with the whole size written. */
  lemma {:induction false} ReceiveWrites(size: nat, written: Bytes, chunks: seq<Bytes>, used: nat, sends: nat, progress: seq<nat>)
    requires |written| <= size && used <= |chunks| && progress != []
    ensures var r := Receive(size, written, chunks, used, sends, progress);
            && written <= r.written <= written + Flat(chunks[used..]) && |r.written| <= size
            && (!r.cut && !r.tooLong ==> |r.written| == size)
            && !(r.cut && r.tooLong)
    decreases |chunks| - used
  {
    if |written| < size && used < |chunks| && |written| + |chunks[used]| <= size {
      var more := written + chunks[used];
      ReceiveWrites(size, more, chunks, used + 1, sends, progress);
      if sends > 0 {
        ReceiveWrites(size, more, chunks, used + 1, sends - 1, progress + [|more|]);
      }
      FlatFrom(chunks, used);
      assert written + Flat(chunks[used..]) == more + Flat(chunks[used + 1..]);
    }
  }

  lemma FlatFrom(chunks: seq<Bytes>, k: nat)
    requires k < |chunks|
    ensures Flat(chunks[k..]) == chunks[k] + Flat(chunks[k + 1..])
  {
    assert chunks[k..][1..] == chunks[k + 1..];
  }

  /** A chunk is never empty, so a loop that misses `size - |written|` bytes uses at most as many chunks. */
  lemma {:induction false} ReceiveUses(size: nat, written: Bytes, chunks: seq<Bytes>, used: nat, sends: nat, progress: seq<nat>)
    requires |written| <= size && used <= |chunks| && progress != [] && NoEmpty(chunks)
    ensures Receive(size, written, chunks, used, sends, progress).used - used <= size - |written|
    decreases |chunks| - used
  {
    if |written| < size && used < |chunks| && |written| + |chunks[used]| <= size {
      var more := written + chunks[used];
      ReceiveUses(size, more, chunks, used + 1, sends, progress);
      if sends > 0 {
        ReceiveUses(size, more, chunks, used + 1, sends - 1, progress + [|more|]);
      }
    }
  }

  /** Progress rises by at least the threshold from report to report. */
  predicate Rising(progress: seq<nat>) {
    forall i :: 0 < i < |progress| ==> progress[i - 1] + REPORT_PROGRESS_THRESHOLD <= progress[i]
  }

  lemma {:induction false} ReceiveReports(size: nat, written: Bytes, chunks: seq<Bytes>, used: nat, sends: nat, progress: seq<nat>)
    requires used <= |chunks| && progress != [] && Rising(progress) && progress[|progress| - 1] <= |written| <= size
    ensures var r := Receive(size, written, chunks, used, sends, progress);
            progress <= r.progress && Rising(r.progress) && r.progress[|r.progress| - 1] <= |r.written|
    decreases |chunks| - used
  {
    if |written| < size && used < |chunks| && |written| + |chunks[used]| <= size {
      var more := written + chunks[used];
      ReceiveReports(size, more, chunks, used + 1, sends, progress);
      if sends > 0 && progress[|progress| - 1] + REPORT_PROGRESS_THRESHOLD <= |more| {
        ReceiveReports(size, more, chunks, used + 1, sends - 1, progress + [|more|]);
      }
    }
  }

  lemma {:induction false} RisingBound(progress: seq<nat>)
    requires progress != [] && Rising(progress)
    ensures progress[0] + (|progress| - 1) * REPORT_PROGRESS_THRESHOLD <= progress[|progress| - 1]
  {
    if |progress| > 1 {
      RisingBound(progress[..|progress| - 1]);
    }
  }

  /** The bounds of an attempt, whatever the peer sends: the partial file never exceeds the declared size,
      unexpected data is never seen, and progress starts at the offset, rises by the threshold at least, and
      is reported at most `1 + (size - offset) / threshold` times. */
  lemma StreamBounds<D>(hash: Bytes -> D, size: nat, part: Bytes, link: Link<D>)
    requires |part| <= size
    ensures var a := Streamed(hash, size, part, link);
            && a.outcome != UnexpectedData
            && (a.tmp.Some? ==> part <= a.tmp.value && |a.tmp.value| <= size)
            && (a.placed.Some? ==> |a.placed.value| == size)
            && (a.progress != [] ==> a.progress[0] == |part| && Rising(a.progress))
            && |a.progress| <= 1 + (size - |part|) / REPORT_PROGRESS_THRESHOLD
  {
    if link.sends > 0 {
      var r := Receive(size, part, link.chunks, 0, link.sends - 1, [|part|]);
      ReceiveWrites(size, part, link.chunks, 0, link.sends - 1, [|part|]);
      ReceiveReports(size, part, link.chunks, 0, link.sends - 1, [|part|]);
      RisingBound(r.progress);
      CountBound(|r.progress| - 1, size - |part|);
    }
  }

  lemma CountBound(count: nat, room: nat)
    requires count * REPORT_PROGRESS_THRESHOLD <= room
    ensures count <= room / REPORT_PROGRESS_THRESHOLD
  {
  }

  // ----- The sender

  /** What one read finds: the file's bytes now, whether its modification time is the one seen when it was
      opened, and how many bytes the system is willing to return. */
  datatype Look = Look(content: Bytes, unmodified: bool, willing: nat)

  /** A read returns nothing only at the end of the file. */
  function ReadCount(look: Look, pos: nat): (n: nat)
    ensures n == 0 <==> pos >= |look.content|
    ensures n <= CHUNK_SIZE && (n > 0 ==> pos + n <= |look.content|)
  {
    if pos >= |look.content| then 0
    else
      var most := if |look.content| - pos < CHUNK_SIZE then |look.content| - pos else CHUNK_SIZE;
      if look.willing == 0 then 1 else if look.willing < most then look.willing else most
  }

  datatype ReadResult = Chunk(data: Bytes) | EndOfFile | FileModified | SizeChanged

  function ReadResultOf(look: Look, pos: nat, metaLen: nat): ReadResult {
    var n := ReadCount(look, pos);
    if !look.unmodified then FileModified
    else if n == 0 then if pos != metaLen then SizeChanged else EndOfFile
    else if pos + n > metaLen then SizeChanged
    else Chunk(look.content[pos..pos + n])
  }

  datatype Sending = Sending(chunks: seq<Bytes>, end: Option<ReadResult>)

  /** What the upload loop sends; `end` is `None` while it has not stopped by itself. */
  function Sends(metaLen: nat, pos: nat, looks: seq<Look>): Sending
    decreases |looks|
  {
    if looks == [] then Sending([], None)
    else
      match ReadResultOf(looks[0], pos, metaLen)
      case Chunk(data) =>
        var rest := Sends(metaLen, pos + |data|, looks[1..]);
        rest.(chunks := [data] + rest.chunks)
      case stop => Sending([], Some(stop))
  }

  class FileReader {
    var pos: nat
    const metaLen: nat

    constructor (metaLen: nat, offset: nat)
      ensures this.metaLen == metaLen && pos == offset
    {
      this.metaLen, this.pos := metaLen, offset;
    }

    /** `read_chunk`: the position moves by what was read, also when the read is refused afterwards. */
    method ReadChunk(look: Look) returns (r: ReadResult)
      modifies this
      ensures pos == old(pos) + ReadCount(look, old(pos))
      ensures r == ReadResultOf(look, old(pos), metaLen)
      ensures r.Chunk? ==> 0 < |r.data| <= CHUNK_SIZE && pos <= metaLen
      ensures r == FileModified <==> !look.unmodified
      ensures r.Chunk? ==> pos <= |look.content| && r.data == look.content[old(pos)..pos]
      ensures r == EndOfFile <==> look.unmodified && old(pos) == pos == metaLen
    {
      var n := ReadCount(look, pos);
      var data := if n == 0 then [] else look.content[pos..pos + n];
      pos := pos + n;
      if !look.unmodified {
        return FileModified;
      }
      if n == 0 {
        return if pos != metaLen then SizeChanged else EndOfFile;
      }
      if pos > metaLen {
        return SizeChanged;
      }
      return Chunk(data);
    }

    /** The loop of an upload job. */
    method SendFile(looks: seq<Look>) returns (chunks: seq<Bytes>, end: Option<ReadResult>)
      modifies this
      ensures Sending(chunks, end) == Sends(metaLen, old(pos), looks)
    {
      chunks, end := [], None;
      ghost var whole := Sends(metaLen, pos, looks);
      assert looks[0..] == looks && [] + whole.chunks == whole.chunks;
      for i := 0 to |looks|
        invariant end.None?
        invariant whole == Behind(chunks, Sends(metaLen, pos, looks[i..]))
      {
        SendUnfolds(metaLen, pos, looks, i);
        var r := ReadChunk(looks[i]);
        if !r.Chunk? {
          end := Some(r);
          assert chunks + [] == chunks;
          return;
        }
        BehindTwice(chunks, r.data, Sends(metaLen, pos, looks[i + 1..]));
        chunks := chunks + [r.data];
      }
      assert chunks + [] == chunks;
    }
  }

  /** The chunks sent before, and then those of `s`. */
  function Behind(before: seq<Bytes>, s: Sending): Sending {
    s.(chunks := before + s.chunks)
  }

  lemma BehindTwice(before: seq<Bytes>, chunk: Bytes, s: Sending)
    ensures Behind(before, Behind([chunk], s)) == Behind(before + [chunk], s)
  {
    assert before + ([chunk] + s.chunks) == before + [chunk] + s.chunks;
  }

  lemma SendUnfolds(metaLen: nat, pos: nat, looks: seq<Look>, i: nat)
    requires i < |looks|
    ensures var r := ReadResultOf(looks[i], pos, metaLen);
            Sends(metaLen, pos, looks[i..]) == if r.Chunk? then Behind([r.data], Sends(metaLen, pos + |r.data|, looks[i + 1..]))
                                               else Sending([], Some(r))
  {
    assert looks[i..][1..] == looks[i + 1..] && looks[i..][0] == looks[i];
  }

  predicate Unchanged(source: Bytes, looks: seq<Look>) {
    forall i :: 0 <= i < |looks| ==> looks[i].content == source && looks[i].unmodified
  }

  /** Over a source that stays as it was the chunks, however the reads split it, spell out its bytes from the
      offset on; none is empty; and the loop stops by itself exactly at the end of the file. */
  lemma {:induction false} SendsSource(source: Bytes, pos: nat, looks: seq<Look>)
    requires pos <= |source| && Unchanged(source, looks)
    ensures var s := Sends(|source|, pos, looks);
            && Flat(s.chunks) <= source[pos..] && NoEmpty(s.chunks)
            && s.end in {None, Some(EndOfFile)}
            && (s.end.Some? ==> Flat(s.chunks) == source[pos..])
            && (|looks| > |source| - pos ==> s.end.Some?)
    decreases |looks|
  {
    if looks != [] && pos < |source| {
      var n := ReadCount(looks[0], pos);
      SendsSource(source, pos + n, looks[1..]);
      assert source[pos..] == source[pos..pos + n] + source[pos + n..];
    }
  }

  // ----- Histories

  /** Between attempts anyone may edit, truncate or delete the partial file. */
  datatype Happening<D> = Edit(content: Option<Bytes>) | Try(link: Link<D>)

  datatype History = History(tmp: Option<Bytes>, attempts: seq<Attempt>)

  function After<D(==)>(hash: Bytes -> D, size: nat, h: History, next: Happening<D>): History {
    match next
    case Edit(content) => h.(tmp := content)
    case Try(link) =>
      var a := Attempted(hash, size, h.tmp, link);
      History(a.tmp, h.attempts + [a])
  }

  function AfterAll<D(==)>(hash: Bytes -> D, size: nat, h: History, all: seq<Happening<D>>): History
    decreases |all|
  {
    if all == [] then h else AfterAll(hash, size, After(hash, size, h, all[0]), all[1..])
  }

  /** No other file of the same length hashes like a prefix of the source. */
  ghost predicate CollisionFree<D(!new)>(hash: Bytes -> D, source: Bytes) {
    forall x: Bytes :: |x| <= |source| && hash(x) == hash(source[..|x|]) ==> x == source[..|x|]
  }

  /** The sender reported this source's digest for the whole file, or nothing yet. */
  predicate ReportedFull<D(==)>(hash: Bytes -> D, source: Bytes, link: Link<D>) {
    link.full.None? || link.full.value == hash(source)
  }

  ghost predicate FullReports<D>(hash: Bytes -> D, source: Bytes, all: seq<Happening<D>>) {
    forall i :: 0 <= i < |all| && all[i].Try? ==> ReportedFull(hash, source, all[i].link)
  }

  lemma OffsetFits<D>(hash: Bytes -> D, size: nat, tmp: Option<Bytes>, link: Link<D>)
    ensures var offset := ResumeOffset(hash, size, tmp, link);
            offset.Some? ==> offset.value <= size && |Opened(tmp, offset.value)| == offset.value
  {
  }

  lemma PlacedIsSource<D(!new)>(hash: Bytes -> D, source: Bytes, tmp: Option<Bytes>, link: Link<D>)
    requires CollisionFree(hash, source) && ReportedFull(hash, source, link)
    ensures var a := Attempted(hash, |source|, tmp, link);
            a.placed.Some? <==> a.outcome == Placed
    ensures var a := Attempted(hash, |source|, tmp, link);
            a.placed.Some? ==> a.placed.value == source
  {
    var offset := ResumeOffset(hash, |source|, tmp, link);
    OffsetFits(hash, |source|, tmp, link);
    if offset.Some? {
      StreamBounds(hash, |source|, Opened(tmp, offset.value), link);
      assert source[..|source|] == source;
    }
  }

  /** Over any history of edits, interruptions, chunk sizes and wrong answers about the partial file, only the
      bytes of the file whose digest the sender reported are ever placed. */
  lemma {:induction false} OnlySourceIsPlaced<D(!new)>(hash: Bytes -> D, source: Bytes, h: History, all: seq<Happening<D>>, i: nat)
    requires CollisionFree(hash, source) && FullReports(hash, source, all)
    requires |h.attempts| <= i < |AfterAll(hash, |source|, h, all).attempts|
    ensures var a := AfterAll(hash, |source|, h, all).attempts[i];
            a.placed.Some? ==> a.placed.value == source
    decreases |all|
  {
    var next := After(hash, |source|, h, all[0]);
    if i < |next.attempts| {
      PlacedIsSource(hash, source, h.tmp, all[0].link);
      AttemptsGrow(hash, |source|, next, all[1..]);
    } else {
      OnlySourceIsPlaced(hash, source, next, all[1..], i);
    }
  }

  lemma {:induction false} AttemptsGrow<D>(hash: Bytes -> D, size: nat, h: History, all: seq<Happening<D>>)
    ensures h.attempts <= AfterAll(hash, size, h, all).attempts
    decreases |all|
  {
    if all != [] {
      AttemptsGrow(hash, size, After(hash, size, h, all[0]), all[1..]);
    }
  }

  // ----- An honest sender

  predicate HonestReport<D(==)>(hash: Bytes -> D, source: Bytes, report: Report<D>) {
    report.limit <= |source| ==> report.checksum == hash(source[..report.limit])
  }

  /** The sender answers about its unmodified source and sends a part of what follows the offset; the
      connection may go away at any point. */
  predicate Honest<D(==)>(hash: Bytes -> D, source: Bytes, tmp: Option<Bytes>, link: Link<D>) {
    && ReportedFull(hash, source, link)
    && (link.answer.Some? ==> HonestReport(hash, source, link.answer.value))
    && var offset := ResumeOffset(hash, |source|, tmp, link);
       offset.Some? && offset.value <= |source| ==> Flat(link.chunks) <= source[offset.value..]
  }

  /** Appending to a prefix of the source what follows it gives a prefix of the source. */
  lemma PrefixGrows(source: Bytes, part: Bytes, more: Bytes, whole: Bytes)
    requires part <= source && more <= source[|part|..] && part <= whole <= part + more
    ensures whole <= source && part + more <= source
  {
    assert source == part + source[|part|..];
    assert source[|part|..] == more + source[|part|..][|more|..];
    assert source == (part + more) + source[|part|..][|more|..];
  }

  lemma {:induction false} NotTooLong(size: nat, written: Bytes, chunks: seq<Bytes>, used: nat, sends: nat, progress: seq<nat>)
    requires used <= |chunks| && progress != [] && |written| + |Flat(chunks[used..])| <= size
    ensures !Receive(size, written, chunks, used, sends, progress).tooLong
    decreases |chunks| - used
  {
    if |written| < size && used < |chunks| {
      FlatFrom(chunks, used);
      var more := written + chunks[used];
      NotTooLong(size, more, chunks, used + 1, sends, progress);
      if sends > 0 {
        NotTooLong(size, more, chunks, used + 1, sends - 1, progress + [|more|]);
      }
    }
  }

  lemma OpenedPrefix<D(!new)>(hash: Bytes -> D, source: Bytes, tmp: Option<Bytes>, link: Link<D>)
    requires CollisionFree(hash, source) && Honest(hash, source, tmp, link)
    ensures var offset := ResumeOffset(hash, |source|, tmp, link);
            offset.Some? ==> offset.value <= |source| && Opened(tmp, offset.value) == source[..offset.value]
  {
    assert source[..|source|] == source;
  }

  /** With an honest sender and an unmodified source the partial file is a prefix of the source once it is
      open and when the attempt ends, the next attempt resumes exactly at its length, and the attempt ends
      placed or stopped: neither the size check nor the final validation ever fails. */
  lemma HonestAttempt<D(!new)>(hash: Bytes -> D, source: Bytes, tmp: Option<Bytes>, link: Link<D>)
    requires CollisionFree(hash, source) && Honest(hash, source, tmp, link)
    ensures var offset := ResumeOffset(hash, |source|, tmp, link);
            offset.Some? ==> offset.value <= |source| && Opened(tmp, offset.value) == source[..offset.value]
    ensures var a := Attempted(hash, |source|, tmp, link);
            && a.outcome in {Placed, Stopped}
            && (a.outcome == Placed <==> a.placed == Some(source))
            && (a != Attempt(tmp, Stopped, None, []) && a.tmp.Some? ==> a.tmp.value <= source)
  {
    var offset := ResumeOffset(hash, |source|, tmp, link);
    OpenedPrefix(hash, source, tmp, link);
    PlacedIsSource(hash, source, tmp, link);
    if offset.Some? {
      HonestStream(hash, source, Opened(tmp, offset.value), link);
    }
  }

  lemma HonestStream<D(!new)>(hash: Bytes -> D, source: Bytes, part: Bytes, link: Link<D>)
    requires ReportedFull(hash, source, link)
    requires part <= source && Flat(link.chunks) <= source[|part|..]
    ensures var a := Streamed(hash, |source|, part, link);
            && a.outcome in {Placed, Stopped}
            && (a.tmp.Some? ==> a.tmp.value <= source)
  {
    if link.sends > 0 {
      var r := Receive(|source|, part, link.chunks, 0, link.sends - 1, [|part|]);
      assert link.chunks[0..] == link.chunks;
      ReceiveWrites(|source|, part, link.chunks, 0, link.sends - 1, [|part|]);
      NotTooLong(|source|, part, link.chunks, 0, link.sends - 1, [|part|]);
      PrefixGrows(source, part, Flat(link.chunks), r.written);
      if |r.written| == |source| {
        assert r.written == source;
      }
    }
  }

  /** A partial file that is a prefix of the source is taken up exactly where it ends. */
  lemma ResumesAtLength<D(!new)>(hash: Bytes -> D, source: Bytes, part: Bytes, link: Link<D>)
    requires part <= source && Honest(hash, source, Some(part), link)
    requires link.answer.Some? && link.answer.value.limit == |part| && link.full.Some?
    ensures ResumeOffset(hash, |source|, Some(part), link) == Some(|part|)
  {
    assert part == source[..|part|];
    assert source[..|source|] == source;
  }

  /** Honest throughout: every attempt of the history meets an honest sender. */
  predicate HonestHistory<D(==)>(hash: Bytes -> D, source: Bytes, h: History, all: seq<Happening<D>>)
    decreases |all|
  {
    all == [] ||
    ((all[0].Try? ==> Honest(hash, source, h.tmp, all[0].link))
     && HonestHistory(hash, source, After(hash, |source|, h, all[0]), all[1..]))
  }

  /** Over any history with an honest sender, edits of the partial file included, no attempt ever fails. */
  lemma {:induction false} HonestNeverFails<D(!new)>(hash: Bytes -> D, source: Bytes, h: History, all: seq<Happening<D>>, i: nat)
    requires CollisionFree(hash, source) && HonestHistory(hash, source, h, all)
    requires |h.attempts| <= i < |AfterAll(hash, |source|, h, all).attempts|
    ensures var a := AfterAll(hash, |source|, h, all).attempts[i];
            a.outcome == Stopped || (a.outcome == Placed && a.placed == Some(source))
    decreases |all|
  {
    var next := After(hash, |source|, h, all[0]);
    if i < |next.attempts| {
      HonestAttempt(hash, source, h.tmp, all[0].link);
      AttemptsGrow(hash, |source|, next, all[1..]);
    } else {
      HonestNeverFails(hash, source, next, all[1..], i);
    }
  }

  lemma StreamCompletes<D(!new)>(hash: Bytes -> D, source: Bytes, part: Bytes, link: Link<D>)
    requires link.full == Some(hash(source)) && link.sends >= 1 + |source|
    requires part <= source && Flat(link.chunks) == source[|part|..] && NoEmpty(link.chunks)
    ensures Streamed(hash, |source|, part, link).placed == Some(source)
  {
    var r := Receive(|source|, part, link.chunks, 0, link.sends - 1, [|part|]);
    assert link.chunks[0..] == link.chunks;
    ReceivesAll(|source|, part, link.chunks, 0, link.sends - 1, [|part|]);
    ReceiveWrites(|source|, part, link.chunks, 0, link.sends - 1, [|part|]);
    PrefixGrows(source, part, Flat(link.chunks), r.written);
    assert r.written == source;
  }

  /** An attempt over a connection that stays up, fed by an upload job that reaches the end of the file, places
      the source. */
  lemma EndToEnd<D(!new)>(hash: Bytes -> D, source: Bytes, tmp: Option<Bytes>, link: Link<D>, looks: seq<Look>)
    requires CollisionFree(hash, source) && Honest(hash, source, tmp, link)
    requires link.answer.Some? && link.full.Some? && link.startSent
    requires link.sends >= 1 + |source|
    requires Unchanged(source, looks) && |looks| > |source|
    requires link.chunks == Sends(|source|, ResumeOffset(hash, |source|, tmp, link).value, looks).chunks
    ensures Attempted(hash, |source|, tmp, link).placed == Some(source)
  {
    var offset := ResumeOffset(hash, |source|, tmp, link).value;
    OpenedPrefix(hash, source, tmp, link);
    SendsSource(source, offset, looks);
    StreamCompletes(hash, source, Opened(tmp, offset), link);
  }

  lemma {:induction false} ReceivesAll(size: nat, written: Bytes, chunks: seq<Bytes>, used: nat, sends: nat, progress: seq<nat>)
    requires used <= |chunks| && progress != [] && NoEmpty(chunks)
    requires |written| + |Flat(chunks[used..])| == size && sends >= size - |written|
    ensures var r := Receive(size, written, chunks, used, sends, progress); !r.cut && !r.tooLong
    decreases |chunks| - used
  {
    if |written| < size && used < |chunks| {
      FlatFrom(chunks, used);
      var more := written + chunks[used];
      if progress[|progress| - 1] + REPORT_PROGRESS_THRESHOLD > |more| {
        ReceivesAll(size, more, chunks, used + 1, sends, progress);
      } else {
        ReceivesAll(size, more, chunks, used + 1, sends - 1, progress + [|more|]);
      }
    }
  }

  // ----- Where the reports go

  /** The receiver's loop: it keeps the first digest of the whole file and passes the other reports on to the job,
      if there is one. `full` starts with the digest stored by an earlier connection. */
  class ChecksumDesk<D(==)> {
    const size: nat
    var full: Option<D>
    var passedOn: seq<Report<D>>

    constructor (size: nat, stored: Option<D>)
      ensures this.size == size && full == stored && passedOn == []
    {
      this.size, this.full, this.passedOn := size, stored, [];
    }

    /** `on_checksum`. */
    method OnChecksum(report: Report<D>, running: bool)
      modifies this
      ensures full == if report.limit == size && old(full).None? then Some(report.checksum) else old(full)
      ensures passedOn == if report.limit != size && running then old(passedOn) + [report] else old(passedOn)
    {
      if report.limit == size {
        if full.None? {
          full := Some(report.checksum);
        }
      } else if running {
        passedOn := passedOn + [report];
      }
    }

    /** Reports by an honest sender, of whatever was asked and in any order, leave the desk with nothing but the
        truth: the job is given what `Honest` asks for. */
    method TakeHonest(hash: Bytes -> D, source: Bytes, reports: seq<(Report<D>, bool)>)
      requires size == |source| && full in {None, Some(hash(source))}
      requires forall i :: 0 <= i < |reports| ==> HonestReport(hash, source, reports[i].0)
      requires forall i :: 0 <= i < |passedOn| ==> HonestReport(hash, source, passedOn[i])
      modifies this
      ensures full in {None, Some(hash(source))}
      ensures (exists i :: 0 <= i < |reports| && reports[i].0.limit == size) || old(full).Some? ==> full == Some(hash(source))
      ensures forall i :: 0 <= i < |passedOn| ==> HonestReport(hash, source, passedOn[i]) && (i >= |old(passedOn)| ==> passedOn[i].limit != size)
    {
      assert source[..|source|] == source;
      for i := 0 to |reports|
        invariant full in {None, Some(hash(source))} && |passedOn| >= |old(passedOn)|
        invariant (exists j :: 0 <= j < i && reports[j].0.limit == size) || old(full).Some? ==> full == Some(hash(source))
        invariant forall j :: 0 <= j < |passedOn| ==> HonestReport(hash, source, passedOn[j]) && (j >= |old(passedOn)| ==> passedOn[j].limit != size)
      {
        OnChecksum(reports[i].0, reports[i].1);
      }
    }
  }
}
