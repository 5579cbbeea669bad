/** What an attempt leaves behind and what it reports: exactly which bytes are written, which lengths are reported as
    progress and how many at least, what is kept for the next attempt, and what the sender sends at all. */
module ResumeProgress {
  import opened Base
  import opened Resume

  // ----- What is written

  /** How many of the chunks were taken in; the one that was too long was not. */
  function Accepted(r: Received): int {
    if r.tooLong then r.used - 1 else r.used
  }

  /** Every way the receive loop ends, with exactly the bytes it has written by then: by itself with the whole size,
      on a chunk that would pass the size, because the connection went away with no chunk left, or because a report
      could not be sent. */
  lemma {:induction false} ReceivesExactly(size: nat, written: Bytes, chunks: seq<Bytes>, used: nat, sends: nat, progress: seq<nat>)
    requires used <= |chunks| && progress != [] && |written| <= size
    ensures var r := Receive(size, written, chunks, used, sends, progress);
            && used <= Accepted(r) <= |chunks|
            && r.written == written + Flat(chunks[used..Accepted(r)])
            && (!r.cut && !r.tooLong ==> |r.written| == size)
            && (r.tooLong ==> !r.cut && Accepted(r) < |chunks| && |r.written| + |chunks[Accepted(r)]| > size)
            && (r.cut ==> Accepted(r) == |chunks| || |r.progress| == |progress| + sends)
    decreases |chunks| - used
  {
    var r := Receive(size, written, chunks, used, sends, progress);
    assert chunks[used..used] == [];
    if |written| < size && used < |chunks| && |written| + |chunks[used]| <= size {
      var more := written + chunks[used];
      FlatSlice(chunks, used, used + 1);
      if progress[|progress| - 1] + REPORT_PROGRESS_THRESHOLD > |more| {
        ReceivesExactly(size, more, chunks, used + 1, sends, progress);
        FlatSlice(chunks, used, Accepted(r));
      } else if sends > 0 {
        ReceivesExactly(size, more, chunks, used + 1, sends - 1, progress + [|more|]);
        FlatSlice(chunks, used, Accepted(r));
      }
    }
  }

  lemma FlatSlice(chunks: seq<Bytes>, from: nat, to: nat)
    requires from < to <= |chunks|
    ensures Flat(chunks[from..to]) == chunks[from] + Flat(chunks[from + 1..to])
    ensures to == from + 1 ==> Flat(chunks[from..to]) == chunks[from]
  {
    assert chunks[from..to][1..] == chunks[from + 1..to];
  }

  // ----- What is reported

  function Last(progress: seq<nat>): nat
    requires progress != []
  {
    progress[|progress| - 1]
  }

  /** The reported lengths say how far the attempt was at every length between: at most the threshold behind. */
  ghost predicate Near(progress: seq<nat>, length: nat) {
    exists i :: 0 <= i < |progress| && progress[i] <= length < progress[i] + REPORT_PROGRESS_THRESHOLD
  }

  /** The length is at least the threshold above every report before it. */
  predicate Due(progress: seq<nat>, length: nat) {
    forall i :: 0 <= i < |progress| && progress[i] < length ==> progress[i] + REPORT_PROGRESS_THRESHOLD <= length
  }

  /** The length written after `k` more chunks. */
  function LengthAt(written: Bytes, chunks: seq<Bytes>, used: nat, k: nat): nat
    requires used <= k <= |chunks|
  {
    |written| + |Flat(chunks[used..k])|
  }

  /** A report was due that could not be sent any more. */
  predicate CutBySend(r: Received) {
    r.progress != [] && Last(r.progress) + REPORT_PROGRESS_THRESHOLD <= |r.written|
  }

  lemma LengthStep(written: Bytes, chunks: seq<Bytes>, used: nat, k: nat)
    requires used < k <= |chunks|
    ensures LengthAt(written, chunks, used, k) == LengthAt(written + chunks[used], chunks, used + 1, k)
  {
    FlatSlice(chunks, used, k);
  }

  lemma NearGrows(progress: seq<nat>, more: seq<nat>, length: nat)
    requires Near(progress, length) && progress <= more
    ensures Near(more, length)
  {
    var i :| 0 <= i < |progress| && progress[i] <= length < progress[i] + REPORT_PROGRESS_THRESHOLD;
    assert more[i] == progress[i];
  }

  /** The reports only grow, and only a due one that cannot be sent is missing at the end. */
  lemma {:induction false} ReportsGrow(size: nat, written: Bytes, chunks: seq<Bytes>, used: nat, sends: nat, progress: seq<nat>)
    requires used <= |chunks| && progress != [] && |written| < Last(progress) + REPORT_PROGRESS_THRESHOLD
    ensures var r := Receive(size, written, chunks, used, sends, progress);
            progress <= r.progress && (CutBySend(r) ==> r.cut && |r.progress| == |progress| + sends)
    decreases |chunks| - used
  {
    if |written| < size && used < |chunks| && |written| + |chunks[used]| <= size {
      var more := written + chunks[used];
      if Last(progress) + REPORT_PROGRESS_THRESHOLD > |more| {
        ReportsGrow(size, more, chunks, used + 1, sends, progress);
      } else if sends > 0 {
        ReportsGrow(size, more, chunks, used + 1, sends - 1, progress + [|more|]);
      }
    }
  }

  /** No written length is left unreported for the threshold or more, but for the one at which a send failed. */
  lemma {:induction false} ReportsKeepUp(size: nat, written: Bytes, chunks: seq<Bytes>, used: nat, sends: nat, progress: seq<nat>, k: nat)
    requires used <= |chunks| && progress != [] && Last(progress) <= |written| < Last(progress) + REPORT_PROGRESS_THRESHOLD
    requires |written| <= size
    requires var r := Receive(size, written, chunks, used, sends, progress);
             used <= k <= Accepted(r) <= |chunks| && (k == Accepted(r) ==> !CutBySend(r))
    ensures Near(Receive(size, written, chunks, used, sends, progress).progress, LengthAt(written, chunks, used, k))
    decreases |chunks| - used
  {
    var r := Receive(size, written, chunks, used, sends, progress);
    ReportsGrow(size, written, chunks, used, sends, progress);
    if k == used {
      assert chunks[used..k] == [];
      assert Near(progress, |written|);
      NearGrows(progress, r.progress, |written|);
    } else {
      var more := written + chunks[used];
      LengthStep(written, chunks, used, k);
      if Last(progress) + REPORT_PROGRESS_THRESHOLD > |more| {
        ReportsKeepUp(size, more, chunks, used + 1, sends, progress, k);
      } else if sends > 0 {
        ReportsKeepUp(size, more, chunks, used + 1, sends - 1, progress + [|more|], k);
      }
    }
  }

  predicate IsLength(written: Bytes, chunks: seq<Bytes>, used: nat, k: int, n: nat) {
    used <= k <= |chunks| && n == LengthAt(written, chunks, used, k)
  }

  /** The length `n` was written after one of the chunks taken in. */
  ghost predicate WrittenBy(written: Bytes, chunks: seq<Bytes>, used: nat, most: int, n: nat) {
    exists k :: used < k <= most && IsLength(written, chunks, used, k, n)
  }

  /** What is reported is a length that was written, or was reported before. */
  lemma {:induction false} ReportsAreLengths(size: nat, written: Bytes, chunks: seq<Bytes>, used: nat, sends: nat, progress: seq<nat>, n: nat)
    requires used <= |chunks| && progress != [] && |written| <= size
    requires n in Receive(size, written, chunks, used, sends, progress).progress
    ensures n in progress
         || WrittenBy(written, chunks, used, Accepted(Receive(size, written, chunks, used, sends, progress)), n)
    decreases |chunks| - used
  {
    var r := Receive(size, written, chunks, used, sends, progress);
    ReceivesExactly(size, written, chunks, used, sends, progress);
    if n !in progress {
      var more := written + chunks[used];
      LengthStep(written, chunks, used, used + 1);
      assert chunks[used + 1..used + 1] == [];
      if Last(progress) + REPORT_PROGRESS_THRESHOLD > |more| {
        ReportsAreLengths(size, more, chunks, used + 1, sends, progress, n);
        MovedOne(written, chunks, used, Accepted(r), n);
      } else {
        ReceivesExactly(size, more, chunks, used + 1, sends - 1, progress + [|more|]);
        if n == |more| {
          assert IsLength(written, chunks, used, used + 1, n);
        } else {
          ReportsAreLengths(size, more, chunks, used + 1, sends - 1, progress + [|more|], n);
          MovedOne(written, chunks, used, Accepted(r), n);
        }
      }
    }
  }

  lemma MovedOne(written: Bytes, chunks: seq<Bytes>, used: nat, most: int, n: nat)
    requires used < |chunks|
    requires WrittenBy(written + chunks[used], chunks, used + 1, most, n)
    ensures WrittenBy(written, chunks, used, most, n)
  {
    var k :| used + 1 < k <= most && IsLength(written + chunks[used], chunks, used + 1, k, n);
    LengthStep(written, chunks, used, k);
    assert IsLength(written, chunks, used, k, n);
  }

  /** Which lengths are reported, exactly: a length that was written is reported if and only if it is at least the
      threshold above every report before it. The one exception is the last length of an attempt that was cut
      because its report could not be sent. */
  lemma ReportedIff(size: nat, part: Bytes, chunks: seq<Bytes>, sends: nat, k: nat)
    requires |part| <= size
    requires k <= |chunks| && k <= Accepted(Receive(size, part, chunks, 0, sends, [|part|]))
    ensures var r := Receive(size, part, chunks, 0, sends, [|part|]);
            var length := LengthAt(part, chunks, 0, k);
            k < Accepted(r) || !CutBySend(r) ==> (length in r.progress <==> Due(r.progress, length))
  {
    var r := Receive(size, part, chunks, 0, sends, [|part|]);
    var length := LengthAt(part, chunks, 0, k);
    ReceivesExactly(size, part, chunks, 0, sends, [|part|]);
    ReceiveReports(size, part, chunks, 0, sends, [|part|]);
    if k < Accepted(r) || !CutBySend(r) {
      ReportsKeepUp(size, part, chunks, 0, sends, [|part|], k);
      var i :| 0 <= i < |r.progress| && r.progress[i] <= length < r.progress[i] + REPORT_PROGRESS_THRESHOLD;
      if length in r.progress {
        RisingIsDue(r.progress, length);
      }
    }
  }

  lemma {:induction false} RisingApart(progress: seq<nat>, i: nat, j: nat)
    requires Rising(progress) && i < j < |progress|
    ensures progress[i] + REPORT_PROGRESS_THRESHOLD <= progress[j]
    decreases j - i
  {
    if i + 1 < j {
      RisingApart(progress, i, j - 1);
    }
  }

  lemma RisingIsDue(progress: seq<nat>, length: nat)
    requires Rising(progress) && length in progress
    ensures Due(progress, length)
  {
    var j :| 0 <= j < |progress| && progress[j] == length;
    forall i | 0 <= i < |progress| && progress[i] < length
      ensures progress[i] + REPORT_PROGRESS_THRESHOLD <= length
    {
      if i < j {
        RisingApart(progress, i, j);
      } else if j < i {
        RisingApart(progress, j, i);
      }
    }
  }

  /** With chunks of at most `most` bytes, reports come often: so many are made that each accounts for less than the
      threshold and one chunk. */
  lemma {:induction false} ReportsAreOften(size: nat, written: Bytes, chunks: seq<Bytes>, used: nat, sends: nat, progress: seq<nat>,
                                            start: nat, most: nat)
    requires used <= |chunks| && progress != [] && start <= Last(progress) <= |written| < Last(progress) + REPORT_PROGRESS_THRESHOLD
    requires forall i :: 0 <= i < |chunks| ==> |chunks[i]| <= most
    requires Last(progress) - start <= (|progress| - 1) * (REPORT_PROGRESS_THRESHOLD + most)
    ensures var r := Receive(size, written, chunks, used, sends, progress);
            |r.written| - start < |r.progress| * (REPORT_PROGRESS_THRESHOLD + most)
    decreases |chunks| - used
  {
    var gap := REPORT_PROGRESS_THRESHOLD + most;
    OneMore(|progress|, gap);
    if |written| < size && used < |chunks| && |written| + |chunks[used]| <= size {
      var more := written + chunks[used];
      if Last(progress) + REPORT_PROGRESS_THRESHOLD > |more| {
        ReportsAreOften(size, more, chunks, used + 1, sends, progress, start, most);
      } else if sends > 0 {
        ReportsAreOften(size, more, chunks, used + 1, sends - 1, progress + [|more|], start, most);
      }
    }
  }

  lemma OneMore(n: nat, gap: nat)
    requires n > 0
    ensures n * gap == (n - 1) * gap + gap
  {
  }

  /** Progress over a whole attempt on an open file. A file that is placed was reported to within the threshold of its
      end, and with chunks of at most `most` bytes at least one report is made for each `threshold + most` bytes. */
  lemma AttemptReports<D>(hash: Bytes -> D, size: nat, part: Bytes, link: Link<D>, most: nat)
    requires |part| <= size && link.sends > 0
    requires forall i :: 0 <= i < |link.chunks| ==> |link.chunks[i]| <= most
    ensures var a := Streamed(hash, size, part, link);
            && a.progress != [] && a.progress[0] == |part|
            && (a.outcome == Placed ==>
                  && size - REPORT_PROGRESS_THRESHOLD < Last(a.progress) <= size
                  && size - |part| < |a.progress| * (REPORT_PROGRESS_THRESHOLD + most))
  {
    var r := Receive(size, part, link.chunks, 0, link.sends - 1, [|part|]);
    ReportsGrow(size, part, link.chunks, 0, link.sends - 1, [|part|]);
    ReceiveReports(size, part, link.chunks, 0, link.sends - 1, [|part|]);
    ReportsAreOften(size, part, link.chunks, 0, link.sends - 1, [|part|], |part|, most);
    ReceiveWrites(size, part, link.chunks, 0, link.sends - 1, [|part|]);
  }

  // ----- What is left for the next attempt

  /** An attempt on an open file keeps the partial file exactly when it was stopped, and then all that was received is
      in it; what was found wrong or placed is not kept. */
  lemma StoppedKeeps<D>(hash: Bytes -> D, size: nat, part: Bytes, link: Link<D>)
    requires |part| <= size && link.sends > 0
    ensures var a := Streamed(hash, size, part, link);
            var r := Receive(size, part, link.chunks, 0, link.sends - 1, [|part|]);
            && 0 <= Accepted(r) <= |link.chunks|
            && (a.tmp.Some? <==> a.outcome == Stopped)
            && (a.outcome == Stopped ==> a.tmp == Some(part + Flat(link.chunks[..Accepted(r)])))
            && (a.outcome == Stopped <==> r.cut || (!r.tooLong && link.full.None?))
            && (a.outcome == MismatchedSize <==> r.tooLong)
            && (a.outcome == ChecksumMismatch <==> !r.cut && !r.tooLong && link.full.Some? && link.full.value != hash(r.written))
            && (a.outcome == Placed ==> a.placed == Some(part + Flat(link.chunks[..Accepted(r)])))
  {
    ReceivesExactly(size, part, link.chunks, 0, link.sends - 1, [|part|]);
    var r := Receive(size, part, link.chunks, 0, link.sends - 1, [|part|]);
    assert link.chunks[0..Accepted(r)] == link.chunks[..Accepted(r)];
  }

  /** Nothing is fetched twice: with an honest sender, what a stopped attempt received is where the next one starts,
      provided the reports about it arrive. */
  lemma NothingFetchedTwice<D(!new)>(hash: Bytes -> D, source: Bytes, part: Bytes, link: Link<D>, again: Link<D>)
    requires CollisionFree(hash, source) && part <= source && link.sends > 0
    requires ReportedFull(hash, source, link) && Flat(link.chunks) <= source[|part|..]
    requires Streamed(hash, |source|, part, link).outcome == Stopped
    requires Honest(hash, source, Streamed(hash, |source|, part, link).tmp, again)
    requires again.full.Some? && again.answer.Some? && again.answer.value.limit == |Streamed(hash, |source|, part, link).tmp.value|
    ensures var r := Receive(|source|, part, link.chunks, 0, link.sends - 1, [|part|]);
            && 0 <= Accepted(r) <= |link.chunks|
            && ResumeOffset(hash, |source|, Streamed(hash, |source|, part, link).tmp, again)
               == Some(|part| + |Flat(link.chunks[..Accepted(r)])|)
  {
    StoppedKeeps(hash, |source|, part, link);
    HonestStream(hash, source, part, link);
    ResumesAtLength(hash, source, Streamed(hash, |source|, part, link).tmp.value, again);
  }

  // ----- What is sent

  /** The chunk is what the look finds at this place of a file that is unmodified and as long as announced. */
  predicate FoundAt(look: Look, from: nat, metaLen: nat, chunk: Bytes) {
    && look.unmodified && 0 < |chunk| && from + |chunk| <= metaLen && from + |chunk| <= |look.content|
    && chunk == look.content[from..from + |chunk|]
  }

  lemma SendsFirst(metaLen: nat, pos: nat, looks: seq<Look>)
    requires looks != [] && ReadResultOf(looks[0], pos, metaLen).Chunk?
    ensures var data := ReadResultOf(looks[0], pos, metaLen).data;
            && FoundAt(looks[0], pos, metaLen, data)
            && Sends(metaLen, pos, looks) == Behind([data], Sends(metaLen, pos + |data|, looks[1..]))
  {
  }

  /** The upload loop sends, look by look, what the file holds at the place reached, as long as each look finds it
      unmodified and of the size announced. */
  lemma {:induction false} SendsUnmodified(metaLen: nat, pos: nat, looks: seq<Look>, i: nat)
    requires i < |Sends(metaLen, pos, looks).chunks|
    ensures var s := Sends(metaLen, pos, looks);
            i < |looks| && FoundAt(looks[i], pos + |Flat(s.chunks[..i])|, metaLen, s.chunks[i])
    decreases |looks|
  {
    var s := Sends(metaLen, pos, looks);
    SendsFirst(metaLen, pos, looks);
    if i == 0 {
      assert s.chunks[..0] == [];
    } else {
      var data := ReadResultOf(looks[0], pos, metaLen).data;
      var rest := Sends(metaLen, pos + |data|, looks[1..]);
      SendsUnmodified(metaLen, pos + |data|, looks[1..], i - 1);
      assert s.chunks[..i][1..] == rest.chunks[..i - 1];
    }
  }

  /** It goes on as long as there are looks that give a chunk, and stops at the first that does not, because the file
      was modified exactly when that look finds it so. */
  lemma {:induction false} SendsUntil(metaLen: nat, pos: nat, looks: seq<Look>)
    ensures var s := Sends(metaLen, pos, looks);
            && |s.chunks| <= |looks|
            && (s.end.None? <==> |s.chunks| == |looks|)
            && (s.end == Some(FileModified) <==> |s.chunks| < |looks| && !looks[|s.chunks|].unmodified)
    decreases |looks|
  {
    if looks != [] && ReadResultOf(looks[0], pos, metaLen).Chunk? {
      var data := ReadResultOf(looks[0], pos, metaLen).data;
      SendsFirst(metaLen, pos, looks);
      SendsUntil(metaLen, pos + |data|, looks[1..]);
    }
  }
}
