/** The streaming checksum of a file with its progress announcements. Whatever way the input is split into
    reads, the digest and the announcements depend on its bytes and its length alone. */
module Checksum {
  import opened Base
  import opened Resume

  /** The first `n` multiples of `g`. */
  function Multiples(g: nat, n: nat): (r: seq<nat>)
    ensures |r| == n
    ensures forall i :: 0 <= i < n ==> r[i] == (i + 1) * g
  {
    seq(n, i requires 0 <= i < n => (i + 1) * g)
  }

  /** What is announced for an input of `total` bytes: the multiples of the granularity up to the total, then
      the total itself when it is not one of them; only a non-zero total without a granularity; nothing for an
      empty input. */
  function Announcements(listening: bool, granularity: Option<nat>, total: nat): seq<nat>
    requires listening && total > 0 ==> granularity != Some(0)
  {
    if !listening || total == 0 then []
    else
      match granularity
      case None => [total]
      case Some(g) => Multiples(g, total / g) + if total % g == 0 then [] else [total]
  }

  /** The reads before the first empty one, which marks the end of the input. */
  function BeforeEnd(pieces: seq<Bytes>): (r: seq<Bytes>)
    ensures r <= pieces && NoEmpty(r)
    ensures r == pieces <==> NoEmpty(pieces)
    ensures |r| < |pieces| ==> pieces[|r|] == []
  {
    if pieces == [] || pieces[0] == [] then [] else [pieces[0]] + BeforeEnd(pieces[1..])
  }

  lemma QuotientIs(total: nat, g: nat, k: nat)
    requires g > 0 && k * g <= total < k * g + g
    ensures k == total / g
    ensures total % g == total - k * g
  {
    var q, r := total / g, total % g;
    assert total == q * g + r;
    assert k < q ==> (k + 1) * g <= q * g;
    assert q < k ==> (q + 1) * g <= k * g;
  }

  lemma FlatAppend(chunks: seq<Bytes>, chunk: Bytes)
    ensures Flat(chunks + [chunk]) == Flat(chunks) + chunk
  {
    if chunks == [] {
      assert chunks + [chunk] == [chunk];
    } else {
      assert (chunks + [chunk])[1..] == chunks[1..] + [chunk];
      FlatAppend(chunks[1..], chunk);
    }
  }

  /** The inner loop: announces every multiple of the granularity that the new total has reached. */
  method AnnounceUpTo(total: nat, granularity: nat, announced: seq<nat>, announcedBytes: nat)
    returns (all: seq<nat>, bytes: nat)
    requires granularity > 0 && announcedBytes <= total
    requires announced == Multiples(granularity, |announced|) && announcedBytes == |announced| * granularity
    ensures all == Multiples(granularity, |all|) && bytes == |all| * granularity
    ensures bytes <= total < bytes + granularity
  {
    all, bytes := announced, announcedBytes;
    while bytes + granularity <= total
      invariant all == Multiples(granularity, |all|) && bytes == |all| * granularity
      invariant bytes <= total
      decreases total - bytes
    {
      bytes := bytes + granularity;
      assert bytes == (|all| + 1) * granularity;
      all := all + [bytes];
    }
  }

  /** What has been announced once `total` bytes are read and the inner loop is done. */
  ghost predicate SoFar(granularity: Option<nat>, total: nat, announced: seq<nat>, announcedBytes: nat) {
    match granularity
    case None => announced == [] && announcedBytes == 0
    case Some(g) =>
      if total == 0 then announced == [] && announcedBytes == 0
      else
        && g > 0 && announced == Multiples(g, |announced|)
        && announcedBytes == |announced| * g && announcedBytes <= total < announcedBytes + g
  }

  lemma LastAnnouncement(granularity: Option<nat>, total: nat, announced: seq<nat>, announcedBytes: nat)
    requires SoFar(granularity, total, announced, announcedBytes)
    requires total > 0 ==> granularity != Some(0)
    ensures Announcements(true, granularity, total) == announced + if announcedBytes != total then [total] else []
  {
    if total > 0 && granularity.Some? {
      QuotientIs(total, granularity.value, |announced|);
    }
  }

  /** The first multiples are none. */
  lemma NoMultiples(g: nat)
    ensures Multiples(g, 0) == []
  {
  }

  /** `checksum`, for every input on which it comes to an end: see `EndsIff`. */
  method Compute<D>(hash: Bytes -> D, pieces: seq<Bytes>, listening: bool, granularity: Option<nat>)
    returns (digest: D, announced: seq<nat>)
    requires !listening || granularity != Some(0) || BeforeEnd(pieces) == []
    ensures digest == hash(Flat(BeforeEnd(pieces)))
    ensures announced == Announcements(listening, granularity, |Flat(BeforeEnd(pieces))|)
  {
    var hashed: Bytes := [];
    var total, announcedBytes := 0, 0;
    announced := [];
    var i := 0;
    while i < |pieces| && pieces[i] != []
      invariant 0 <= i <= |BeforeEnd(pieces)| && hashed == Flat(pieces[..i]) && total == |hashed|
      invariant if listening then SoFar(granularity, total, announced, announcedBytes)
                else announced == [] && announcedBytes == 0
    {
      StillBeforeEnd(pieces, i);
      NextRead(pieces, i);
      hashed := hashed + pieces[i];
      total := total + |pieces[i]|;
      if listening && granularity.Some? {
        NoMultiples(granularity.value);
        announced, announcedBytes := AnnounceUpTo(total, granularity.value, announced, announcedBytes);
      }
      i := i + 1;
    }
    EndsBefore(pieces, i);
    if listening {
      NothingEnds(pieces);
      LastAnnouncement(granularity, total, announced, announcedBytes);
      if announcedBytes != total {
        announced := announced + [total];
      }
    }
    digest := hash(hashed);
  }

  lemma NextRead(pieces: seq<Bytes>, i: nat)
    requires i < |pieces|
    ensures Flat(pieces[..i + 1]) == Flat(pieces[..i]) + pieces[i]
  {
    assert pieces[..i + 1] == pieces[..i] + [pieces[i]];
    FlatAppend(pieces[..i], pieces[i]);
  }

  lemma NothingEnds(pieces: seq<Bytes>)
    ensures BeforeEnd(pieces) == [] ==> Flat(BeforeEnd(pieces)) == []
  {
  }

  lemma {:induction false} StillBeforeEnd(pieces: seq<Bytes>, i: nat)
    requires i < |pieces| && i <= |BeforeEnd(pieces)| && pieces[i] != []
    ensures i < |BeforeEnd(pieces)|
  {
    if i > 0 {
      StillBeforeEnd(pieces[1..], i - 1);
    }
  }

  lemma EndsBefore(pieces: seq<Bytes>, i: nat)
    requires i <= |BeforeEnd(pieces)| && (i == |pieces| || pieces[i] == [])
    ensures pieces[..i] == BeforeEnd(pieces)
  {
    var r := BeforeEnd(pieces);
    assert r == pieces[..|r|];
    assert |r| <= i;
  }

  // ----- When it comes to an end

  /** The loops of `checksum` as a machine. `Announcing` is the inner loop. */
  datatype Loop = Reading(next: nat, total: nat, announced: nat)
                | Announcing(next: nat, total: nat, announced: nat)
                | Finished

  function Turn(l: Loop, pieces: seq<Bytes>, listening: bool, granularity: Option<nat>): Loop {
    match l
    case Finished => Finished
    case Reading(next, total, announced) =>
      if next >= |pieces| || pieces[next] == [] then Finished
      else Announcing(next + 1, total + |pieces[next]|, announced)
    case Announcing(next, total, announced) =>
      if listening && granularity.Some? && announced + granularity.value <= total then
        Announcing(next, total, announced + granularity.value)
      else Reading(next, total, announced)
  }

  function Turns(l: Loop, pieces: seq<Bytes>, listening: bool, granularity: Option<nat>, n: nat): Loop
    decreases n
  {
    if n == 0 then l else Turns(Turn(l, pieces, listening, granularity), pieces, listening, granularity, n - 1)
  }

  const BEGIN := Reading(0, 0, 0)

  ghost predicate Ends(l: Loop, pieces: seq<Bytes>, listening: bool, granularity: Option<nat>) {
    exists n: nat :: Turns(l, pieces, listening, granularity, n) == Finished
  }

  /** The inner loop reaches a count at which it stops exactly when the granularity is not zero. */
  lemma InnerLoopEndsIff(total: nat, announced: nat, g: nat)
    requires announced <= total
    ensures (exists k: nat :: AfterRounds(announced, k, g) + g > total) <==> g > 0
  {
    if g > 0 {
      assert AfterRounds(announced, total, g) + g > total by {
        assert total * g >= total;
      }
    } else {
      forall k: nat
        ensures AfterRounds(announced, k, g) == announced
      {
      }
    }
  }

  function AfterRounds(announced: nat, k: nat, g: nat): nat {
    announced + k * g
  }

  lemma {:induction false} TurnsEnd(l: Loop, pieces: seq<Bytes>, listening: bool, granularity: Option<nat>) returns (n: nat)
    requires !listening || granularity != Some(0)
    requires !l.Finished? ==> l.next <= |pieces|
    ensures Turns(l, pieces, listening, granularity, n) == Finished
    decreases match l
              case Finished => 0
              case Reading(next, _, _) => 2 * (|pieces| - next) + 1
              case Announcing(next, _, _) => 2 * (|pieces| - next) + 2,
              if l.Announcing? && l.announced <= l.total then l.total - l.announced + 1 else 0
  {
    if l.Finished? {
      n := 0;
    } else {
      var m := TurnsEnd(Turn(l, pieces, listening, granularity), pieces, listening, granularity);
      n := m + 1;
    }
  }

  lemma {:induction false} StuckAnnouncing(l: Loop, pieces: seq<Bytes>, n: nat)
    requires l.Announcing? && l.announced <= l.total
    ensures Turns(l, pieces, true, Some(0), n) == l
  {
    if n > 0 {
      StuckAnnouncing(l, pieces, n - 1);
    }
  }

  /** `checksum` comes to an end exactly when nobody listens, or the granularity is not zero, or there is nothing
      to read. */
  lemma EndsIff(pieces: seq<Bytes>, listening: bool, granularity: Option<nat>)
    ensures Ends(BEGIN, pieces, listening, granularity)
       <==> !listening || granularity != Some(0) || BeforeEnd(pieces) == []
  {
    if !listening || granularity != Some(0) {
      var n := TurnsEnd(BEGIN, pieces, listening, granularity);
    } else if BeforeEnd(pieces) == [] {
      assert Turns(BEGIN, pieces, listening, granularity, 1) == Finished;
    } else {
      forall n: nat
        ensures Turns(BEGIN, pieces, listening, granularity, n) != Finished
      {
        if n > 0 {
          StuckAnnouncing(Turn(BEGIN, pieces, listening, granularity), pieces, n - 1);
        }
      }
    }
  }

  /** One byte, someone who listens and a granularity of zero: no number of turns is enough. */
  lemma ZeroGranularityNeverEnds(n: nat)
    ensures Turns(BEGIN, [[7]], true, Some(0), n) != Finished
  {
    EndsIff([[7]], true, Some(0));
    assert BeforeEnd([[7]]) != [];
  }

  /** Someone who listens hears strictly rising values, at most a granularity apart, that end at the total. */
  lemma AnnouncementsCover(granularity: nat, total: nat)
    requires granularity > 0 && total > 0
    ensures var a := Announcements(true, Some(granularity), total);
            && a != [] && a[|a| - 1] == total
            && 0 < a[0] <= granularity
            && forall i :: 0 < i < |a| ==> 0 < a[i] - a[i - 1] <= granularity
  {
    var q := total / granularity;
    assert total == q * granularity + total % granularity;
    var a := Announcements(true, Some(granularity), total);
    forall i | 0 < i < |a|
      ensures 0 < a[i] - a[i - 1] <= granularity
    {
      assert i * granularity + granularity == (i + 1) * granularity;
    }
    if q == 0 {
      assert a == [total];
    } else {
      assert a[0] == granularity;
    }
  }

  /** What is announced is the multiples of the granularity, one after the other, and last the total when it is none;
      without a granularity the total alone; to nobody, or of nothing, nothing. */
  lemma AnnouncedValues(granularity: nat, total: nat, i: nat)
    requires granularity > 0 && total > 0
    ensures var a := Announcements(true, Some(granularity), total);
            i < |a| ==> a[i] == (if i < total / granularity then (i + 1) * granularity else total)
    ensures |Announcements(true, Some(granularity), total)|
         == total / granularity + if total % granularity == 0 then 0 else 1
    ensures Announcements(true, None, total) == [total]
    ensures Announcements(false, Some(granularity), total) == [] && Announcements(true, Some(granularity), 0) == []
  {
  }
}
