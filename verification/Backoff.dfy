/** The pauses between connection attempts: doubling, and endless once the retries are used up, until the
    network is refreshed. */
module Backoff {
  import opened Base

  const FIRST_RETRY_AFTER: nat := 1

  function Pow2(n: nat): (r: nat)
    ensures r > 0
  {
    if n == 0 then 1 else 2 * Pow2(n - 1)
  }

  /** The pause chosen with `retry` attempts made before; `None` lasts until the next refresh. */
  function Pause(retry: nat, retries: nat): Option<nat> {
    if retry + 1 < retries then Some(FIRST_RETRY_AFTER * Pow2(retry)) else None
  }

  class RetryTrigger {
    var retry: nat
    const retries: nat

    constructor (retries: nat)
      ensures this.retries == retries && retry == 0
    {
      this.retries, retry := retries, 0;
    }

    /** `backoff`: `refreshed` tells whether a refresh came before the pause was over. The count is cleared by a
        refresh and otherwise goes up. */
    method Backoff(refreshed: bool) returns (pause: Option<nat>)
      requires Pause(retry, retries).None? ==> refreshed
      modifies this
      ensures pause == Pause(old(retry), retries)
      ensures retry == if refreshed then 0 else old(retry) + 1
      ensures retry == 0 || retry < retries
      ensures pause.Some? ==> pause.value < Pow2(retries)
    {
      if retry + 1 < retries {
        pause := Some(FIRST_RETRY_AFTER * Pow2(retry));
        Pow2Monotone(retry + 1, retries);
      } else {
        pause := None;
      }
      retry := if refreshed then 0 else retry + 1;
    }

    /** The pauses after a refresh when no other comes: as many as it takes to use up the retries. */
    method PausesUntilStuck() returns (pauses: seq<nat>)
      requires retry == 0
      modifies this
      ensures pauses == PausesFrom(0, retries)
      ensures Pause(retry, retries).None?
    {
      pauses := [];
      while retry + 1 < retries
        invariant PausesFrom(0, retries) == pauses + PausesFrom(retry, retries)
        decreases retries - retry
      {
        var pause := Backoff(false);
        pauses := pauses + [pause.value];
      }
    }
  }

  function PausesFrom(retry: nat, retries: nat): seq<nat>
    decreases retries - retry
  {
    if Pause(retry, retries).None? then [] else [Pause(retry, retries).value] + PausesFrom(retry + 1, retries)
  }

  function Sum(xs: seq<nat>): nat {
    if xs == [] then 0 else xs[0] + Sum(xs[1..])
  }

  lemma {:induction false} PausesDouble(retry: nat, retries: nat)
    ensures var p := PausesFrom(retry, retries);
            && |p| == (if retry + 1 < retries then retries - 1 - retry else 0)
            && (forall i :: 0 <= i < |p| ==> p[i] == Pow2(retry + i))
            && Sum(p) == Pow2(retry + |p|) - Pow2(retry)
    decreases retries - retry
  {
    if retry + 1 < retries {
      PausesDouble(retry + 1, retries);
      var p, rest := PausesFrom(retry, retries), PausesFrom(retry + 1, retries);
      assert p[1..] == rest;
      forall i | 0 <= i < |p|
        ensures p[i] == Pow2(retry + i)
      {
        if i > 0 {
          assert p[i] == rest[i - 1];
        }
      }
    }
  }

  /** Between two refreshes there are `max(1, retries)` attempts, one before each pause, and the pauses are
      1, 2, 4, ... seconds, together `2^(retries - 1) - 1`. */
  lemma AttemptsAndPauses(retries: nat)
    ensures var p := PausesFrom(0, retries);
            && |p| + 1 == (if retries > 1 then retries else 1)
            && (forall i :: 0 <= i < |p| ==> p[i] == Pow2(i))
            && (retries > 0 ==> Sum(p) == Pow2(retries - 1) - 1)
  {
    PausesDouble(0, retries);
  }

  lemma {:induction false} Pow2Monotone(m: nat, n: nat)
    requires m <= n
    ensures Pow2(m) <= Pow2(n)
  {
    if m < n {
      Pow2Monotone(m, n - 1);
    }
  }

  lemma {:induction false} PausesBelow(retries: nat, top: nat)
    ensures (forall i :: 0 <= i < |PausesFrom(0, retries)| ==> PausesFrom(0, retries)[i] < Pow2(top)) <==> retries <= top + 1
  {
    AttemptsAndPauses(retries);
    PowersBelow(PausesFrom(0, retries), top);
  }

  lemma {:induction false} PowersBelow(p: seq<nat>, top: nat)
    requires forall i :: 0 <= i < |p| ==> p[i] == Pow2(i)
    ensures (forall i :: 0 <= i < |p| ==> p[i] < Pow2(top)) <==> |p| <= top
  {
    if |p| > top {
      assert p[top] == Pow2(top);
    } else {
      forall i | 0 <= i < |p|
        ensures p[i] < Pow2(top)
      {
        Pow2Monotone(i + 1, top);
      }
    }
  }

  /** The pauses are computed by shifting a 32-bit one: no shift leaves its range exactly for up to 33 retries. */
  lemma {:induction false} ShiftsFitIff(retries: nat)
    ensures (forall i :: 0 <= i < |PausesFrom(0, retries)| ==> PausesFrom(0, retries)[i] < 0x1_0000_0000) <==> retries <= 33
  {
    PowerOf32();
    PausesBelow(retries, 32);
  }

  lemma PowerOf32()
    ensures Pow2(32) == 0x1_0000_0000
  {
    assert Pow2(8) == 256;
    assert Pow2(16) == 65536;
    assert Pow2(24) == 16777216;
  }
}
