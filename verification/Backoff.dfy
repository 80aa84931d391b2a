/** The waits of the connect loop. */
module Backoff {
  import opened Sequences

  datatype Attempt = NoContext | OpenFailed | Opened

  const MAX_RETRIES := 5

  function Pow2(n: nat): (p: nat)
    ensures p >= 1
  {
    if n == 0 then 1 else 2 * Pow2(n - 1)
  }

  function FailuresIn(s: seq<Attempt>): nat {
    Count(s, OpenFailed)
  }

  /** Seconds scheduled after `n` failed opens. */
  function TotalWait(n: nat): nat {
    93 * (n / 7) + Pow2(n % 7) - 1
  }

  lemma Powers()
    ensures Pow2(1) == 2 && Pow2(2) == 4 && Pow2(3) == 8 && Pow2(4) == 16 && Pow2(5) == 32 && Pow2(6) == 64
  {
    assert Pow2(3) == 2 * Pow2(2);
    assert Pow2(5) == 2 * Pow2(4);
  }

  /** The retry counter after these attempts. */
  function Retry(s: seq<Attempt>): nat {
    if s == [] then 0
    else if Last(s) != OpenFailed then Retry(Init(s))
    else if Retry(Init(s)) > MAX_RETRIES then 0
    else Retry(Init(s)) + 1
  }

  function WaitAfter(a: Attempt, retry: nat): seq<nat> {
    match a
    case NoContext => [1]
    case OpenFailed => [FailureWait(retry)]
    case Opened => []
  }

  /** The seconds of every scheduled wait, in order. */
  function Waits(s: seq<Attempt>): seq<nat> {
    if s == [] then [] else Waits(Init(s)) + WaitAfter(Last(s), Retry(Init(s)))
  }

  lemma NextMod7(n: nat)
    ensures (n + 1) % 7 == (if n % 7 == 6 then 0 else n % 7 + 1)
    ensures (n + 1) / 7 == (if n % 7 == 6 then n / 7 + 1 else n / 7)
  {
    var q, r := n / 7, n % 7;
    if r == 6 {
      assert n + 1 == 7 * (q + 1);
    } else {
      assert n + 1 == 7 * q + (r + 1);
    }
  }

  lemma {:induction false} RetryIsFailuresMod7(s: seq<Attempt>)
    ensures Retry(s) == FailuresIn(s) % 7
  {
    if s != [] {
      RetryIsFailuresMod7(Init(s));
      NextMod7(FailuresIn(Init(s)));
    }
  }

  /** The wait of the `n`th failed open, summed. */
  function Scheduled(n: nat): nat {
    if n == 0 then 0 else Scheduled(n - 1) + FailureWait((n - 1) % 7)
  }

  function FailureWait(retry: nat): nat {
    if retry > MAX_RETRIES then 30 else Pow2(retry)
  }

  lemma TotalStep(n: nat)
    ensures TotalWait(n + 1) == TotalWait(n) + FailureWait(n % 7)
  {
    NextMod7(n);
    Powers();
    var r := n % 7;
    if r < 6 {
      assert Pow2(r + 1) == 2 * Pow2(r);
    }
  }

  lemma {:induction false} ScheduledClosedForm(n: nat)
    ensures Scheduled(n) == TotalWait(n)
  {
    if n > 0 {
      ScheduledClosedForm(n - 1);
      TotalStep(n - 1);
    }
  }

  lemma {:induction false} WaitsAreScheduled(s: seq<Attempt>)
    ensures Sum(Waits(s)) == Scheduled(FailuresIn(s)) + Count(s, NoContext)
  {
    if s != [] {
      var before, a := Init(s), Last(s);
      WaitsAreScheduled(before);
      RetryIsFailuresMod7(before);
      SumAdded(Waits(before), WaitAfter(a, Retry(before)));
      OneMore(FailuresIn(before), a);
    }
  }

  lemma OneMore(n: nat, a: Attempt)
    ensures var wait := WaitAfter(a, n % 7);
            && |wait| <= 1
            && Scheduled(if a == OpenFailed then n + 1 else n) + (if a == NoContext then 1 else 0)
               == Scheduled(n) + (if wait == [] then 0 else wait[0])
  {
  }

  /** A missing context waits one second and is no retry; the failed opens wait the closed form of their number. */
  lemma WaitsClosedForm(s: seq<Attempt>)
    ensures Sum(Waits(s)) == TotalWait(FailuresIn(s)) + Count(s, NoContext)
  {
    WaitsAreScheduled(s);
    ScheduledClosedForm(FailuresIn(s));
  }

  lemma SumAdded(waits: seq<nat>, added: seq<nat>)
    requires |added| <= 1
    ensures Sum(waits + added) == Sum(waits) + (if added == [] then 0 else added[0])
  {
    if added == [] {
      assert waits + added == waits;
    } else {
      assert Init(waits + added) == waits;
    }
  }

  /** One wait per attempt that did not open. */
  lemma {:induction false} OneWaitEach(s: seq<Attempt>)
    ensures |Waits(s)| == FailuresIn(s) + Count(s, NoContext)
  {
    if s != [] {
      OneWaitEach(Init(s));
    }
  }

  /** No wait is longer than 32 seconds. */
  lemma {:induction false} WaitsAtMost32(s: seq<Attempt>)
    ensures forall w | w in Waits(s) :: w <= 32
  {
    if s != [] {
      WaitsAtMost32(Init(s));
      RetryIsFailuresMod7(Init(s));
      Powers();
    }
  }

  /**
   * The connect loop over the outcomes of its attempts, until one opens or they end, as a stop request ends them.
   * The counter is the number of failed opens modulo 7, the scheduled waits sum to the closed form, and none is
   * longer than 32 seconds.
   */
  method ConnectLoop(attempts: seq<Attempt>) returns (used: nat, currentRetry: nat, waits: seq<nat>, connected: bool)
    ensures used <= |attempts| && connected == (Opened in attempts)
    ensures connected ==> used > 0 && attempts[used - 1] == Opened && Opened !in attempts[..used - 1]
    ensures !connected ==> used == |attempts|
    ensures currentRetry == FailuresIn(attempts[..used]) % 7
    ensures Sum(waits) == TotalWait(FailuresIn(attempts[..used])) + Count(attempts[..used], NoContext)
    ensures forall w | w in waits :: w <= 32
  {
    used, currentRetry, waits, connected := 0, 0, [], false;
    while used < |attempts| && !connected
      invariant used <= |attempts|
      invariant connected ==> used > 0 && attempts[used - 1] == Opened && Opened !in attempts[..used - 1]
      invariant !connected ==> Opened !in attempts[..used]
      invariant currentRetry == Retry(attempts[..used])
      invariant waits == Waits(attempts[..used])
      decreases |attempts| - used, !connected
    {
      assert Init(attempts[..used + 1]) == attempts[..used];
      match attempts[used] {
        case NoContext => waits := waits + [1];
        case Opened => connected := true;
        case OpenFailed =>
          if currentRetry > MAX_RETRIES {
            waits := waits + [30];
            currentRetry := 0;
          } else {
            waits := waits + [Pow2(currentRetry)];
            currentRetry := currentRetry + 1;
          }
      }
      used := used + 1;
    }
    assert attempts[..|attempts|] == attempts;
    RetryIsFailuresMod7(attempts[..used]);
    WaitsClosedForm(attempts[..used]);
    WaitsAtMost32(attempts[..used]);
  }
}
