/** The retrying transport, sendHTTPRequest: every request to the DNS provider
    is attempted up to three times, sleeping with exponential backoff plus
    jitter between a failed attempt and the next. Durations are Go
    time.Duration values, in nanoseconds. */
module Transport {
  import opened Wrappers
  import opened Errors

  const MaxRetries: nat := 3
  const Second: nat := 1_000_000_000
  const InitialDelay: nat := 1 * Second
  const MaxDelay: nat := 30 * Second

  /** The base delay doubled (delayFactor 2.0) and capped at MaxDelay. */
  function Grow(d: nat): nat
  {
    if 2 * d > MaxDelay then MaxDelay else 2 * d
  }

  /** The jitter, round(d * 0.1) (jitterFactor 0.1), taken before the delay
      grows; see JitterIsExact for why integer division is exact here. */
  function Jitter(d: nat): nat
  {
    d / 10
  }

  /** The base delay after it has grown n times. */
  function DelayAfter(n: nat): nat
  {
    if n == 0 then InitialDelay else Grow(DelayAfter(n - 1))
  }

  /** The sleep that follows the (k+1)-th failed attempt. */
  function Pause(k: nat): nat
  {
    Grow(DelayAfter(k)) + Jitter(DelayAfter(k))
  }

  /** The sleeps taken after n failed attempts that were each followed by
      another attempt. */
  function Schedule(n: nat): (s: seq<nat>)
    ensures |s| == n
  {
    if n == 0 then [] else Schedule(n - 1) + [Pause(n - 1)]
  }

  function Pow2(n: nat): nat
  {
    if n == 0 then 1 else 2 * Pow2(n - 1)
  }

  function Min(a: int, b: int): int
  {
    if a <= b then a else b
  }

  /** Closed form of the base delay: 2^n seconds, capped at 30 seconds. */
  lemma {:induction false} DelayClosedForm(n: nat)
    ensures DelayAfter(n) == Min(Pow2(n) * Second, MaxDelay)
  {
    if n > 0 {
      DelayClosedForm(n - 1);
      assert Pow2(n) * Second == 2 * (Pow2(n - 1) * Second);
    }
  }

  /** The base delay stays between one and thirty seconds, in whole seconds. */
  lemma {:induction false} DelayBounds(n: nat)
    ensures InitialDelay <= DelayAfter(n) <= MaxDelay
    ensures DelayAfter(n) % Second == 0
  {
    if n > 0 {
      DelayBounds(n - 1);
      var d := DelayAfter(n - 1);
      var q := d / Second;
      assert d == q * Second;
      assert 2 * d == (2 * q) * Second;
    }
  }

  /** Every reachable delay is a multiple of ten nanoseconds, so the integer
      jitter equals the exact product delay * 0.1, and Go's math.Round has
      nothing to round. */
  lemma JitterIsExact(n: nat)
    ensures Jitter(DelayAfter(n)) as real == DelayAfter(n) as real * 0.1
  {
    DelayBounds(n);
    var d := DelayAfter(n);
    var q := d / Second;
    assert d == (q * 100_000_000) * 10;
  }

  /** Each sleep is the grown delay plus a tenth of the previous one, so no
      sleep exceeds 33 seconds. */
  lemma PauseBound(k: nat)
    ensures Pause(k) == DelayAfter(k + 1) + DelayAfter(k) / 10
    ensures Pause(k) <= MaxDelay + MaxDelay / 10
  {
    DelayBounds(k);
  }

  /** With three attempts the sleeps are 2.1 s and then 4.2 s. */
  lemma ScheduleOfThreeAttempts()
    ensures Schedule(MaxRetries - 1) == [2_100_000_000, 4_200_000_000]
  {
    assert DelayAfter(1) == 2 * Second;
    assert Schedule(1) == [2_100_000_000];
  }

  /** sendHTTPRequest. outcome(k) is what client.Do returns on attempt k + 1:
      Some(response) when the transport delivered a response (whatever its
      status code), None on a transport error. Besides the result, the method
      returns how many attempts it made and the durations it slept. */
  method Send<R>(outcome: nat -> Option<R>) returns (r: Result<R, Error>, attempts: nat, sleeps: seq<nat>)
    ensures 1 <= attempts <= MaxRetries
    ensures forall k :: 0 <= k < attempts - 1 ==> outcome(k).None?
    ensures r.Success? <==> outcome(attempts - 1).Some?
    ensures r.Success? ==> r.value == outcome(attempts - 1).value
    ensures r.Failure? <==> forall k :: 0 <= k < MaxRetries ==> outcome(k).None?
    ensures r.Failure? ==> attempts == MaxRetries && r.error == RequestFailed(MaxRetries)
    ensures sleeps == Schedule(attempts - 1)
  {
    var delay := InitialDelay;
    sleeps := [];
    var attempt := 1;
    while attempt <= MaxRetries
      invariant 1 <= attempt <= MaxRetries + 1
      invariant forall k :: 0 <= k < attempt - 1 ==> outcome(k).None?
      invariant |sleeps| == Min(attempt - 1, MaxRetries - 1)
      invariant sleeps == Schedule(|sleeps|)
      invariant delay == DelayAfter(|sleeps|)
    {
      var response := outcome(attempt - 1);
      if response.Some? {
        return Success(response.value), attempt, sleeps;
      }
      if attempt < MaxRetries {
        var jitter := delay / 10;
        delay := 2 * delay;
        if delay > MaxDelay {
          delay := MaxDelay;
        }
        sleeps := sleeps + [delay + jitter];
      }
      attempt := attempt + 1;
    }
    return Failure(RequestFailed(MaxRetries)), MaxRetries, sleeps;
  }

  /** A request whose first two attempts fail and whose third gets through is
      answered with that response, after sleeps of 2.1 s and 4.2 s. */
  method ThirdAttemptSucceeds<R>(response: R) returns (r: Result<R, Error>, attempts: nat, sleeps: seq<nat>)
    ensures r == Success(response) && attempts == 3
    ensures sleeps == [2_100_000_000, 4_200_000_000]
  {
    r, attempts, sleeps := Send((k: nat) => if k < 2 then None else Some(response));
    ScheduleOfThreeAttempts();
  }

  /** A request whose every attempt fails gives up after three attempts. */
  method EveryAttemptFails<R>() returns (r: Result<R, Error>, attempts: nat, sleeps: seq<nat>)
    ensures r == Failure(RequestFailed(3)) && attempts == 3
    ensures sleeps == [2_100_000_000, 4_200_000_000]
  {
    r, attempts, sleeps := Send((k: nat) => None);
    ScheduleOfThreeAttempts();
  }
}
