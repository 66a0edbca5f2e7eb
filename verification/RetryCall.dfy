/** One endpoint call with bounded exponential retry: how often it asks the limiter, when it stops,
    and how long it backs off. */
module RetryCall {
  const MAX_RETRIES: nat := 3
  const BASE_BACKOFF: real := 1.0

  datatype Kind = Timeout | Connection | Os | RateLimitExceeded | DDoSProtection | Network | OtherKind

  // An exception: its class, and whether its text mentions the rate-limit code 50011.
  datatype Exn = Exn(kind: Kind, mentionsRateLimit: bool)

  predicate Retryable(e: Exn) {
    e.mentionsRateLimit || e.kind != OtherKind
  }

  // How one attempt (a slot from the limiter, then the request under its timeout) ends.
  datatype Attempt = Returned(value: int) | Raised(e: Exn) | Cancelled

  datatype Outcome = Value(value: int) | Failed(e: Exn) | Exhausted(last: Exn) | WasCancelled

  // An attempt that is tried again: a network-class error, or one whose text has the rate-limit code.
  ghost predicate Transient(a: Attempt) {
    && a.Raised?
    && (a.e.mentionsRateLimit ||
        a.e.kind in {Timeout, Connection, Os, RateLimitExceeded, DDoSProtection, Network})
  }

  lemma DecisiveIs(a: Attempt)
    ensures Decisive(a) <==> !Transient(a)
  {
  }

  predicate Decisive(a: Attempt) {
    !(a.Raised? && Retryable(a.e))
  }

  // The first attempt that ends the call, or |attempts| when all of them are retryable failures.
  function FirstDecisive(attempts: seq<Attempt>): (k: nat)
    ensures k <= |attempts|
    ensures forall i :: 0 <= i < k ==> !Decisive(attempts[i])
    ensures k < |attempts| ==> Decisive(attempts[k])
  {
    if attempts == [] || Decisive(attempts[0]) then 0 else 1 + FirstDecisive(attempts[1..])
  }

  // The delays slept before the first n retries: base, doubled each time, plus up to a tenth of jitter.
  function Slept(base: real, jitter: seq<real>, n: nat): real
    requires n <= |jitter|
  {
    if n == 0 then 0.0 else Slept(base, jitter, n - 1) + Dithered(Delay(base, n - 1), jitter[n - 1])
  }

  function Dithered(delay: real, u: real): real {
    delay * (1.0 + 0.1 * u)
  }

  function Delay(base: real, n: nat): real {
    if n == 0 then base else 2.0 * Delay(base, n - 1)
  }

  function Pow2(n: nat): nat {
    if n == 0 then 1 else 2 * Pow2(n - 1)
  }

  function Verdict(a: Attempt): Outcome
    requires Decisive(a)
  {
    match a
    case Returned(v) => Value(v)
    case Raised(e) => Failed(e)
    case Cancelled => WasCancelled
  }

  // What the environment does is given: how each attempt would end, the uniform draws in [0, 1], and the
  // first back-off sleep to be cancelled, if it is slept (maxRetries when none is).
  method Call(maxRetries: nat, base: real, attempts: seq<Attempt>, jitter: seq<real>, cut: nat)
    returns (outcome: Outcome, acquired: nat, slept: real)
    requires |attempts| == maxRetries + 1 && |jitter| == maxRetries
    ensures var k := FirstDecisive(attempts);
            && 1 <= acquired <= maxRetries + 1
            && slept == Slept(base, jitter, acquired - 1)
            && (cut < k && cut < maxRetries ==> acquired == cut + 1 && outcome == WasCancelled)
            && (!(cut < k && cut < maxRetries) && k <= maxRetries ==>
              acquired == k + 1 && outcome == Verdict(attempts[k]))
            && (!(cut < k && cut < maxRetries) && k > maxRetries ==>
                  acquired == maxRetries + 1 && outcome == Exhausted(attempts[maxRetries].e))
    ensures forall i :: 0 <= i < acquired - 1 ==> Transient(attempts[i])
    ensures var last := attempts[acquired - 1];
            outcome == if Transient(last) then if acquired > maxRetries then Exhausted(last.e) else WasCancelled
                       else match last
                         case Returned(v) => Value(v)
                         case Raised(e) => Failed(e)
                         case Cancelled => WasCancelled
    ensures outcome == WasCancelled && Transient(attempts[acquired - 1]) ==> cut == acquired - 1
    ensures cut >= acquired - 1
  {
    var delay := base;
    acquired, slept := 0, 0.0;
    for attempt := 0 to maxRetries + 1
      invariant acquired == attempt <= maxRetries
      invariant slept == Slept(base, jitter, attempt) && delay == Delay(base, attempt)
      invariant forall i :: 0 <= i < attempt ==> !Decisive(attempts[i])
      invariant cut >= attempt
    {
      acquired := acquired + 1;
      match attempts[attempt]
      case Returned(v) => return Value(v), acquired, slept;
      case Cancelled => return WasCancelled, acquired, slept;
      case Raised(e) =>
        if !Retryable(e) { return Failed(e), acquired, slept; }
        if attempt >= maxRetries { return Exhausted(e), acquired, slept; }
        if attempt == cut { return WasCancelled, acquired, slept; }
        slept := slept + Dithered(delay, jitter[attempt]);
        delay := delay * 2.0;
    }
    assert false;
  }

  /** Each retry waits twice as long as the one before it, and up to a tenth more as its draw says. */
  lemma SleptStep(base: real, jitter: seq<real>, n: nat)
    requires n < |jitter|
    ensures Slept(base, jitter, 0) == 0.0
    ensures Slept(base, jitter, n + 1) ==
            Slept(base, jitter, n) + (base * (Pow2(n) as real)) * (1.0 + 0.1 * jitter[n])
    ensures Pow2(0) == 1 && Pow2(n + 1) == 2 * Pow2(n)
  {
    DelayIs(base, n);
    hide Delay;
  }

  lemma {:induction false} DelayIs(base: real, n: nat)
    ensures Delay(base, n) == base * (Pow2(n) as real)
  {
    if n > 0 {
      DelayIs(base, n - 1);
      assert 2.0 * (base * (Pow2(n - 1) as real)) == base * (2.0 * (Pow2(n - 1) as real));
    }
  }

  lemma {:induction false} DelayPositive(base: real, n: nat)
    requires base > 0.0
    ensures Delay(base, n) > 0.0
  {
    if n > 0 {
      DelayPositive(base, n - 1);
    }
  }

  // The undithered delays of the first n retries.
  function Nominal(base: real, n: nat): real {
    if n == 0 then 0.0 else Nominal(base, n - 1) + Delay(base, n - 1)
  }

  lemma {:induction false} NominalIs(base: real, n: nat)
    ensures Nominal(base, n) == Delay(base, n) - base
  {
    if n > 0 {
      NominalIs(base, n - 1);
    }
  }

  lemma DitheredRange(d: real, u: real)
    requires d > 0.0 && 0.0 <= u <= 1.0
    ensures d <= Dithered(d, u) <= 1.1 * d
  {
    assert d * u >= 0.0 && d * (1.0 - u) >= 0.0;
    assert d * (1.0 + 0.1 * u) == d + 0.1 * (d * u);
    assert d * (1.0 - u) == d - d * u;
  }

  lemma {:induction false} SleptRange(base: real, jitter: seq<real>, n: nat)
    requires base > 0.0 && n <= |jitter| && forall i :: 0 <= i < |jitter| ==> 0.0 <= jitter[i] <= 1.0
    ensures Nominal(base, n) <= Slept(base, jitter, n) <= 1.1 * Nominal(base, n)
  {
    if n > 0 {
      SleptRange(base, jitter, n - 1);
      DelayPositive(base, n - 1);
      DitheredRange(Delay(base, n - 1), jitter[n - 1]);
      hide Dithered, Delay;
    }
  }

  /** After n retries the sleeps total between base * (2^n - 1) and 1.1 times that; a call that
      exhausts its retries has slept for n = maxRetries of them. */
  lemma BackoffTotal(base: real, jitter: seq<real>, n: nat)
    requires base > 0.0 && n <= |jitter| && forall i :: 0 <= i < |jitter| ==> 0.0 <= jitter[i] <= 1.0
    ensures base * ((Pow2(n) - 1) as real) <= Slept(base, jitter, n) <= 1.1 * (base * ((Pow2(n) - 1) as real))
  {
    SleptRange(base, jitter, n);
    NominalIs(base, n);
    DelayIs(base, n);
    assert base * ((Pow2(n) - 1) as real) == base * (Pow2(n) as real) - base;
  }

  /** The module's own figures: 7 to 7.7 seconds in all; each delay at most 4 before its jitter, and
      the third exceeds that documented cap exactly when its jitter is not zero. */
  lemma DefaultBackoff(jitter: seq<real>)
    requires |jitter| == MAX_RETRIES && forall i :: 0 <= i < |jitter| ==> 0.0 <= jitter[i] <= 1.0
    ensures 7.0 <= Slept(BASE_BACKOFF, jitter, MAX_RETRIES) <= 7.7
    ensures forall n :: 0 <= n < MAX_RETRIES ==> Delay(BASE_BACKOFF, n) <= 4.0
    ensures Dithered(Delay(BASE_BACKOFF, 2), jitter[2]) > 4.0 <==> jitter[2] > 0.0
  {
    BackoffTotal(BASE_BACKOFF, jitter, MAX_RETRIES);
    assert Pow2(3) == 8 by { assert Pow2(1) == 2 && Pow2(2) == 4; }
    assert Delay(BASE_BACKOFF, 0) == 1.0 && Delay(BASE_BACKOFF, 1) == 2.0 && Delay(BASE_BACKOFF, 2) == 4.0;
  }
}
