/**
The client-side retry of transient gRPC failures, with capped exponential backoff and full jitter.

The outcome of the i-th call, whether the caller's context ends during the i-th wait, and the jitter
are arbitrary functions of i. Delays are in seconds, as reals.
*/
module Retry {
  datatype Code =
    | Canceled | Unknown | InvalidArgument | DeadlineExceeded | NotFound | AlreadyExists | PermissionDenied
    | ResourceExhausted | FailedPrecondition | Aborted | OutOfRange | Unimplemented | Internal | Unavailable
    | DataLoss | Unauthenticated

  datatype Outcome = Success | Failure(code: Code)

  /** What the interceptor returns: a call's own outcome, or the context's error. */
  datatype Verdict = FromCall(outcome: Outcome) | ContextEnded

  predicate IsTransient(code: Code) {
    match code
    case Unavailable | DeadlineExceeded | ResourceExhausted | Aborted => true
    case _ => false
  }

  /** The four codes that may go away by themselves. */
  lemma TransientCodes(code: Code)
    ensures IsTransient(code) <==> code in {Unavailable, DeadlineExceeded, ResourceExhausted, Aborted}
  {
  }

  /** The call should be tried again. */
  predicate Again(o: Outcome) {
    o.Failure? && IsTransient(o.code)
  }

  const MAX_DELAY := 10.0

  function Pow2(k: nat): (p: real)
    ensures p >= 1.0
  {
    if k == 0 then 1.0 else 2.0 * Pow2(k - 1)
  }

  /** The longest delay before a retry; it is negative if the base is. */
  function Cap(base: real, attempt: nat): real {
    var d := base * Pow2(attempt);
    if d > MAX_DELAY then MAX_DELAY else d
  }

  /** backoffWithJitter: a fraction of the cap. */
  function Backoff(base: real, attempt: nat, fraction: real): real {
    Cap(base, attempt) * fraction
  }

  /** A timer of no or negative length fires at once. */
  function Positive(d: real): real {
    if d < 0.0 then 0.0 else d
  }

  lemma Scaled(x: real, f: real)
    requires f >= 0.0
    ensures x >= 0.0 ==> x * f >= 0.0
    ensures x <= 0.0 ==> x * f <= 0.0
    ensures x >= 0.0 && f <= 1.0 ==> x * f <= x
  {
  }

  lemma BackoffWithinCap(base: real, attempt: nat, fraction: real)
    requires 0.0 <= fraction < 1.0
    ensures 0.0 <= Positive(Backoff(base, attempt, fraction)) <= Positive(Cap(base, attempt)) <= MAX_DELAY
  {
  }

  /** The base, doubled n times. */
  function Grown(base: real, n: nat): real {
    if n == 0 then base else 2.0 * Grown(base, n - 1)
  }

  lemma {:induction false} GrownIs(base: real, n: nat)
    ensures Grown(base, n) == base * Pow2(n)
  {
    if n == 0 {
    } else {
      var p := Pow2(n - 1);
      GrownIs(base, n - 1);
      assert base * (2.0 * p) == 2.0 * (base * p);
    }
  }

  lemma Quotient(d: real, cap: real)
    requires 0.0 <= d < cap
    ensures 0.0 <= d / cap < 1.0 && cap * (d / cap) == d
  {
  }

  lemma Fraction(cap: real, f: real)
    requires cap > 0.0 && 0.0 <= f < 1.0
    ensures 0.0 <= cap * f < cap
  {
  }

  lemma Product(x: real, y: real)
    requires x > 0.0 && y > 0.0
    ensures x * y > 0.0
  {
  }

  lemma CapIs(base: real, attempt: nat)
    requires base > 0.0
    ensures 0.0 < Cap(base, attempt) == if Grown(base, attempt) < 10.0 then Grown(base, attempt) else 10.0
  {
    GrownIs(base, attempt);
    Product(base, Pow2(attempt));
  }

  ghost predicate CanWait(base: real, attempt: nat, d: real) {
    exists f: real :: 0.0 <= f < 1.0 && Backoff(base, attempt, f) == d
  }

  lemma Waits(base: real, attempt: nat, d: real)
    requires 0.0 <= d < Cap(base, attempt)
    ensures CanWait(base, attempt, d)
  {
    var cap := Cap(base, attempt);
    var f := d / cap;
    Quotient(d, cap);
    assert Backoff(base, attempt, f) == d;
  }

  lemma WaitsWithin(base: real, attempt: nat, d: real)
    requires 0.0 < Cap(base, attempt) && CanWait(base, attempt, d)
    ensures 0.0 <= d < Cap(base, attempt)
  {
    var f: real :| 0.0 <= f < 1.0 && Backoff(base, attempt, f) == d;
    Fraction(Cap(base, attempt), f);
  }

  /** Full jitter: with a positive base, the delays that can come out are exactly those from zero up to, and
      not including, the base doubled with each attempt, or ten seconds if that is less. */
  lemma FullJitter(base: real, attempt: nat, d: real)
    requires base > 0.0
    ensures CanWait(base, attempt, d) <==> 0.0 <= d < Grown(base, attempt) && d < 10.0
  {
    CapIs(base, attempt);
    var cap := Cap(base, attempt);
    if CanWait(base, attempt, d) { WaitsWithin(base, attempt, d); }
    if 0.0 <= d < cap { Waits(base, attempt, d); }
  }

  /** The caps of the first n waits, added up. */
  function Budget(base: real, n: nat): real {
    if n == 0 then 0.0 else Budget(base, n - 1) + Positive(Cap(base, n - 1))
  }

  /** The waits before attempts 1..n, added up. */
  function Waited(base: real, n: nat, jitter: nat -> real): real {
    if n == 0 then 0.0 else Waited(base, n - 1, jitter) + Positive(Backoff(base, n - 1, jitter(n - 1)))
  }

  /** The contract of the interceptor, without saying how it loops: `calls` calls were made and `v`
      came back. Every call but the last failed transiently and was followed by a full wait; the last
      one's outcome came back unless the context ended in the wait after it. */
  ghost predicate Returns(maxRetries: int, outcome: nat -> Outcome, ended: nat -> bool, calls: nat, v: Verdict) {
    if maxRetries < 0 then calls == 0 && v == FromCall(Success)
    else
      && 1 <= calls <= maxRetries + 1
      && (forall i: nat :: i < calls - 1 ==> Again(outcome(i)) && !ended(i))
      && (match v
          case FromCall(o) => o == outcome(calls - 1) && (Again(o) ==> calls == maxRetries + 1)
          case ContextEnded => Again(outcome(calls - 1)) && ended(calls - 1) && calls <= maxRetries)
  }

  /** The loop has a reason to stop after its i-th call. */
  predicate Stops(maxRetries: int, outcome: nat -> Outcome, ended: nat -> bool, i: nat) {
    !Again(outcome(i)) || ended(i) || i >= maxRetries
  }

  /** The number of calls is the first reason to stop, counted from one. */
  lemma FirstStop(maxRetries: nat, outcome: nat -> Outcome, ended: nat -> bool, calls: nat, v: Verdict)
    requires Returns(maxRetries, outcome, ended, calls, v)
    ensures calls > 0 && Stops(maxRetries, outcome, ended, calls - 1)
    ensures forall i: nat :: i < calls - 1 ==> !Stops(maxRetries, outcome, ended, i)
  {
  }

  /** The contract leaves no choice: it fixes the number of calls and the verdict. */
  lemma OneVerdict(maxRetries: int, outcome: nat -> Outcome, ended: nat -> bool, c: nat, v: Verdict, d: nat, w: Verdict)
    requires Returns(maxRetries, outcome, ended, c, v) && Returns(maxRetries, outcome, ended, d, w)
    ensures c == d && v == w
  {
  }

  /** Planned waits stay within the caps. */
  lemma {:induction false} WaitedBound(base: real, n: nat, m: nat, jitter: nat -> real)
    requires forall i: nat :: 0.0 <= jitter(i) < 1.0
    requires n <= m
    ensures Waited(base, n, jitter) <= Budget(base, m)
    decreases m
  {
    if m == 0 {
    } else {
      BackoffWithinCap(base, m - 1, jitter(m - 1));
      WaitedBound(base, if n == m then n - 1 else n, m - 1, jitter);
    }
  }

  method Call(maxRetries: int, base: real, outcome: nat -> Outcome, ended: nat -> bool, jitter: nat -> real)
    returns (calls: nat, v: Verdict, waited: real)
    requires forall i: nat :: 0.0 <= jitter(i) < 1.0
    ensures Returns(maxRetries, outcome, ended, calls, v)
    ensures calls > 0 ==>
              waited == Waited(base, calls - 1, jitter)
                        + if v.ContextEnded? then Positive(Backoff(base, calls - 1, jitter(calls - 1))) else 0.0
    ensures waited <= Budget(base, if maxRetries < 0 then 0 else maxRetries)
  {
    calls, waited := 0, 0.0;
    var lastErr := Success;
    var attempt := 0;
    while attempt <= maxRetries
      invariant attempt == calls && attempt <= (if maxRetries < 0 then 0 else maxRetries + 1)
      invariant forall i: nat :: i < calls ==> Again(outcome(i)) && (i < maxRetries ==> !ended(i))
      invariant calls > 0 ==> lastErr == outcome(calls - 1)
      invariant calls == 0 ==> lastErr == Success
      invariant waited == Waited(base, if attempt <= maxRetries || maxRetries < 0 then attempt else maxRetries, jitter)
    {
      lastErr := outcome(attempt);
      calls := calls + 1;
      WaitedBound(base, attempt, maxRetries, jitter);
      if lastErr == Success {
        return calls, FromCall(Success), waited;
      }
      if !IsTransient(lastErr.code) {
        return calls, FromCall(lastErr), waited;
      }
      if attempt < maxRetries {
        var delay := Backoff(base, attempt, jitter(attempt));
        waited := waited + Positive(delay);
        if ended(attempt) {
          WaitedBound(base, attempt + 1, maxRetries, jitter);
          return calls, ContextEnded, waited;
        }
      }
      attempt := attempt + 1;
    }
    if maxRetries >= 0 { WaitedBound(base, maxRetries, maxRetries, jitter); }
    v := FromCall(lastErr);
  }

  lemma CapBounds(base: real, attempt: nat)
    ensures Positive(Cap(base, attempt)) <= MAX_DELAY
    ensures base >= 0.0 ==> Positive(Cap(base, attempt)) <= base * Pow2(attempt)
    ensures base <= 0.0 ==> Positive(Cap(base, attempt)) == 0.0
  {
    Scaled(base, Pow2(attempt));
  }

  lemma {:induction false} TenSecondsEach(base: real, n: nat)
    ensures Budget(base, n) <= MAX_DELAY * n as real
  {
    if n == 0 {
    } else {
      TenSecondsEach(base, n - 1);
      CapBounds(base, n - 1);
    }
  }

  lemma CapBelowGrown(base: real, attempt: nat)
    requires base >= 0.0
    ensures Positive(Cap(base, attempt)) <= Grown(base, attempt)
  {
    GrownIs(base, attempt);
    CapBounds(base, attempt);
  }

  lemma {:induction false} Geometric(base: real, n: nat)
    requires base >= 0.0
    ensures Budget(base, n) <= Grown(base, n) - base
  {
    if n == 0 {
    } else {
      Geometric(base, n - 1);
      CapBelowGrown(base, n - 1);
    }
  }

  lemma {:induction false} NoWaits(base: real, n: nat)
    requires base <= 0.0
    ensures Budget(base, n) == 0.0
  {
    if n == 0 {
    } else {
      NoWaits(base, n - 1);
      CapBounds(base, n - 1);
    }
  }

  /** In closed form: at most ten seconds a wait, and at most (2^n - 1) times the base in all. */
  lemma BudgetBounds(base: real, n: nat)
    ensures Budget(base, n) <= MAX_DELAY * n as real
    ensures base >= 0.0 ==> Budget(base, n) <= base * Pow2(n) - base
    ensures base <= 0.0 ==> Budget(base, n) == 0.0
  {
    TenSecondsEach(base, n);
    GrownIs(base, n);
    if base >= 0.0 { Geometric(base, n); }
    if base <= 0.0 { NoWaits(base, n); }
  }
}
