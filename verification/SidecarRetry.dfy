/** Retry loop and exponential backoff of the sidecar client (backend/py-sidecar/src/lib.rs). */
module SidecarRetry {
  import opened Basics
  import opened Bytes

  datatype SidecarError =
    | SocketNotFound
    | ConnectionFailed(detail: Bytes)
    | Timeout(ms: nat)
    | InvalidResponse(detail: Bytes)
    | InvalidInput(detail: Bytes)
    | HttpError(status: nat, body: Bytes)

  // ---- backoff --------------------------------------------------------------------------------

  const U64_MAX: nat := 0xffff_ffff_ffff_ffff
  const BACKOFF_BASE_MS: nat := 100
  const MAX_BACKOFF_MS: nat := 30_000

  function Pow2(e: nat): (p: nat)
    ensures 1 <= p
  {
    if e == 0 then 1 else 2 * Pow2(e - 1)
  }

  function Saturate(n: nat): nat { if U64_MAX < n then U64_MAX else n }

  function Min(a: nat, b: nat): nat { if a < b then a else b }

  /** As computed: every step saturates at the 64-bit maximum, attempt 0 counts like attempt 1. */
  function BackoffForAttempt(attempt: nat): nat {
    var exponent := if attempt == 0 then 0 else attempt - 1;
    Min(Saturate(BACKOFF_BASE_MS * Saturate(Pow2(exponent))), MAX_BACKOFF_MS)
  }

  lemma {:induction false} Pow2Grows(a: nat, b: nat)
    requires a <= b
    ensures Pow2(a) <= Pow2(b)
  {
    if a == b {
    } else {
      Pow2Grows(a, b - 1);
    }
  }

  /** Saturation never shows: the delay is min(100 * 2^(n-1), 30000) over the integers, and monotone. */
  lemma BackoffExact(n: nat, m: nat)
    requires 1 <= n <= m
    ensures BackoffForAttempt(n) == Min(100 * Pow2(n - 1), 30_000)
    ensures BackoffForAttempt(n) <= BackoffForAttempt(m)
  {
    Pow2Grows(n - 1, m - 1);
  }

  /** Milliseconds slept before attempts 1 to n. */
  function TotalSleep(n: nat): nat {
    if n == 0 then 0 else TotalSleep(n - 1) + BackoffForAttempt(n)
  }

  lemma PowersAtTheCap()
    ensures Pow2(8) == 256 && Pow2(9) == 512
  {
    assert Pow2(2) == 4;
    assert Pow2(4) == 16;
    assert Pow2(6) == 64;
  }

  lemma {:induction false} TotalSleepExact(n: nat)
    ensures n <= 9 ==> TotalSleep(n) == 100 * (Pow2(n) - 1)
    ensures 9 <= n ==> TotalSleep(n) == 51_100 + 30_000 * (n - 9)
    ensures n <= 10 ==> TotalSleep(n) <= 81_100
  {
    PowersAtTheCap();
    if n == 0 {
    } else {
      TotalSleepExact(n - 1);
      if n <= 9 {
        Pow2Grows(n - 1, 8);
      } else {
        Pow2Grows(9, n - 1);
      }
    }
  }

  // ---- the loop -------------------------------------------------------------------------------

  // What one attempt comes back with; TimedOut is the timeout around it.
  datatype Attempt = Response(status: nat, body: Bytes) | Failed(error: SidecarError) | TimedOut

  predicate Retryable(a: Attempt) {
    a.TimedOut? || (a.Failed? && (a.error.ConnectionFailed? || a.error.Timeout?))
  }

  /** What an attempt means if nothing follows it. */
  function Outcome(a: Attempt, timeoutMs: nat): Result<Bytes, SidecarError> {
    match a
    case Response(status, body) => if 400 <= status then Err(HttpError(status, body)) else Ok(body)
    case Failed(e) => Err(e)
    case TimedOut => Err(Timeout(timeoutMs))
  }

  /**
    The loop returns the outcome of the first decisive attempt among the first maxRetries + 1, or
    of the last of them when all are retryable; the default behind the loop is never used.
   */
  method DoRequest(available: bool, attempts: nat -> Attempt, maxRetries: nat, timeoutMs: nat)
    returns (r: Result<Bytes, SidecarError>, tries: nat, sleptMs: nat)
    ensures !available ==> r == Err(SocketNotFound) && tries == 0 && sleptMs == 0
    ensures available ==>
              && 1 <= tries <= maxRetries + 1
              && (forall k: nat :: k < tries - 1 ==> Retryable(attempts(k)))
              && (Retryable(attempts(tries - 1)) ==> tries == maxRetries + 1)
              && r == Outcome(attempts(tries - 1), timeoutMs)
              && sleptMs == TotalSleep(tries - 1)
    ensures available ==>
              var last := attempts(tries - 1);
              && (forall k: nat :: k < tries - 1 ==>
                    || attempts(k).TimedOut?
                    || (attempts(k).Failed? && (attempts(k).error.ConnectionFailed? || attempts(k).error.Timeout?)))
              && (tries <= maxRetries ==>
                    last.Response? || (last.Failed? && !last.error.ConnectionFailed? && !last.error.Timeout?))
              && (r.Ok? <==> last.Response? && last.status < 400)
              && (r.Ok? ==> r.value == last.body)
              && (last.Response? && 400 <= last.status ==> r == Err(HttpError(last.status, last.body)))
              && (last.Failed? ==> r == Err(last.error))
              && (last.TimedOut? ==> r == Err(Timeout(timeoutMs)))
  {
    tries, sleptMs := 0, 0;
    if !available {
      return Err(SocketNotFound), tries, sleptMs;
    }
    var lastError: Option<SidecarError> := None;
    for attempt := 0 to maxRetries + 1
      invariant tries == attempt
      invariant sleptMs == if attempt == 0 then 0 else TotalSleep(attempt - 1)
      invariant forall k: nat :: k < attempt ==> Retryable(attempts(k))
      invariant attempt == 0 <==> lastError.None?
      invariant 0 < attempt ==> Outcome(attempts(attempt - 1), timeoutMs) == Err(lastError.value)
    {
      if 0 < attempt {
        sleptMs := sleptMs + BackoffForAttempt(attempt);
      }
      tries := tries + 1;
      match attempts(attempt)
      case Response(status, body) =>
        if 400 <= status {
          return Err(HttpError(status, body)), tries, sleptMs;
        }
        return Ok(body), tries, sleptMs;
      case Failed(e) =>
        match e {
          case SocketNotFound => return Err(e), tries, sleptMs;
          case InvalidResponse(_) => return Err(e), tries, sleptMs;
          case InvalidInput(_) => return Err(e), tries, sleptMs;
          case HttpError(_, _) => return Err(e), tries, sleptMs;
          case ConnectionFailed(_) => lastError := Some(e);
          case Timeout(_) => lastError := Some(e);
        }
      case TimedOut =>
        lastError := Some(Timeout(timeoutMs));
    }
    r := Err(if lastError.Some? then lastError.value else Timeout(timeoutMs));
  }

  /** With the configured cap of ten retries the loop sleeps at most 81.1 s. */
  method DoRequestCapped(available: bool, attempts: nat -> Attempt, configured: nat, timeoutMs: nat)
    returns (r: Result<Bytes, SidecarError>, sleptMs: nat)
    ensures sleptMs <= 81_100
    ensures configured == 0 ==> sleptMs == 0
    ensures available && (forall k: nat :: k <= 10 ==> Retryable(attempts(k))) ==>
              r == Outcome(attempts(Min(configured, 10)), timeoutMs) && sleptMs == TotalSleep(Min(configured, 10))
  {
    var tries;
    r, tries, sleptMs := DoRequest(available, attempts, Min(configured, 10), timeoutMs);
    if available {
      TotalSleepExact(tries - 1);
    }
  }
}
