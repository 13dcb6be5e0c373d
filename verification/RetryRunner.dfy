/** TransactionRunner.RunTransaction (database.go): the attempt loop around one
    transaction, for every possible sequence of attempt outcomes. */
module RetryRunner {
  import opened Base

  /** A Go error as errors.As sees it: a PostgreSQL error, possibly wrapped. */
  datatype GoError =
    | PgError(code: string)
    | Wrapped(message: string, inner: GoError)
    | Plain(message: string)

  /** errors.As(err, &pgErr). */
  function AsPgError(e: GoError): Option<string> {
    match e
    case PgError(code) => Some(code)
    case Wrapped(_, inner) => AsPgError(inner)
    case Plain(_) => None
  }

  predicate IsRetryable(e: Option<GoError>) {
    e.Some? && (AsPgError(e.value) == Some("40P01") || AsPgError(e.value) == Some("40001"))
  }

  predicate IsUniqueViolation(e: Option<GoError>) {
    e.Some? && AsPgError(e.value) == Some("23505")
  }

  /** Retried are exactly 40P01 and 40001, and a lost insert is exactly 23505, at any
      depth of wrapping; nothing else is either. */
  lemma ClassifiersExactly(code: string, message: string, e: GoError)
    ensures IsRetryable(Some(PgError(code))) <==> code == "40P01" || code == "40001"
    ensures IsUniqueViolation(Some(PgError(code))) <==> code == "23505"
    ensures IsRetryable(Some(Wrapped(message, e))) <==> IsRetryable(Some(e))
    ensures IsUniqueViolation(Some(Wrapped(message, e))) <==> IsUniqueViolation(Some(e))
    ensures !IsRetryable(Some(Plain(message))) && !IsUniqueViolation(Some(Plain(message)))
    ensures !IsRetryable(None) && !IsUniqueViolation(None)
  {
  }

  /** The two classifiers never both accept, wrapped or not: a retried error is
      never also answered as a lost insert. */
  lemma ClassifiersDisjoint(e: Option<GoError>)
    ensures !(IsRetryable(e) && IsUniqueViolation(e))
  {
    var a, b, c := "40P01", "40001", "23505";
    assert a[0] != c[0] && b[0] != c[0];
  }

  /** What the world answers, attempt by attempt (counted from 1): the context's
      error before it, the transaction's error (None is a commit), and the error
      of the pause after it. */
  datatype World = World(
    cancelled: nat -> Option<GoError>, transaction: nat -> Option<GoError>, pause: nat -> Option<GoError>)

  /** Attempts first..last all failed with a retryable error and were followed by
      an undisturbed pause, in a live context. */
  ghost predicate KeptRetrying(w: World, sleeps: bool, last: nat) {
    forall k :: 1 <= k <= last ==>
      w.cancelled(k).None? && IsRetryable(w.transaction(k)) && (sleeps ==> w.pause(k).None?)
  }

  /** The answer, the number of attempts made and the number committed. */
  datatype Report = Report(error: Option<GoError>, made: nat, commits: nat)

  const EXHAUSTED := Report(Some(Plain("transaction attempts exhausted")), 0, 0)

  /** From attempt k on, the attempts before it having failed. */
  function RunFrom(w: World, attempts: nat, sleeps: bool, k: nat): Report
    requires 1 <= k <= attempts
    decreases attempts - k
  {
    if w.cancelled(k).Some? then Report(w.cancelled(k), k - 1, 0)
    else
      var err := w.transaction(k);
      if !IsRetryable(err) || k == attempts then Report(err, k, if err.None? then 1 else 0)
      else if sleeps && w.pause(k).Some? then Report(w.pause(k), k, 0)
      else RunFrom(w, attempts, sleeps, k + 1)
  }

  /** `sleeps` says whether both Backoff and SleepContext are set. */
  method RunTransaction(w: World, maxAttempts: int, sleeps: bool) returns (report: Report)
    ensures report == RunFrom(w, if maxAttempts < 1 then 1 else maxAttempts, sleeps, 1)
  {
    var attempts := maxAttempts;
    if attempts < 1 {
      attempts := 1;
    }
    var made, commits := 0, 0;
    var attempt := 1;
    while attempt <= attempts
      invariant 1 <= attempt <= attempts
      invariant made == attempt - 1 && commits == 0
      invariant RunFrom(w, attempts, sleeps, attempt) == RunFrom(w, attempts, sleeps, 1)
      decreases attempts - attempt
    {
      if w.cancelled(attempt).Some? {
        return Report(w.cancelled(attempt), made, commits);
      }
      var err := w.transaction(attempt);
      made := made + 1;
      if err.None? {
        commits := commits + 1;
      }
      if !IsRetryable(err) || attempt == attempts {
        return Report(err, made, commits);
      }
      if sleeps && w.pause(attempt).Some? {
        return Report(w.pause(attempt), made, commits);
      }
      attempt := attempt + 1;
    }
    // The loop never ends by its own condition: the "exhausted" return is dead.
    assert false;
    return EXHAUSTED;
  }

  /** Attempt k is the last: the context is gone, the transaction has committed or
      failed for good, the attempts are used up, or the pause was disturbed. */
  predicate Stops(w: World, attempts: nat, sleeps: bool, k: nat) {
    w.cancelled(k).Some? || !IsRetryable(w.transaction(k)) || k == attempts || (sleeps && w.pause(k).Some?)
  }

  /** The loop makes exactly the attempts up to the first that stops it, and answers
      with what stopped it. */
  lemma {:induction false} RunExactly(w: World, attempts: nat, sleeps: bool, k: nat, last: nat)
    requires 1 <= k <= last <= attempts && Stops(w, attempts, sleeps, last)
    requires forall j :: k <= j < last ==> !Stops(w, attempts, sleeps, j)
    ensures RunFrom(w, attempts, sleeps, k) ==
            if w.cancelled(last).Some? then Report(w.cancelled(last), last - 1, 0)
            else if w.transaction(last).None? then Report(None, last, 1)
            else if !IsRetryable(w.transaction(last)) || last == attempts then Report(w.transaction(last), last, 0)
            else Report(w.pause(last), last, 0)
    decreases last - k
  {
    if k < last {
      assert !Stops(w, attempts, sleeps, k);
      RunExactly(w, attempts, sleeps, k + 1, last);
    }
  }

  /** In every world: at most the allowed attempts, at most one commit, nil exactly
      after a commit, and another attempt only after 40P01 or 40001. What is
      returned is the context's word, the last attempt's own, or the pause's. */
  lemma {:induction false} RetryPromises(w: World, attempts: nat, sleeps: bool, k: nat)
    requires 1 <= k <= attempts && KeptRetrying(w, sleeps, k - 1)
    ensures var r := RunFrom(w, attempts, sleeps, k);
            && k - 1 <= r.made <= attempts && r.commits <= 1
            && (r.error.None? <==> r.commits == 1)
            && (r.made > 0 ==> KeptRetrying(w, sleeps, r.made - 1))
            && (r.error.None? ==> r.made > 0 && w.transaction(r.made).None?)
            && (r.error.Some? ==>
                  || (r.error == w.cancelled(r.made + 1) && KeptRetrying(w, sleeps, r.made))
                  || (r.made > 0 && r.error == w.transaction(r.made) && (!IsRetryable(r.error) || r.made == attempts))
                  || (r.made > 0 && sleeps && IsRetryable(w.transaction(r.made)) && r.error == w.pause(r.made)))
    decreases attempts - k
  {
    var err := w.transaction(k);
    if w.cancelled(k).None? && IsRetryable(err) && k < attempts && !(sleeps && w.pause(k).Some?) {
      RetryPromises(w, attempts, sleeps, k + 1);
    }
  }

  /** Transient failures are ridden out: if the first commit comes within the
      allowed attempts and nothing else disturbs, the answer is that commit. */
  lemma {:induction false} TransientFailuresRecover(w: World, attempts: nat, sleeps: bool, k: nat, n: nat)
    requires 1 <= k <= n <= attempts && KeptRetrying(w, sleeps, n - 1)
    requires w.cancelled(n).None? && w.transaction(n).None?
    ensures RunFrom(w, attempts, sleeps, k) == Report(None, n, 1)
    decreases n - k
  {
    if k < n {
      TransientFailuresRecover(w, attempts, sleeps, k + 1, n);
    }
  }
}
