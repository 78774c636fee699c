/** Bounded retries of a registry operation. */
module Retry {
  import opened Text

  /** A failed call, with what the classification looks at. */
  datatype Failure = Failure(
    deadline: bool, canceled: bool, eof: bool, status: Option<int>, netTimeout: Option<bool>, message: string)

  predicate Retryable(e: Failure) {
    if e.deadline then true
    else if e.canceled then false
    else if e.eof then true
    else if e.status.Some? then e.status.value in {408, 429, 500, 502, 503, 504}
    else if e.netTimeout.Some? then e.netTimeout.value
    else
      var m := Lower(e.message);
      || Contains(m, "connection reset") || Contains(m, "broken pipe")
      || Contains(m, "use of closed network connection") || Contains(m, "server closed idle connection")
  }

  /** Which failures are worth another attempt: an expired deadline is, a cancelled context is
      not, an early end of the stream is; of the status codes exactly six are; a network error
      is if it is a timeout; anything else if its text, in any case, speaks of a lost connection. */
  lemma RetryClasses(e: Failure)
    ensures e.deadline ==> Retryable(e)
    ensures !e.deadline && e.canceled ==> !Retryable(e)
    ensures !e.deadline && !e.canceled && e.eof ==> Retryable(e)
    ensures !e.deadline && !e.canceled && !e.eof && e.status.Some? ==>
              var s := e.status.value;
              Retryable(e) <==> s == 408 || s == 429 || s == 500 || s == 502 || s == 503 || s == 504
    ensures !e.deadline && !e.canceled && !e.eof && e.status.None? && e.netTimeout.Some? ==>
              Retryable(e) == e.netTimeout.value
    ensures !e.deadline && !e.canceled && !e.eof && e.status.None? && e.netTimeout.None? ==>
              var m := Lower(e.message);
              Retryable(e) <==> exists k :: 0 <= k <= |m| &&
                                  (|| "connection reset" <= m[k..] || "broken pipe" <= m[k..]
                                   || "use of closed network connection" <= m[k..]
                                   || "server closed idle connection" <= m[k..])
  {
    var m := Lower(e.message);
    ContainsMeaning(m, "connection reset");
    ContainsMeaning(m, "broken pipe");
    ContainsMeaning(m, "use of closed network connection");
    ContainsMeaning(m, "server closed idle connection");
  }

  datatype Result = Done | Failed(e: Failure) | Interrupted

  datatype Run = Run(calls: nat, result: Result)

  function Attempts(configured: int): (n: nat)
    ensures 1 <= n
  {
    if configured <= 0 then 1 else configured
  }

  /** The run from the `k`-th call on; `interrupted(k)` says that the wait after call `k` ends
      because the context is done. */
  function RunFrom(max: nat, backoff: int, call: nat -> Option<Failure>, interrupted: nat -> bool, k: nat): Run
    requires 1 <= k <= max
    decreases max - k
  {
    match call(k)
    case None => Run(k, Done)
    case Some(e) =>
      if k == max || !Retryable(e) then Run(k, Failed(e))
      else if backoff > 0 && interrupted(k) then Run(k, Interrupted)
      else RunFrom(max, backoff, call, interrupted, k + 1)
  }

  /** What the trace of calls looks like whenever a run ends. */
  ghost predicate ExplainedBy(r: Run, max: nat, backoff: int, call: nat -> Option<Failure>, interrupted: nat -> bool) {
    && 1 <= r.calls <= max
    && (forall i :: 1 <= i < r.calls ==> call(i).Some? && Retryable(call(i).value) && !(backoff > 0 && interrupted(i)))
    && (r.result.Done? <==> call(r.calls).None?)
    && (r.result.Failed? ==> call(r.calls) == Some(r.result.e) && (r.calls == max || !Retryable(r.result.e)))
    && (r.result.Interrupted? ==>
          backoff > 0 && interrupted(r.calls) && r.calls < max && Retryable(call(r.calls).value))
  }

  lemma {:induction false} RunExplained(
      max: nat, backoff: int, call: nat -> Option<Failure>, interrupted: nat -> bool, k: nat)
    requires 1 <= k <= max
    requires forall i :: 1 <= i < k ==> call(i).Some? && Retryable(call(i).value) && !(backoff > 0 && interrupted(i))
    ensures ExplainedBy(RunFrom(max, backoff, call, interrupted, k), max, backoff, call, interrupted)
    decreases max - k
  {
    if call(k).Some? && k < max && Retryable(call(k).value) && !(backoff > 0 && interrupted(k)) {
      RunExplained(max, backoff, call, interrupted, k + 1);
    }
  }

  lemma NotShorter(r: Run, r': Run, max: nat, backoff: int, call: nat -> Option<Failure>, interrupted: nat -> bool)
    requires ExplainedBy(r, max, backoff, call, interrupted) && ExplainedBy(r', max, backoff, call, interrupted)
    ensures r'.calls <= r.calls
  {
  }

  /** A run is determined by its trace: whatever explains the calls is the run. */
  lemma TraceDetermines(r: Run, r': Run, max: nat, backoff: int, call: nat -> Option<Failure>, interrupted: nat -> bool)
    requires ExplainedBy(r, max, backoff, call, interrupted) && ExplainedBy(r', max, backoff, call, interrupted)
    ensures r == r'
  {
    NotShorter(r, r', max, backoff, call, interrupted);
    NotShorter(r', r, max, backoff, call, interrupted);
  }

  method WithRetry(
      configured: int, backoff: int, call: nat -> Option<Failure>, interrupted: nat -> bool) returns (r: Run)
    ensures ExplainedBy(r, if configured <= 0 then 1 else configured, backoff, call, interrupted)
    ensures r == RunFrom(Attempts(configured), backoff, call, interrupted, 1)
  {
    var attempts := configured;
    if attempts <= 0 { attempts := 1; }
    RunExplained(attempts, backoff, call, interrupted, 1);
    var attempt := 1;
    while true
      invariant 1 <= attempt <= attempts
      invariant RunFrom(attempts, backoff, call, interrupted, attempt) ==
                RunFrom(attempts, backoff, call, interrupted, 1)
      decreases attempts - attempt
    {
      match call(attempt) {
        case None => return Run(attempt, Done);
        case Some(e) =>
          if attempt == attempts || !Retryable(e) { return Run(attempt, Failed(e)); }
          if backoff > 0 && interrupted(attempt) { return Run(attempt, Interrupted); }
      }
      attempt := attempt + 1;
    }
  }
}
