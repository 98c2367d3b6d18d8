/** A per-provider circuit breaker: CLOSED, OPEN and HALF_OPEN, a failure
    counter, a threshold and the earliest time a trial call is let through.

    The transitions are first given on values (`Breaker`, `CallStep`) so that
    runs of several calls can be reasoned about; the class `CircuitBreaker`
    holds the same fields and its methods are proved to follow those
    transitions. Time is a parameter (the readings of the clock), and what
    the guarded operation does is an input (`Attempt`). */
module Circuit {
  import opened Envelope

  datatype State = Closed | Open | HalfOpen

  const DefaultFailureThreshold: int := 5
  const DefaultRecoveryTime: int := 10000

  /** What an operation did: returned a value or threw an error. */
  datatype Outcome<+T, +E> = Ok(value: T) | Err(error: E)

  /** The guarded operation's answer, and the clock reading when it settled. */
  datatype Attempt<+T, +E> = Attempt(outcome: Outcome<T, E>, settledAt: int)

  /** What a guarded call can throw: the breaker's own fast-fail error, or the
      operation's error passed on unchanged. */
  datatype Fault<+E> = CircuitOpen | Rethrown(error: E)

  /** The fields of a breaker, as a value. */
  datatype Breaker = Breaker(
    failureThreshold: int,
    recoveryTime: int,
    failureCount: nat,
    state: State,
    nextAttempt: int)

  /** The breaker's invariant: it is open or on trial only after at least
      `failureThreshold` failures, since only a success resets the count. */
  predicate Consistent(b: Breaker)
  {
    b.state != Closed ==> b.failureCount >= b.failureThreshold
  }

  /** A new breaker, created at clock reading `now`. */
  function Initial(now: int, failureThreshold: int, recoveryTime: int): Breaker
  {
    Breaker(failureThreshold, recoveryTime, 0, Closed, now)
  }

  /** `onSuccess`: the count is reset and the breaker closes. */
  function Succeeded(b: Breaker): (r: Breaker)
    ensures r.state == Closed && r.failureCount == 0 && Consistent(r)
    ensures r.failureThreshold == b.failureThreshold && r.recoveryTime == b.recoveryTime
  {
    b.(failureCount := 0, state := Closed)
  }

  /** `onFailure` at clock reading `now`: one more failure; reaching the
      threshold opens the breaker until `now + recoveryTime`. */
  function Failed(b: Breaker, now: int): (r: Breaker)
    ensures r.failureCount == b.failureCount + 1
    ensures r.failureThreshold == b.failureThreshold && r.recoveryTime == b.recoveryTime
    ensures Consistent(b) ==> Consistent(r)
    ensures r.state == Open || r.state == b.state
  {
    var count := b.failureCount + 1;
    if count >= b.failureThreshold then
      b.(failureCount := count, state := Open, nextAttempt := now + b.recoveryTime)
    else
      b.(failureCount := count)
  }

  /** The admission check at the start of `call`: an open breaker before its
      deadline admits nothing; an open breaker that is due becomes HALF_OPEN
      for the trial; a closed or half-open breaker admits the call as it is. */
  function Admit(b: Breaker, now: int): (r: Option<Breaker>)
    ensures r.None? <==> b.state == Open && now < b.nextAttempt
    ensures r.Some? ==> r.value.state != Open && r.value.failureCount == b.failureCount
    ensures r.Some? && b.state == Open ==> r.value == b.(state := HalfOpen)
    ensures r.Some? && b.state != Open ==> r.value == b
  {
    if b.state == Open then
      if now < b.nextAttempt then None else Some(b.(state := HalfOpen))
    else Some(b)
  }

  /** The effect of one `call`: the breaker afterwards, what the call returns
      or throws, and whether the guarded operation was invoked at all. */
  datatype Step<+T, +E> = Step(after: Breaker, result: Outcome<T, Fault<E>>, invoked: bool)

  function CallStep<T, E>(b: Breaker, now: int, attempt: Attempt<T, E>): (s: Step<T, E>)
    ensures s.invoked <==> Admit(b, now).Some?
    ensures !s.invoked ==> s.after == b && s.result == Err(CircuitOpen)
    ensures s.invoked ==> s.result == (match attempt.outcome
                                        case Ok(v) => Ok(v)
                                        case Err(e) => Err(Rethrown(e)))
    ensures Consistent(b) ==> Consistent(s.after)
    ensures s.after.failureThreshold == b.failureThreshold && s.after.recoveryTime == b.recoveryTime
  {
    match Admit(b, now)
    case None => Step(b, Err(CircuitOpen), false)
    case Some(trial) =>
      match attempt.outcome
      case Ok(v) => Step(Succeeded(trial), Ok(v), true)
      case Err(e) => Step(Failed(trial, attempt.settledAt), Err(Rethrown(e)), true)
  }

  /** The breaker after a sequence of calls, each given by its clock reading
      and the operation's answer. */
  function Run<T, E>(b: Breaker, calls: seq<(int, Attempt<T, E>)>): Breaker
    decreases |calls|
  {
    if calls == [] then b
    else Run(CallStep(b, calls[0].0, calls[0].1).after, calls[1..])
  }

  predicate AllFail<T, E>(calls: seq<(int, Attempt<T, E>)>)
  {
    forall i :: 0 <= i < |calls| ==> calls[i].1.outcome.Err?
  }

  // ----- properties of one call -----

  /** A new breaker is closed, has counted nothing, uses the given limits
      and satisfies the invariant. */
  lemma InitialIsClosed(now: int, failureThreshold: int, recoveryTime: int)
    ensures var b := Initial(now, failureThreshold, recoveryTime);
      b.state == Closed && b.failureCount == 0 && Consistent(b)
      && b.failureThreshold == failureThreshold && b.recoveryTime == recoveryTime
  {
  }

  /** Open and not yet due: the call throws the breaker's own error, the
      operation is not invoked and no field changes. */
  lemma OpenFastFails<T, E>(b: Breaker, now: int, attempt: Attempt<T, E>)
    requires b.state == Open && now < b.nextAttempt
    ensures CallStep(b, now, attempt) == Step(b, Err(CircuitOpen), false)
  {
  }

  /** Open and due: the breaker turns HALF_OPEN before the operation is
      invoked, and the operation runs as that half-open trial: its success
      closes the breaker, its failure (given the invariant) reopens it with
      a fresh deadline. */
  lemma DueBreakerRunsTrial<T, E>(b: Breaker, now: int, attempt: Attempt<T, E>)
    requires Consistent(b)
    requires b.state == Open && now >= b.nextAttempt
    ensures Admit(b, now) == Some(b.(state := HalfOpen))
    ensures var s := CallStep(b, now, attempt);
      var trial := b.(state := HalfOpen);
      && s.invoked
      && (attempt.outcome.Ok? ==> s.after == Succeeded(trial) && s.after == b.(failureCount := 0, state := Closed))
      && (attempt.outcome.Err? ==>
            s.after == Failed(trial, attempt.settledAt)
            && s.after == b.(failureCount := b.failureCount + 1, state := Open,
                             nextAttempt := attempt.settledAt + b.recoveryTime))
  {
  }

  /** A successful operation: its value is returned, the count is reset and
      the breaker closes; the limits are kept. */
  lemma SuccessCloses<T, E>(b: Breaker, now: int, attempt: Attempt<T, E>)
    requires attempt.outcome.Ok?
    requires !(b.state == Open && now < b.nextAttempt)
    ensures var s := CallStep(b, now, attempt);
      && s.invoked && s.result == Ok(attempt.outcome.value)
      && s.after.failureCount == 0 && s.after.state == Closed
      && s.after.failureThreshold == b.failureThreshold && s.after.recoveryTime == b.recoveryTime
      && s.after.nextAttempt == b.nextAttempt
  {
  }

  /** A failing operation: its own error is rethrown and the count rises by
      exactly one; the breaker opens until `settledAt + recoveryTime` exactly
      when the count reaches the threshold, and otherwise keeps its state. */
  lemma FailureCounts<T, E>(b: Breaker, now: int, attempt: Attempt<T, E>)
    requires attempt.outcome.Err?
    requires !(b.state == Open && now < b.nextAttempt)
    ensures var s := CallStep(b, now, attempt);
      && s.invoked && s.result == Err(Rethrown(attempt.outcome.error))
      && s.after.failureCount == b.failureCount + 1
      && (s.after.failureCount >= b.failureThreshold ==>
            s.after.state == Open && s.after.nextAttempt == attempt.settledAt + b.recoveryTime)
      && (s.after.failureCount < b.failureThreshold ==>
            s.after.state == (if b.state == Open then HalfOpen else b.state)
            && s.after.nextAttempt == b.nextAttempt)
  {
  }

  /** Every call keeps the invariant. */
  lemma CallKeepsConsistent<T, E>(b: Breaker, now: int, attempt: Attempt<T, E>)
    requires Consistent(b)
    ensures Consistent(CallStep(b, now, attempt).after)
    ensures CallStep(b, now, attempt).after.failureThreshold == b.failureThreshold
    ensures CallStep(b, now, attempt).after.recoveryTime == b.recoveryTime
  {
  }

  // ----- properties of runs of calls -----

  /** The invariant holds after any run of calls. */
  lemma {:induction false} RunKeepsConsistent<T, E>(b: Breaker, calls: seq<(int, Attempt<T, E>)>)
    requires Consistent(b)
    ensures Consistent(Run(b, calls))
    decreases |calls|
  {
    if calls != [] {
      CallKeepsConsistent(b, calls[0].0, calls[0].1);
      RunKeepsConsistent(CallStep(b, calls[0].0, calls[0].1).after, calls[1..]);
    }
  }

  /** An open breaker whose calls all fail stays open, whatever the clock
      says: a fast-fail keeps it, and a failed trial reopens it. */
  lemma {:induction false} OpenStaysOpenOnFailures<T, E>(b: Breaker, calls: seq<(int, Attempt<T, E>)>)
    requires Consistent(b) && b.state == Open
    requires AllFail(calls)
    ensures Run(b, calls).state == Open
    decreases |calls|
  {
    if calls != [] {
      var next := CallStep(b, calls[0].0, calls[0].1).after;
      assert next.state == Open;
      CallKeepsConsistent(b, calls[0].0, calls[0].1);
      assert AllFail(calls[1..]) by {
        forall i | 0 <= i < |calls[1..]| ensures calls[1..][i].1.outcome.Err? {
          assert calls[1..][i] == calls[i + 1];
        }
      }
      OpenStaysOpenOnFailures(next, calls[1..]);
    }
  }

  /** An open breaker rejects every call made before its deadline, however
      many there are: the run changes nothing. */
  lemma {:induction false} OpenRejectsUntilDeadline<T, E>(b: Breaker, calls: seq<(int, Attempt<T, E>)>)
    requires b.state == Open
    requires forall i :: 0 <= i < |calls| ==> calls[i].0 < b.nextAttempt
    ensures Run(b, calls) == b
    decreases |calls|
  {
    if calls != [] {
      assert CallStep(b, calls[0].0, calls[0].1).after == b;
      assert forall i :: 0 <= i < |calls[1..]| ==> calls[1..][i] == calls[i + 1];
      OpenRejectsUntilDeadline(b, calls[1..]);
    }
  }

  /** From CLOSED, `failureThreshold` consecutive failures (at least one)
      leave the breaker open. */
  lemma {:induction false} ConsecutiveFailuresOpen<T, E>(b: Breaker, calls: seq<(int, Attempt<T, E>)>)
    requires b.state == Closed
    requires AllFail(calls)
    requires |calls| > 0 && b.failureCount + |calls| >= b.failureThreshold
    ensures Run(b, calls).state == Open
    decreases |calls|
  {
    var next := CallStep(b, calls[0].0, calls[0].1).after;
    assert calls[0].1.outcome.Err?;
    assert AllFail(calls[1..]) by {
      forall i | 0 <= i < |calls[1..]| ensures calls[1..][i].1.outcome.Err? {
        assert calls[1..][i] == calls[i + 1];
      }
    }
    if next.state == Open {
      OpenStaysOpenOnFailures(next, calls[1..]);
    } else {
      assert next.state == Closed && next.failureCount == b.failureCount + 1;
      ConsecutiveFailuresOpen(next, calls[1..]);
    }
  }

  /** The breaker as an object whose methods update its fields in place. */
  class CircuitBreaker {
    const failureThreshold: int
    const recoveryTime: int
    var failureCount: nat
    var state: State
    var nextAttempt: int

    function Snapshot(): Breaker
      reads this
    {
      Breaker(failureThreshold, recoveryTime, failureCount, state, nextAttempt)
    }

    predicate Valid()
      reads this
    {
      Consistent(Snapshot())
    }

    /** `new CircuitBreaker(failureThreshold = 5, recoveryTime = 10000)` at clock reading `now`. */
    constructor (now: int, failureThreshold: int := DefaultFailureThreshold, recoveryTime: int := DefaultRecoveryTime)
      ensures Valid()
      ensures Snapshot() == Initial(now, failureThreshold, recoveryTime)
      ensures state == Closed && failureCount == 0 && nextAttempt == now
      ensures this.failureThreshold == failureThreshold && this.recoveryTime == recoveryTime
    {
      this.failureThreshold := failureThreshold;
      this.recoveryTime := recoveryTime;
      failureCount := 0;
      state := Closed;
      nextAttempt := now;
    }

    /** `call(fn)`: `now` is the clock reading on entry, `attempt` what `fn`
        does if it is invoked. Returns what `call` returns or throws, and
        whether `fn` was invoked. */
    method Call<T, E>(now: int, attempt: Attempt<T, E>) returns (result: Outcome<T, Fault<E>>, invoked: bool)
      requires Valid()
      modifies this
      ensures Valid()
      ensures invoked <==> Admit(old(Snapshot()), now).Some?
      ensures Step(Snapshot(), result, invoked) == CallStep(old(Snapshot()), now, attempt)
    {
      if state == Open {
        if now < nextAttempt {
          return Err(CircuitOpen), false;
        }
        state := HalfOpen;
      }
      invoked := true;
      match attempt.outcome
      case Ok(v) =>
        OnSuccess();
        result := Ok(v);
      case Err(e) =>
        OnFailure(attempt.settledAt);
        result := Err(Rethrown(e));
    }

    method OnSuccess()
      modifies this
      ensures Snapshot() == Succeeded(old(Snapshot()))
      ensures failureCount == 0 && state == Closed && nextAttempt == old(nextAttempt)
    {
      failureCount := 0;
      state := Closed;
    }

    /** `onFailure` at clock reading `now`. */
    method OnFailure(now: int)
      modifies this
      ensures Snapshot() == Failed(old(Snapshot()), now)
      ensures failureCount == old(failureCount) + 1
      ensures failureCount >= failureThreshold ==> state == Open && nextAttempt == now + recoveryTime
      ensures failureCount < failureThreshold ==> state == old(state) && nextAttempt == old(nextAttempt)
    {
      failureCount := failureCount + 1;
      if failureCount >= failureThreshold {
        state := Open;
        nextAttempt := now + recoveryTime;
      }
    }
  }
}
