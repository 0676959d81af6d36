/** Creating a client while another process may hold the local resources: retry with short
    sleeps until a deadline. Times are in nanoseconds.

    The clock and the attempts are arbitrary: each attempt takes any time, and a sleep lasts at
    least as long as asked. */
module Retry {
  import opened Common

  const MILLISECOND: nat := 1_000_000
  const STEP: nat := 50 * MILLISECOND
  const MAX_LOCAL_RESOURCE_TIMEOUT: nat := 5_000 * MILLISECOND

  datatype Outcome = Created | InUse | OtherError

  datatype Failure = ResourceInUse | CreateFailed | TimeoutTooLarge

  /** What attempt `i` comes to, how long it takes up to the point where the clock may be read,
      and by how much the sleep after it is late. */
  datatype World = World(start: nat, outcome: nat -> Outcome, takes: nat -> nat, late: nat -> nat)

  function TimeoutOr(configured: Option<nat>, dflt: nat): Result<nat, Failure> {
    var timeout := if configured.Some? then configured.value else dflt;
    if timeout > MAX_LOCAL_RESOURCE_TIMEOUT then Err(TimeoutTooLarge) else Ok(timeout)
  }

  function Min(a: nat, b: nat): nat {
    if a <= b then a else b
  }

  /** The sleep asked for when the clock shows `now`. */
  function Delay(now: nat, deadline: nat): nat {
    if now >= deadline then 0 else Min(STEP, deadline - now)
  }

  /** What the clock shows after attempt `i`, if the loop gets that far. */
  function Reading(w: World, deadline: nat, i: nat): nat {
    if i == 0 then w.start + w.takes(0)
    else
      var before := Reading(w, deadline, i - 1);
      before + Delay(before, deadline) + w.late(i - 1) + w.takes(i)
  }

  /** Total sleep asked for before attempt `i`. */
  function Asked(w: World, deadline: nat, i: nat): nat {
    if i == 0 then 0 else Asked(w, deadline, i - 1) + Delay(Reading(w, deadline, i - 1), deadline)
  }

  /** The loop goes on after attempt `i`. */
  predicate GoesOn(w: World, deadline: nat, i: nat) {
    w.outcome(i).InUse? && Reading(w, deadline, i) < deadline
  }

  function ToResult(o: Outcome): Result<(), Failure> {
    match o
    case Created => Ok(())
    case InUse => Err(ResourceInUse)
    case OtherError => Err(CreateFailed)
  }

  /** How many steps a timeout holds, rounded up. */
  function Steps(timeout: nat): nat {
    (timeout + STEP - 1) / STEP
  }

  lemma StepsIs(timeout: nat, k: nat)
    ensures k <= Steps(timeout) <==> STEP * k < timeout + STEP
  {
  }

  /** `create_unbootstrapped_inner`: a final result, or how long to sleep before retrying. */
  function TryOnce(o: Outcome, now: nat, deadline: nat): Result<Result<(), Failure>, nat> {
    if o.InUse? && now < deadline then Err(Min(STEP, deadline - now)) else Ok(ToResult(o))
  }

  ghost predicate WentOn(w: World, deadline: nat, n: nat) {
    forall i :: 0 <= i < n ==> GoesOn(w, deadline, i)
  }

  /** The first attempt at which the loop stops is number `n`. */
  ghost predicate StopsAt(w: World, deadline: nat, n: nat) {
    !GoesOn(w, deadline, n) && WentOn(w, deadline, n)
  }

  /** Each round brings the clock forward by a full step or to the deadline. */
  lemma {:induction false} ReadingAdvances(w: World, timeout: nat, i: nat)
    ensures Reading(w, w.start + timeout, i) >= w.start + Min(timeout, STEP * i)
  {
    if i > 0 {
      ReadingAdvances(w, timeout, i - 1);
    }
  }

  lemma NotYetGivenUp(w: World, timeout: nat, i: nat)
    requires GoesOn(w, w.start + timeout, i)
    ensures STEP * i < timeout
  {
    ReadingAdvances(w, timeout, i);
  }

  /** What was asked for is no more than what the clock has run, and never more than the
      timeout: no sleep is meant to end after the deadline. */
  lemma {:induction false} AskedWithinTimeout(w: World, timeout: nat, i: nat)
    ensures Asked(w, w.start + timeout, i) <= timeout
    ensures w.start + Asked(w, w.start + timeout, i) <= Reading(w, w.start + timeout, i)
  {
    if i > 0 {
      AskedWithinTimeout(w, timeout, i - 1);
    }
  }

  /** The sleep after attempt `i` is positive, at most a step, and meant to end by the deadline. */
  ghost predicate SleepOk(w: World, deadline: nat, i: nat) {
    var now := Reading(w, deadline, i);
    0 < Delay(now, deadline) <= STEP && now + Delay(now, deadline) <= deadline
  }

  /** "In use" is reported only at or after the deadline, and no sleep on the way is meant to
      end after it. */
  lemma GivesUpOnlyAtDeadline(w: World, deadline: nat, n: nat)
    requires StopsAt(w, deadline, n)
    ensures ToResult(w.outcome(n)) == Err(ResourceInUse) ==> deadline <= Reading(w, deadline, n)
    ensures forall i :: 0 <= i < n ==> SleepOk(w, deadline, i)
  {
    forall i | 0 <= i < n ensures SleepOk(w, deadline, i) {
      assert GoesOn(w, deadline, i);
    }
  }

  /** What the caller may rely on: bounds on the attempts and on the total sleep; the outcome
      is that of the first attempt at which the loop stops: success if it created the client, and
      otherwise its error; "in use" is reported only at or after the deadline; no sleep is meant
      to end after it; one notice if there is a retry. */
  ghost predicate Report(w: World, timeout: nat, result: Result<(), Failure>, attempts: nat, slept: nat, notices: nat) {
    var deadline := w.start + timeout;
    && 1 <= attempts <= Steps(timeout) + 1
    && slept == Asked(w, deadline, attempts - 1) <= timeout
    && StopsAt(w, deadline, attempts - 1)
    && (result.Ok? <==> w.outcome(attempts - 1).Created?)
    && (result == Err(CreateFailed) <==> w.outcome(attempts - 1).OtherError?)
    && (result == Err(ResourceInUse) <==> w.outcome(attempts - 1).InUse?)
    && (result == Err(ResourceInUse) ==> deadline <= Reading(w, deadline, attempts - 1))
    && (forall i :: 0 <= i < attempts - 1 ==> SleepOk(w, deadline, i))
    && notices == Min(1, attempts - 1)
  }

  lemma StoppedReport(w: World, timeout: nat, n: nat)
    requires StopsAt(w, w.start + timeout, n) && STEP * n < timeout + STEP
    ensures Report(w, timeout, ToResult(w.outcome(n)), n + 1, Asked(w, w.start + timeout, n), Min(1, n))
  {
    StepsIs(timeout, n);
    AskedWithinTimeout(w, timeout, n);
    GivesUpOnlyAtDeadline(w, w.start + timeout, n);
  }

  /** Before attempt `n`: the clock and the sleep so far are as specified. */
  ghost predicate InLoop(w: World, timeout: nat, n: nat, slept: nat, clock: nat) {
    var deadline := w.start + timeout;
    && STEP * n < timeout + STEP && WentOn(w, deadline, n)
    && slept == Asked(w, deadline, n) && clock + w.takes(n) == Reading(w, deadline, n)
  }

  /** One round: attempt `n`, at whose end the clock shows `now`. */
  lemma Round(w: World, timeout: nat, n: nat, slept: nat, clock: nat)
    requires InLoop(w, timeout, n, slept, clock)
    ensures var now := clock + w.takes(n);
            var tried := TryOnce(w.outcome(n), now, w.start + timeout);
            if tried.Ok? then Report(w, timeout, tried.value, n + 1, slept, Min(1, n))
            else InLoop(w, timeout, n + 1, slept + tried.error, now + tried.error + w.late(n))
  {
    if GoesOn(w, w.start + timeout, n) {
      NotYetGivenUp(w, timeout, n);
    } else {
      StoppedReport(w, timeout, n);
    }
  }

  method RetryUntil(w: World, timeout: nat)
    returns (result: Result<(), Failure>, attempts: nat, slept: nat, notices: nat)
    ensures Report(w, timeout, result, attempts, slept, notices)
  {
    var deadline := w.start + timeout;
    var firstAttempt := true;
    var clock: nat := w.start;
    attempts, slept, notices := 0, 0, 0;
    while true
      invariant InLoop(w, timeout, attempts, slept, clock)
      invariant firstAttempt <==> attempts == 0
      invariant notices == Min(1, attempts)
      decreases timeout + STEP - STEP * attempts
    {
      Round(w, timeout, attempts, slept, clock);
      clock := clock + w.takes(attempts);
      var tried := TryOnce(w.outcome(attempts), clock, deadline);
      attempts := attempts + 1;
      if tried.Ok? {
        return tried.value, attempts, slept, notices;
      }
      if firstAttempt {
        notices := notices + 1;
      }
      firstAttempt := false;
      slept := slept + tried.error;
      clock := clock + tried.error + w.late(attempts - 1);
    }
  }

  /** `create_unbootstrapped` and, with another default, `create_unbootstrapped_async`.
      `notices` counts the "retrying" messages. */
  method Create(w: World, configured: Option<nat>, dflt: nat)
    returns (result: Result<(), Failure>, attempts: nat, slept: nat, notices: nat)
    ensures var timeout := if configured.Some? then configured.value else dflt;
            if timeout > MAX_LOCAL_RESOURCE_TIMEOUT
            then result == Err(TimeoutTooLarge) && attempts == slept == notices == 0
            else Report(w, timeout, result, attempts, slept, notices)
  {
    var checked := TimeoutOr(configured, dflt);
    match checked {
      case Err(e) => return Err(e), 0, 0, 0;
      case Ok(timeout) => result, attempts, slept, notices := RetryUntil(w, timeout);
    }
  }

  /** A world where nothing takes time but the sleeps, and the resource stays in use. */
  function Prompt(start: nat): World {
    World(start, (i: nat) => InUse, (i: nat) => 0, (i: nat) => 0)
  }

  lemma {:induction false} PromptReading(start: nat, timeout: nat, i: nat)
    ensures Reading(Prompt(start), start + timeout, i) == start + Min(timeout, STEP * i)
    ensures Asked(Prompt(start), start + timeout, i) == Min(timeout, STEP * i)
  {
    if i > 0 {
      PromptReading(start, timeout, i - 1);
    }
  }

  lemma PromptGoesOn(start: nat, timeout: nat, i: nat)
    ensures GoesOn(Prompt(start), start + timeout, i) <==> STEP * i < timeout
    ensures Asked(Prompt(start), start + timeout, i) == Min(timeout, STEP * i)
  {
    PromptReading(start, timeout, i);
  }

  lemma StepsReach(timeout: nat, i: nat)
    ensures STEP * i < timeout <==> i < Steps(timeout)
  {
  }

  /** The bounds are tight: in the prompt world the loop makes exactly one attempt more than
      the number of steps, and asks to sleep for exactly the timeout. */
  lemma BoundsAreReached(start: nat, timeout: nat)
    ensures StopsAt(Prompt(start), start + timeout, Steps(timeout))
    ensures Asked(Prompt(start), start + timeout, Steps(timeout)) == timeout
  {
    var w, deadline, n := Prompt(start), start + timeout, Steps(timeout);
    forall i: nat ensures GoesOn(w, deadline, i) <==> i < n {
      PromptGoesOn(start, timeout, i);
      StepsReach(timeout, i);
    }
    PromptGoesOn(start, timeout, n);
  }
}
