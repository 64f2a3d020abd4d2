/**
 * `Retrier::attempt`: run an action, and on each rejection record the error,
 * count it, and either give up with a `TooManyRetriesException` or schedule the
 * next run after a linear backoff.
 *
 * The action is the PHP callable `$action($retries)`, modelled as the settlement
 * of the promise it returns for each argument (`Pending` when that promise never
 * settles). Every run receives a different argument, so a function of the
 * argument describes any action. Timers are not waited on: the delays they are
 * scheduled with are recorded in order.
 */
module Retrier {

  import opened Wrappers
  import opened Throwables
  import opened Promises
  import Decimal

  /** Seconds of backoff per failure so far (`$delay = 5 * $retries`). */
  const BackoffUnit: nat := 5

  /** How many runs the counter allows: the check `$retries >= $attempts` comes after at least one failure. */
  function Limit(attempts: int): nat {
    if attempts >= 1 then attempts else 1
  }

  /** `sprintf('Max attempts of %d reached', $retries)`. */
  function MaxAttemptsMessage(retries: nat): string {
    "Max attempts of " + Decimal.NatToString(retries) + " reached"
  }

  /** The count can be read back from the message. */
  lemma MaxAttemptsMessageReadsBack(retries: nat)
    ensures var m := MaxAttemptsMessage(retries);
      |m| > 24 && m[..16] == "Max attempts of " && m[|m| - 8..] == " reached" &&
      Decimal.ParseNat(m[16..|m| - 8]) == Some(retries)
  {
    var m := MaxAttemptsMessage(retries);
    assert m[16..|m| - 8] == Decimal.NatToString(retries);
    Decimal.ParseNatToString(retries);
  }

  /** The message of an exhausted three-attempt retry. */
  lemma ThreeAttemptsMessage()
    ensures MaxAttemptsMessage(3) == "Max attempts of 3 reached"
  {
    assert Decimal.NatToString(3) == "3";
  }

  /** The terminal rejection built from the collected errors. */
  function Exhausted(retries: nat, exceptions: seq<Throwable>): Throwable {
    TooManyRetries(NewTooManyRetriesException(MaxAttemptsMessage(retries), exceptions := exceptions))
  }

  /** The arguments of `n` consecutive runs: 0, 1, ..., n - 1. */
  function Upto(n: nat): seq<nat> {
    seq(n, i => i)
  }

  /** The delays of the first `k` timers: 5, 10, ..., 5k. */
  function Backoff(k: nat): seq<nat> {
    seq(k, i => BackoffUnit * (i + 1))
  }

  /** What one call of `attempt` is observed to do. */
  datatype RetryTrace<T> = RetryTrace(
    outcome: Promise<T>,    // the settlement of the promise `attempt` returns
    calls: seq<nat>,        // the argument of each run of the action, in order
    delays: seq<nat>)       // the delay of each timer scheduled, in order

  /** The number of runs, among the first `m`, that reject before one does not. */
  function LeadingRejections<T>(action: nat -> Promise<T>, m: nat): (k: nat)
    ensures k <= m
    ensures forall j :: 0 <= j < k ==> action(j).Rejected?
    ensures k < m ==> !action(k).Rejected?
  {
    if m == 0 then 0
    else
      var k := LeadingRejections(action, m - 1);
      if k == m - 1 && action(m - 1).Rejected? then m else k
  }

  /** The reasons of the first `n` runs, all of which reject. */
  function Reasons<T>(action: nat -> Promise<T>, n: nat): (r: seq<Throwable>)
    requires forall j :: 0 <= j < n ==> action(j).Rejected?
    ensures |r| == n
    ensures forall j :: 0 <= j < n ==> action(j) == Rejected(r[j])
  {
    if n == 0 then [] else Reasons(action, n - 1) + [action(n - 1).reason]
  }

  /**
   * Reference definition of `attempt`: with `m` runs allowed and `k` leading
   * rejections, either all `m` runs reject and the promise rejects with every
   * reason, or run `k` decides the outcome; one timer separates consecutive runs.
   */
  function ExpectedTrace<T>(attempts: int, action: nat -> Promise<T>): RetryTrace<T> {
    var m := Limit(attempts);
    var k := LeadingRejections(action, m);
    if k == m then RetryTrace(Rejected(Exhausted(m, Reasons(action, m))), Upto(m), Backoff(m - 1))
    else RetryTrace(action(k), Upto(k + 1), Backoff(k))
  }

  /**
   * The state the closures of `attempt` share by reference: `$retries` and
   * `$exceptions`, plus the promise `attempt` returns and what has been observed.
   */
  class RetryState<T> {
    const attempts: int
    const action: nat -> Promise<T>
    var retries: nat
    var exceptions: seq<Throwable>
    var promise: Promise<T>
    var calls: seq<nat>
    var delays: seq<nat>

    ghost predicate Valid()
      reads this
    {
      var m := Limit(attempts);
      |exceptions| == retries <= m &&
      calls == Upto(|calls|) &&
      (forall j :: 0 <= j < retries ==> action(j) == Rejected(exceptions[j])) &&
      match promise
      case Pending =>
        retries < m && delays == Backoff(retries) &&
        (|calls| == retries || (|calls| == retries + 1 && action(retries).Pending?))
      case Fulfilled(v) =>
        retries < m && delays == Backoff(retries) &&
        |calls| == retries + 1 && action(retries) == Fulfilled(v)
      case Rejected(e) =>
        retries == m == |calls| && delays == Backoff(m - 1) && e == Exhausted(retries, exceptions)
    }

    /** No run is in flight and the retry promise is still pending: the next run may start. */
    predicate Ready()
      reads this
    {
      promise.Pending? && |calls| == retries
    }

    constructor (attempts: int, action: nat -> Promise<T>)
      ensures Valid() && Ready()
      ensures this.attempts == attempts && this.action == action
      ensures retries == 0 && exceptions == [] && calls == [] && delays == []
    {
      this.attempts := attempts;
      this.action := action;
      retries := 0;
      exceptions := [];
      promise := Pending;
      calls := [];
      delays := [];
    }

    /** `$executeAction`: one run of the action and the handling of its settlement. */
    method ExecuteAction()
      requires Valid() && Ready()
      modifies this
      ensures Valid()
      ensures calls == old(calls) + [old(retries)]
      ensures match action(old(retries))
        case Rejected(e) =>
          exceptions == old(exceptions) + [e] && retries == old(retries) + 1 &&
          if retries >= attempts then
            promise == Rejected(Exhausted(retries, exceptions)) && delays == old(delays)
          else
            promise == Pending && delays == old(delays) + [BackoffUnit * retries]
        case _ =>
          promise == action(old(retries)) && retries == old(retries) &&
          exceptions == old(exceptions) && delays == old(delays)
    {
      var outcome := action(retries);
      calls := calls + [retries];
      match outcome {
        case Fulfilled(v) =>
          promise := Fulfilled(v);
        case Pending =>
        case Rejected(e) =>
          exceptions := exceptions + [e];
          retries := retries + 1;
          if retries >= attempts {
            promise := Rejected(Exhausted(retries, exceptions));
          } else {
            delays := delays + [BackoffUnit * retries];
          }
      }
    }
  }

  /** `Retrier::attempt($loop, $attempts, $action)`. */
  method Attempt<T>(attempts: int, action: nat -> Promise<T>) returns (trace: RetryTrace<T>)
    ensures trace == ExpectedTrace(attempts, action)
  {
    var state := new RetryState(attempts, action);
    state.ExecuteAction();
    while state.Ready()
      invariant state.Valid()
      invariant state.attempts == attempts && state.action == action
      decreases Limit(attempts) - |state.calls|
    {
      state.ExecuteAction();
    }
    var m := Limit(attempts);
    var k := LeadingRejections(action, m);
    if state.promise.Rejected? {
      assert k == m;
      assert state.exceptions == Reasons(action, m);
    } else {
      assert k == state.retries;
    }
    trace := RetryTrace(state.promise, state.calls, state.delays);
  }

  /** `Retrier::retry`, the instance entry point, delegates to `attempt`. */
  method Retry<T>(attempts: int, action: nat -> Promise<T>) returns (trace: RetryTrace<T>)
    ensures trace == ExpectedTrace(attempts, action)
  {
    trace := Attempt(attempts, action);
  }

  /** The count of leading rejections is determined by where the first non-rejection is. */
  lemma LeadingRejectionsAt<T>(action: nat -> Promise<T>, m: nat, n: nat)
    requires n <= m
    requires forall j :: 0 <= j < n ==> action(j).Rejected?
    requires n < m ==> !action(n).Rejected?
    ensures LeadingRejections(action, m) == n
  {
  }

  /**
   * The first run receives 0 and run `i` receives `i`, the number of failures
   * before it; every run but the last was rejected; the action runs at least
   * once and never more than `attempts` times when `attempts >= 1`.
   */
  lemma CallsAreFailureCounts<T>(attempts: int, action: nat -> Promise<T>)
    ensures var t := ExpectedTrace(attempts, action);
      1 <= |t.calls| <= Limit(attempts) && t.calls[0] == 0 &&
      (forall i :: 0 <= i < |t.calls| ==> t.calls[i] == i) &&
      (forall i :: 0 <= i < |t.calls| - 1 ==> action(i).Rejected?)
    ensures attempts >= 1 ==> |ExpectedTrace(attempts, action).calls| <= attempts
  {
  }

  /** Exactly one timer separates consecutive runs, and the k-th waits 5k seconds. */
  lemma LinearBackoff<T>(attempts: int, action: nat -> Promise<T>)
    ensures var t := ExpectedTrace(attempts, action);
      |t.delays| + 1 == |t.calls| &&
      forall i :: 0 <= i < |t.delays| ==> t.delays[i] == BackoffUnit * (i + 1)
  {
  }

  /**
   * A run that fulfils after `n` rejections, within the allowed runs, fulfils
   * the retry promise with its value; no further run or timer follows it.
   */
  lemma FulfilsWithFirstSuccess<T>(attempts: int, action: nat -> Promise<T>, n: nat, value: T)
    requires n < Limit(attempts)
    requires forall j :: 0 <= j < n ==> action(j).Rejected?
    requires action(n) == Fulfilled(value)
    ensures ExpectedTrace(attempts, action) == RetryTrace(Fulfilled(value), Upto(n + 1), Backoff(n))
  {
    LeadingRejectionsAt(action, Limit(attempts), n);
  }

  /**
   * When every allowed run rejects, the retry promise rejects with a
   * `TooManyRetriesException` that holds every reason in call order, reports the
   * count in its message, keeps code 0 and has the last reason as `previous`.
   */
  lemma RejectsAfterExhaustion<T>(attempts: int, action: nat -> Promise<T>)
    requires forall j :: 0 <= j < Limit(attempts) ==> action(j).Rejected?
    ensures var m := Limit(attempts);
      var t := ExpectedTrace(attempts, action);
      t.outcome.Rejected? && t.outcome.reason.TooManyRetries? &&
      var e := t.outcome.reason.exception;
      |e.exceptions| == m &&
      (forall j :: 0 <= j < m ==> action(j) == Rejected(e.exceptions[j])) &&
      e.message == "Max attempts of " + Decimal.NatToString(m) + " reached" &&
      e.code == 0 &&
      e.previous == Some(action(m - 1).reason) &&
      t.calls == Upto(m) && t.delays == Backoff(m - 1)
  {
    LeadingRejectionsAt(action, Limit(attempts), Limit(attempts));
  }

  /**
   * The retry promise rejects only with a `TooManyRetriesException`, and only
   * after all allowed runs rejected; its exception list is never empty.
   */
  lemma RejectionMeansExhaustion<T>(attempts: int, action: nat -> Promise<T>)
    requires ExpectedTrace(attempts, action).outcome.Rejected?
    ensures forall j :: 0 <= j < Limit(attempts) ==> action(j).Rejected?
    ensures var reason := ExpectedTrace(attempts, action).outcome.reason;
      reason.TooManyRetries? && |reason.exception.exceptions| == Limit(attempts) >= 1 &&
      reason.exception.previous.Some?
  {
    var m := Limit(attempts);
    var k := LeadingRejections(action, m);
    if k < m {
      assert false;
    }
  }

  /** With `attempts = 1` the first failure is terminal and carries exactly that one error. */
  lemma SingleAttemptIsTerminal<T>(action: nat -> Promise<T>, e: Throwable)
    requires action(0) == Rejected(e)
    ensures ExpectedTrace(1, action) == RetryTrace(Rejected(Exhausted(1, [e])), [0], [])
  {
    RejectsAfterExhaustion(1, action);
    assert Reasons(action, 1) == [e];
  }

  /** An action that always fails, tried 3 times: three runs, three errors in call order. */
  lemma AlwaysFailingThreeAttempts<T>(action: nat -> Promise<T>)
    requires forall j: nat :: action(j).Rejected?
    ensures ExpectedTrace(3, action) == RetryTrace(
      Rejected(TooManyRetries(TooManyRetriesException(
        "Max attempts of 3 reached", 0,
        [action(0).reason, action(1).reason, action(2).reason],
        Some(action(2).reason)))),
      [0, 1, 2], [5, 10])
  {
    RejectsAfterExhaustion(3, action);
    assert Decimal.NatToString(3) == "3";
    assert Reasons(action, 3) == [action(0).reason, action(1).reason, action(2).reason];
    assert Upto(3) == [0, 1, 2];
    assert Backoff(2) == [5, 10];
  }

  /** Failing twice, then succeeding: the third run's value, and no fourth run. */
  lemma FailTwiceThenSucceed<T>(action: nat -> Promise<T>, value: T)
    requires action(0).Rejected? && action(1).Rejected?
    requires action(2) == Fulfilled(value)
    ensures ExpectedTrace(3, action) == RetryTrace(Fulfilled(value), [0, 1, 2], [5, 10])
  {
    FulfilsWithFirstSuccess(3, action, 2, value);
    assert Upto(3) == [0, 1, 2];
    assert Backoff(2) == [5, 10];
  }

  /** Whatever the retry promise fulfils with is the value of one of the allowed runs. */
  lemma FulfilledByARun<T>(attempts: int, action: nat -> Promise<T>)
    requires ExpectedTrace(attempts, action).outcome.Fulfilled?
    ensures exists j :: 0 <= j < Limit(attempts) && action(j) == ExpectedTrace(attempts, action).outcome
  {
    var k := LeadingRejections(action, Limit(attempts));
    assert action(k) == ExpectedTrace(attempts, action).outcome;
  }
}
