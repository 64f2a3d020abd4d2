/**
 * `SettledPromiseResult` and its two implementors: the outcome of a promise
 * turned into a value, so that waiting for every transfer cannot fail.
 */
module Settled {

  import opened Throwables
  import opened Promises

  const STATE_FULFILLED: string := "fulfilled"
  const STATE_REJECTED: string := "rejected"

  /**
   * `SettledFulfilledPromiseResult` holds any value (PHP `mixed`, null included);
   * `SettledRejectedPromiseResult` holds a Throwable. Both are immutable.
   */
  datatype SettledPromiseResult<T> =
    | SettledFulfilled(value: T)
    | SettledRejected(reason: Throwable)
  {
    /** `getState()`: the tag that tells the two implementors apart. */
    function GetState(): (state: string)
      ensures state == STATE_FULFILLED || state == STATE_REJECTED
      ensures state == STATE_FULFILLED <==> SettledFulfilled?
      ensures state == STATE_REJECTED <==> SettledRejected?
    {
      if SettledFulfilled? then STATE_FULFILLED else STATE_REJECTED
    }

    /** The settlement this result records. */
    function AsPromise(): Promise<T> {
      match this
      case SettledFulfilled(v) => Fulfilled(v)
      case SettledRejected(e) => Rejected(e)
    }

    /** `getValue()`, which only the fulfilled implementor has: the value the promise fulfilled with. */
    function GetValue(): (v: T)
      requires SettledFulfilled?
      ensures this == SettledFulfilled(v) && AsPromise() == Fulfilled(v)
    {
      value
    }

    /** `getReason()`, which only the rejected implementor has: the reason the promise rejected with. */
    function GetReason(): (e: Throwable)
      requires SettledRejected?
      ensures this == SettledRejected(e) && AsPromise() == Rejected(e)
    {
      reason
    }
  }

  /** The two state tags differ, so `getState()` decides the implementor. */
  lemma StatesDistinct()
    ensures STATE_FULFILLED != STATE_REJECTED
  {
  }
}
