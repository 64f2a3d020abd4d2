/**
 * The state of a promise and a settle-once deferred: the `$resolve`/`$reject`
 * pair handed to a promise executor. Only the first settlement takes effect;
 * every later call is a no-op (Promises/A+, section 2.1).
 */
module Promises {

  import opened Throwables

  datatype Promise<T> = Pending | Fulfilled(value: T) | Rejected(reason: Throwable)

  class Deferred<T> {
    var state: Promise<T>

    constructor ()
      ensures state == Pending
    {
      state := Pending;
    }

    /** `$resolve($value)`. */
    method Resolve(value: T)
      modifies this
      ensures state == if old(state).Pending? then Fulfilled(value) else old(state)
    {
      if state.Pending? {
        state := Fulfilled(value);
      }
    }

    /** `$reject($reason)`. */
    method Reject(reason: Throwable)
      modifies this
      ensures state == if old(state).Pending? then Rejected(reason) else old(state)
    {
      if state.Pending? {
        state := Rejected(reason);
      }
    }
  }
}
