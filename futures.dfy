/**
 * The one-shot future that `StepControl` extends and that serves as its trigger.
 * Only its local state is modelled: pending, resolved with a result, or cancelled.
 */
module Futures {

  datatype FutureState = Pending | Resolved | Cancelled

  /** The state after `set_result`: a pending future resolves; a finished one keeps its state. */
  function AfterSetResult(s: FutureState): (t: FutureState)
    ensures s == Pending ==> t == Resolved
    ensures s != Pending ==> t == s
  {
    if s == Pending then Resolved else s
  }

  /** The state after `cancel()`: a pending future is cancelled; a finished one keeps its state. */
  function AfterCancel(s: FutureState): (t: FutureState)
    ensures s == Pending ==> t == Cancelled
    ensures s != Pending ==> t == s
  {
    if s == Pending then Cancelled else s
  }

  /** Resolving a second time changes nothing: a future is resolved at most once. */
  lemma SetResultOnce(s: FutureState)
    ensures AfterSetResult(AfterSetResult(s)) == AfterSetResult(s)
  {
  }

  /** Cancelling a second time changes nothing. */
  lemma CancelIdempotent(s: FutureState)
    ensures AfterCancel(AfterCancel(s)) == AfterCancel(s)
  {
  }

  class Future {
    var state: FutureState

    constructor ()
      ensures state == Pending
    {
      state := Pending;
    }

    /** `done()`: true once the future holds a result or was cancelled. */
    predicate Done()
      reads this
    {
      state != Pending
    }

    method SetResult()
      modifies this
      ensures state == AfterSetResult(old(state))
    {
      state := AfterSetResult(state);
    }

    /** `cancel()`: fails only when the future already holds a result. */
    method Cancel() returns (ok: bool)
      modifies this
      ensures ok <==> old(state) != Resolved
      ensures state == AfterCancel(old(state))
    {
      ok := state != Resolved;
      state := AfterCancel(state);
    }
  }
}
