/**
 * AnonymousDisposable: a handle that runs its stored action on the first Dispose and never again.
 * The action is a closure in the engine; here the handle stores the action's payload (what the
 * closure would act on) and Dispose hands it back to the owner, who performs the action.
 */
module Disposables {
  import opened Wrappers

  class AnonymousDisposable<A> {
    /** `_onDispose`: None stands for null. */
    var onDispose: Option<A>
    /** How many times the stored action has been handed out so far. */
    ghost var invocations: nat

    /** The action is still pending exactly when it has never run, and it runs at most once. */
    ghost predicate Valid()
      reads this
    {
      invocations <= 1 && (onDispose.Some? ==> invocations == 0)
    }

    /** Stores the action without running it. */
    constructor (action: Option<A>)
      ensures Valid()
      ensures onDispose == action && invocations == 0
    {
      onDispose := action;
      invocations := 0;
    }

    /** `AnonymousDisposable.Empty`: a handle with no action, whose Dispose does nothing. */
    constructor Empty()
      ensures Valid()
      ensures onDispose == None && invocations == 0
    {
      onDispose := None;
      invocations := 0;
    }

    /**
     * Runs the stored action (returned in `run` for the owner to perform) and forgets it, so a
     * second Dispose runs nothing.
     */
    method Dispose() returns (run: Option<A>)
      modifies this
      ensures old(Valid()) ==> Valid()
      ensures run == old(onDispose)
      ensures onDispose == None
      ensures invocations == old(invocations) + (if run.Some? then 1 else 0)
    {
      run := onDispose;
      if run.Some? {
        invocations := invocations + 1;
      }
      onDispose := None;
    }
  }
}
