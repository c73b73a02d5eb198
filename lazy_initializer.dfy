/**
 * LazyInitializer: defers a rebuild until the outermost of any number of nested scopes ends.
 * Each Initialize() opens a scope and returns its closing handle; closing the handle decrements
 * the depth and, when the depth drops to zero or below, resets it to 0 and runs the rebuild.
 */
module Lazy {
  import opened Wrappers
  import opened Disposables

  /** Closing one scope at depth `deep`: the new depth and whether the rebuild runs. */
  function ReleaseStep(deep: int): (r: (int, bool))
    ensures r.1 <==> deep <= 1
    ensures r.1 ==> r.0 == 0
    ensures !r.1 ==> r.0 == deep - 1 && r.0 > 0
  {
    if deep - 1 > 0 then (deep - 1, false) else (0, true)
  }

  class LazyInitializer {
    /** `_deep`: how many scopes are open. */
    var deep: int

    /** The rebuild action is the owner's; the initializer only decides when it runs. */
    constructor ()
      ensures deep == 0
    {
      deep := 0;
    }

    /**
     * Opens a scope. The returned handle carries this initializer as the payload of its closing
     * action, which Release performs.
     */
    method Initialize() returns (guard: AnonymousDisposable<LazyInitializer>)
      modifies this
      ensures deep == old(deep) + 1
      ensures fresh(guard) && guard.Valid()
      ensures guard.onDispose == Some(this)
    {
      deep := deep + 1;
      guard := new AnonymousDisposable(Some(this));
    }

    /**
     * Disposes a handle from Initialize: the first disposal closes its scope (`fire` says whether
     * the rebuild runs now); any later disposal of the same handle does nothing.
     */
    method Release(guard: AnonymousDisposable<LazyInitializer>) returns (fire: bool)
      requires guard.Valid()
      requires guard.onDispose.Some? ==> guard.onDispose.value == this
      modifies this, guard
      ensures guard.Valid() && guard.onDispose == None
      ensures old(guard.onDispose).None? ==> !fire && deep == old(deep)
      ensures old(guard.onDispose).Some? ==> (deep, fire) == ReleaseStep(old(deep))
    {
      var action := guard.Dispose();
      fire := false;
      if action.Some? {
        deep := deep - 1;
        if deep > 0 {
          return;
        }
        deep := 0;
        fire := true;
      }
    }

    /** Runs the rebuild now, whatever the depth, which it leaves as it is. */
    method ForceInitialize() returns (fire: bool)
      ensures fire
    {
      fire := true;
    }
  }

  /** A scope with the scopes opened and closed inside it, in order. */
  datatype Scope = Scope(nested: seq<Scope>)

  datatype Event = Enter | Exit

  /** The Initialize/Dispose calls of one scope. */
  function Events(s: Scope): seq<Event>
    decreases s, 1
  {
    [Enter] + EventsOf(s.nested) + [Exit]
  }

  function EventsOf(ss: seq<Scope>): seq<Event>
    decreases ss, 0
  {
    if ss == [] then [] else Events(ss[0]) + EventsOf(ss[1..])
  }

  /** The depth after `es` from depth `deep`, and how many times the rebuild ran. */
  function Run(deep: int, es: seq<Event>): (int, nat)
    decreases es
  {
    if es == [] then (deep, 0)
    else
      var (d, f) := if es[0] == Enter then (deep + 1, false) else ReleaseStep(deep);
      var (d2, n) := Run(d, es[1..]);
      (d2, n + if f then 1 else 0)
  }

  lemma {:induction false} RunAppend(deep: int, a: seq<Event>, b: seq<Event>)
    ensures Run(deep, a + b) == (Run(Run(deep, a).0, b).0, Run(deep, a).1 + Run(Run(deep, a).0, b).1)
    decreases a
  {
    if a != [] {
      assert (a + b)[1..] == a[1..] + b;
      var (d, f) := if a[0] == Enter then (deep + 1, false) else ReleaseStep(deep);
      RunAppend(d, a[1..], b);
    } else {
      assert a + b == b;
    }
  }

  /**
   * A scope opened at depth `deep` >= 0 returns to that depth, and runs the rebuild once, on its
   * closing event, exactly when it is outermost (deep == 0); nested scopes never run it.
   */
  lemma {:induction false} ScopeRun(s: Scope, deep: int)
    requires deep >= 0
    ensures Run(deep, Events(s)) == (deep, if deep == 0 then 1 else 0)
    ensures Run(deep, [Enter] + EventsOf(s.nested)) == (deep + 1, 0)
    decreases s, 1
  {
    ScopesRun(s.nested, deep + 1);
    RunAppend(deep, [Enter], EventsOf(s.nested));
    RunAppend(deep, [Enter] + EventsOf(s.nested), [Exit]);
  }

  lemma {:induction false} ScopesRun(ss: seq<Scope>, deep: int)
    requires deep >= 1
    ensures Run(deep, EventsOf(ss)) == (deep, 0)
    decreases ss, 0
  {
    if ss != [] {
      ScopeRun(ss[0], deep);
      ScopesRun(ss[1..], deep);
      RunAppend(deep, Events(ss[0]), EventsOf(ss[1..]));
    }
  }
}
