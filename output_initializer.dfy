/**
 * OutputInitializer: the board's record of one output: the names of the inputs wired to it,
 * the callbacks subscribed on it, its dense index and the probe it was handed.
 */
module Outputs {
  import opened Wrappers
  import opened Lists
  import opened Disposables
  import opened Probes

  const INT_MAX: int := 0x7FFF_FFFF
  const INT_MIN: int := -0x8000_0000

  /** A C# `int`. */
  type int32 = x: int | INT_MIN <= x <= INT_MAX

  class OutputInitializer {
    /** `Key`: the output's name. */
    const key: string
    /** `Index`: the output's bit in the flag region, set by the board. */
    var index: int32
    /** `_callbacks`. */
    var callbacks: seq<Callback>
    /** `_inputs`: the names of the inputs connected to this output. */
    var inputs: set<string>
    /** The probe last injected into the output (`IRelayOutput.Inject`); None before any. */
    var probe: Option<PulseProbe>

    constructor (key: string)
      ensures this.key == key && index == 0
      ensures callbacks == [] && inputs == {} && probe == None
    {
      this.key := key;
      index := 0;
      callbacks := [];
      inputs := {};
      probe := None;
    }

    /**
     * A null callback gets the empty handle and changes nothing; any other is appended, and
     * its handle carries the callback its disposal removes.
     */
    method Subscribe(callback: Option<Callback>) returns (handle: AnonymousDisposable<Callback>)
      modifies this
      ensures fresh(handle) && handle.Valid()
      ensures callback.None? ==> handle.onDispose == None && unchanged(this)
      ensures callback.Some? ==> handle.onDispose == callback && callbacks == old(callbacks) + [callback.value]
      ensures inputs == old(inputs) && index == old(index) && probe == old(probe)
    {
      if callback.None? {
        handle := new AnonymousDisposable.Empty();
        return;
      }
      callbacks := callbacks + [callback.value];
      handle := new AnonymousDisposable(callback);
    }

    /** Disposes a handle Subscribe returned: the first disposal removes one occurrence of its callback. */
    method Unsubscribe(handle: AnonymousDisposable<Callback>)
      modifies this, handle
      ensures handle.onDispose == None
      ensures old(handle.onDispose).None? ==> callbacks == old(callbacks)
      ensures old(handle.onDispose).Some? ==> callbacks == RemoveFirst(old(callbacks), old(handle.onDispose).value)
      ensures inputs == old(inputs) && index == old(index) && probe == old(probe)
    {
      var run := handle.Dispose();
      if run.Some? {
        callbacks := RemoveFirst(callbacks, run.value);
      }
      assert inputs == old(inputs) && index == old(index) && probe == old(probe);
    }

    /** Records an input by name; a name already there changes nothing. */
    method AddInput(name: string)
      modifies this
      ensures inputs == old(inputs) + {name} && HasInput(name)
      ensures name in old(inputs) ==> unchanged(this)
      ensures callbacks == old(callbacks) && index == old(index) && probe == old(probe)
    {
      if name in inputs {
        return;
      }
      inputs := inputs + {name};
    }

    /**
     * Whether the named input is connected: only a record holding some input says yes, and
     * removing a name it says no to leaves its inputs as they are.
     */
    predicate HasInput(name: string): (has: bool)
      reads this
      ensures has ==> inputs != {}
      ensures !has ==> inputs - {name} == inputs
    {
      name in inputs
    }

    /**
     * Forgets an input by name; when none is left the record disposes itself, and `disposed`
     * tells the owner to deregister it (`_onDisposed`).
     */
    method RemoveInput(name: string) returns (disposed: bool)
      modifies this
      ensures disposed <==> old(inputs) - {name} == {}
      ensures inputs == old(inputs) - {name} && !HasInput(name)
      ensures !disposed ==> callbacks == old(callbacks)
      ensures disposed ==> callbacks == []
      ensures name !in old(inputs) && !disposed ==> unchanged(this)
      ensures index == old(index) && probe == old(probe)
    {
      ghost var before := inputs;
      inputs := inputs - {name};
      assert name !in before ==> inputs == before;
      disposed := false;
      if inputs == {} {
        Dispose();
        disposed := true;
      }
    }

    /** Hands the probe to the output. */
    method Inject(state: PulseProbe)
      modifies `probe
      ensures probe == Some(state)
    {
      probe := Some(state);
    }

    /** Drops every callback and input; the owner deregisters the record. */
    method Dispose()
      modifies this
      ensures callbacks == [] && inputs == {}
      ensures index == old(index) && probe == old(probe)
    {
      callbacks := [];
      inputs := {};
    }
  }
}
