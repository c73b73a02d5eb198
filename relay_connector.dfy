/**
 * RelayConnector: one wire from an input to an output. Creating it records the edge on both
 * ends; its subscriptions add callbacks to the input; disposing it removes the edge on both
 * ends and every subscription made through it. Each of these runs inside a scope of the board's
 * LazyInitializer, so the board rebuilds once the scope closes.
 */
module Connectors {
  import opened Wrappers
  import opened Lists
  import opened Disposables
  import opened Lazy
  import opened Outputs
  import opened Inputs

  /* ---- Connector keys ---- */

  /** The key the board files a connector under, as written: the two names joined by '-'. */
  function KeyAsWritten(iKey: string, oKey: string): (k: string)
    ensures |k| == |iKey| + 1 + |oKey| && k[|iKey|] == '-'
  {
    iKey + "-" + oKey
  }

  /** Two different wires, one key: an input name holding '-' is read as part of the output name. */
  lemma KeyAsWrittenCollides()
    ensures ("a-b", "c") != ("a", "b-c")
    ensures KeyAsWritten("a-b", "c") == KeyAsWritten("a", "b-c")
  {
  }

  /** The input name with every '-' and '\' preceded by a '\', so that its first bare '-' ends it. */
  function Escape(s: string): (r: string)
    ensures |r| >= |s|
    ensures '-' !in s && '\\' !in s ==> r == s
  {
    if s == [] then []
    else if s[0] == '-' || s[0] == '\\' then ['\\', s[0]] + Escape(s[1..])
    else [s[0]] + Escape(s[1..])
  }

  /** The corrected key: the escaped input name, a '-', then the output name. */
  function Key(iKey: string, oKey: string): string
  {
    Escape(iKey) + "-" + oKey
  }

  /** Reads a key back: the unescaped text before the first bare '-', and the rest. */
  function SplitKey(k: string): Option<(string, string)>
  {
    if k == [] then None
    else if k[0] == '-' then Some(([], k[1..]))
    else if k[0] == '\\' then
      if |k| < 2 then None
      else match SplitKey(k[2..]) {
        case None => None
        case Some(p) => Some(([k[1]] + p.0, p.1))
      }
    else match SplitKey(k[1..]) {
      case None => None
      case Some(p) => Some(([k[0]] + p.0, p.1))
    }
  }

  /** Every key reads back as the two names it was built from. */
  lemma {:induction false} SplitKeyRoundTrip(iKey: string, oKey: string)
    ensures SplitKey(Key(iKey, oKey)) == Some((iKey, oKey))
  {
    var k := Key(iKey, oKey);
    if iKey == [] {
      assert k == ['-'] + oKey;
      assert k[1..] == oKey;
    } else {
      var c, tail := iKey[0], iKey[1..];
      SplitKeyRoundTrip(tail, oKey);
      var rest := Key(tail, oKey);
      var prefix := if c == '-' || c == '\\' then ['\\', c] else [c];
      assert Escape(iKey) == prefix + Escape(tail);
      assert k == prefix + rest;
      assert k[|prefix|..] == rest;
      assert [c] + tail == iKey;
    }
  }

  /** Different wires get different keys, so the board keeps one connector per wire. */
  lemma {:induction false} KeyInjective(iKey: string, oKey: string, iKey': string, oKey': string)
    ensures Key(iKey, oKey) == Key(iKey', oKey') <==> iKey == iKey' && oKey == oKey'
  {
    SplitKeyRoundTrip(iKey, oKey);
    SplitKeyRoundTrip(iKey', oKey');
  }

  /* ---- The connector ---- */

  /** What the connector's payloads were when a list of subscriptions was disposed in order. */
  ghost function Payloads(subs: seq<AnonymousDisposable<Callback>>): (r: seq<Option<Callback>>)
    reads set s | s in subs
    ensures |r| == |subs| && forall t | 0 <= t < |subs| :: r[t] == subs[t].onDispose
  {
    seq(|subs|, t reads if 0 <= t < |subs| then {subs[t]} else {} => if 0 <= t < |subs| then subs[t].onDispose else None)
  }

  /** Disposing one subscription: a pending one removes one occurrence of its callback. */
  function DisposeStep(callbacks: seq<Callback>, payload: Option<Callback>): seq<Callback>
  {
    match payload
    case None => callbacks
    case Some(c) => RemoveFirst(callbacks, c)
  }

  /** Disposing subscriptions in order, one DisposeStep each. */
  function RemoveEach(callbacks: seq<Callback>, payloads: seq<Option<Callback>>): (r: seq<Callback>)
    ensures callbacks == [] ==> r == []
  {
    if payloads == [] then callbacks
    else DisposeStep(RemoveEach(callbacks, payloads[..|payloads| - 1]), payloads[|payloads| - 1])
  }

  /** One more disposal is one more DisposeStep. */
  lemma RemoveEachSnoc(callbacks: seq<Callback>, payloads: seq<Option<Callback>>, t: nat)
    requires t < |payloads|
    ensures RemoveEach(callbacks, payloads[..t + 1]) == DisposeStep(RemoveEach(callbacks, payloads[..t]), payloads[t])
  {
    assert payloads[..t + 1][..t] == payloads[..t];
  }

  class RelayConnector {
    /** `Key`. */
    const key: string
    /** `_input`, `_output` and `_lazy`. */
    const input: InputInitializer
    const output: OutputInitializer
    const lazy: LazyInitializer
    /** `_subscriptions`: the input subscriptions made through this connector and not yet removed. */
    var subscriptions: seq<AnonymousDisposable<Callback>>

    /** The live subscriptions are distinct handles. */
    ghost predicate Valid()
      reads this
    {
      NoDuplicates(subscriptions)
    }

    /** The live subscriptions, as a frame. */
    ghost function Subs(): set<object>
      reads this
    {
      set s | s in subscriptions
    }

    /**
     * Records the edge on both ends. The constructor then forces the rebuild, whatever the
     * scope depth: the owner runs it.
     */
    constructor (key: string, input: InputInitializer, output: OutputInitializer, lazy: LazyInitializer)
      modifies input, output
      ensures Valid()
      ensures this.key == key && this.input == input && this.output == output && this.lazy == lazy
      ensures subscriptions == []
      ensures output.inputs == old(output.inputs) + {input.key}
      ensures output.callbacks == old(output.callbacks) && output.index == old(output.index)
      ensures output.probe == old(output.probe)
      ensures input.outputs == if output.key in old(input.outputs) then old(input.outputs)
        else old(input.outputs)[output.key := output]
      ensures input.callbacks == old(input.callbacks) && input.mask == old(input.mask)
      ensures input.maskLength == old(input.maskLength) && input.flagsOffset == old(input.flagsOffset)
      ensures input.source == old(input.source) && input.arena == old(input.arena)
      ensures input.isInitialized == old(input.isInitialized) && input.linked == old(input.linked)
    {
      this.key := key;
      this.input := input;
      this.output := output;
      this.lazy := lazy;
      subscriptions := [];
      new;
      output.AddInput(input.key);
      input.AddOutput(output);
    }

    /**
     * Inside a lazy scope: subscribes the callback on the input and keeps the subscription.
     * The handle returned carries that subscription, for Unsubscribe. `fire` says whether the
     * rebuild runs as the scope closes: exactly when no outer scope was open.
     */
    method Subscribe(callback: Option<Callback>) returns (handle: AnonymousDisposable<AnonymousDisposable<Callback>>, fire: bool)
      requires Valid()
      modifies this, lazy, input
      ensures Valid()
      ensures fresh(handle) && handle.Valid() && handle.onDispose.Some?
      ensures var sub := handle.onDispose.value;
        fresh(sub) && sub.onDispose == callback && subscriptions == old(subscriptions) + [sub]
      ensures callback.Some? ==> input.callbacks == old(input.callbacks) + [callback.value]
      ensures callback.None? ==> input.callbacks == old(input.callbacks)
      ensures input.Wiring() == old(input.Wiring())
      ensures lazy.deep == old(lazy.deep) || (old(lazy.deep) <= 0 && lazy.deep == 0)
      ensures fire <==> old(lazy.deep) <= 0
    {
      var guard := lazy.Initialize();
      var sub := input.Subscribe(callback);
      subscriptions := subscriptions + [sub];
      handle := new AnonymousDisposable(Some(sub));
      fire := lazy.Release(guard);
    }

    /**
     * Disposes a handle Subscribe returned. The first disposal, inside a lazy scope, disposes
     * the subscription it carries (removing its callback from the input, if still pending)
     * and forgets it; `fire` says whether the rebuild runs as the scope closes. A later
     * disposal does nothing.
     */
    method Unsubscribe(handle: AnonymousDisposable<AnonymousDisposable<Callback>>) returns (fire: bool)
      requires Valid()
      modifies this, lazy, input, handle, if handle.onDispose.Some? then {handle.onDispose.value} else {}
      ensures Valid() && handle.onDispose == None
      ensures old(handle.onDispose).None? ==>
        !fire && subscriptions == old(subscriptions) && input.callbacks == old(input.callbacks)
        && lazy.deep == old(lazy.deep)
      ensures old(handle.onDispose).Some? ==>
        var sub := old(handle.onDispose).value;
        && sub.onDispose == None
        && subscriptions == RemoveFirst(old(subscriptions), sub)
        && input.callbacks == (if old(sub.onDispose).Some?
          then RemoveFirst(old(input.callbacks), old(sub.onDispose).value) else old(input.callbacks))
        && (fire <==> old(lazy.deep) <= 0)
        && (lazy.deep == old(lazy.deep) || (old(lazy.deep) <= 0 && lazy.deep == 0))
      ensures input.Wiring() == old(input.Wiring()) && Subs() <= old(Subs())
    {
      ghost var payload := if handle.onDispose.Some? then handle.onDispose.value.onDispose else None;
      var run := handle.Dispose();
      fire := false;
      if run.Some? {
        var sub := run.value;
        assert sub.onDispose == payload;
        var guard := lazy.Initialize();
        input.Unsubscribe(sub);
        RemoveFirstKeepsDistinct(subscriptions, sub);
        subscriptions := RemoveFirst(subscriptions, sub);
        fire := lazy.Release(guard);
      }
    }

    /**
     * Inside a lazy scope: removes the edge from the output (which may dispose it, reported in
     * `outputDisposed`) and then from the input as written (RemoveOutputAsWritten: the bit
     * cleared is the output's index, not rebased, so it can raise ArgumentOutOfRange or clear
     * another output's bit; it may also dispose the input, reported in `inputDisposed`).
     * When the input side fails, nothing more happens but the
     * scope still closes. Otherwise every live subscription is disposed in order and the list
     * is cleared, and the owner deregisters the connector. `fire` says whether the rebuild
     * runs as the scope closes.
     */
    method Dispose() returns (r: Outcome, outputDisposed: bool, inputDisposed: bool, fire: bool)
      requires Valid() && input.SourceFits() && input.queue.Valid()
      requires input.arena != null ==> input.arena as object != input.queue.arr
      modifies this, lazy, input, output, input.arena, input.queue, Subs()
      ensures Valid()
      ensures input.SourceFits() && input.queue.Valid()
      ensures input.queue.arr == old(input.queue.arr) && input.queue.capacity == old(input.queue.capacity)
      ensures input.maskLength == old(input.maskLength) && input.flagsOffset == old(input.flagsOffset)
      ensures input.source == old(input.source) && input.arena == old(input.arena)
      // the output end
      ensures outputDisposed <==> old(output.inputs) - {input.key} == {}
      ensures output.inputs == old(output.inputs) - {input.key}
      ensures output.callbacks == if outputDisposed then [] else old(output.callbacks)
      ensures output.index == old(output.index) && output.probe == old(output.probe)
      // the input end
      ensures r == Fail(ArgumentOutOfRange) <==> old(|input.mask|) > 0 && ClearAsWritten(old(input.mask), output.index).None?
      ensures r.Fail? <==>
        old(|input.mask|) > 0 && (ClearAsWritten(old(input.mask), output.index).None? || input.source == null
                                  || old(|input.mask|) > 32 * (input.source.maskLength / 4 + 4))
      ensures r.Fail? && r != Fail(ArgumentOutOfRange) ==> r.error == if input.source == null then NullReference else Argument
      ensures inputDisposed <==> r.Pass? && old(input.outputs).Keys <= {output.key}
      ensures !inputDisposed ==> input.outputs == old(input.outputs) - {output.key}
      ensures inputDisposed ==> input.outputs == map[] && input.mask == [] && input.callbacks == []
      ensures !inputDisposed ==> input.mask == if old(|input.mask|) > 0 && ClearAsWritten(old(input.mask), output.index).Some?
        then ClearAsWritten(old(input.mask), output.index).value else old(input.mask)
      ensures inputDisposed ==> input.queue.Items() == [] && !input.isInitialized && input.linked == None
      ensures !inputDisposed ==>
        input.queue.Items() == old(input.queue.Items()) && input.isInitialized == old(input.isInitialized)
        && input.linked == old(input.linked)
      // the subscriptions
      ensures r.Fail? ==> subscriptions == old(subscriptions) && input.callbacks == old(input.callbacks)
      ensures r.Pass? ==> subscriptions == [] && forall s | s in old(subscriptions) :: s.onDispose == None
      ensures r.Pass? && !inputDisposed ==>
        input.callbacks == RemoveEach(old(input.callbacks), old(Payloads(subscriptions)))
      // the scope
      ensures fire <==> old(lazy.deep) <= 0
      ensures lazy.deep == old(lazy.deep) || (old(lazy.deep) <= 0 && lazy.deep == 0)
    {
      ghost var payloads := Payloads(subscriptions);
      var guard := lazy.Initialize();
      outputDisposed := output.RemoveInput(input.key);
      r, inputDisposed := input.RemoveOutputAsWritten(output);
      if r.Fail? {
        fire := lazy.Release(guard);
        return;
      }
      DisposeAll(payloads);
      fire := lazy.Release(guard);
    }

    /**
     * Disposes every live subscription in order, removing each pending callback from the input,
     * then clears the list. `payloads` names what the subscriptions hold on entry.
     */
    method DisposeAll(ghost payloads: seq<Option<Callback>>)
      requires Valid()
      requires |payloads| == |subscriptions|
      requires forall t | 0 <= t < |payloads| :: subscriptions[t].onDispose == payloads[t]
      modifies this, input, Subs()
      ensures Valid()
      ensures subscriptions == []
      ensures forall s | s in old(subscriptions) :: s.onDispose == None
      ensures input.callbacks == RemoveEach(old(input.callbacks), payloads)
      ensures input.Wiring() == old(input.Wiring())
    {
      UnsubscribeEach(input, subscriptions, payloads);
      subscriptions := [];
    }
  }

  /** `ForEach(p => p.Dispose())` over distinct subscriptions of one input: each pending callback is removed in turn. */
  method UnsubscribeEach(input: InputInitializer, subs: seq<AnonymousDisposable<Callback>>,
                         ghost payloads: seq<Option<Callback>>)
    requires NoDuplicates(subs) && |payloads| == |subs|
    requires forall t | 0 <= t < |payloads| :: subs[t].onDispose == payloads[t]
    modifies input, set s | s in subs
    ensures forall s | s in subs :: s.onDispose == None
    ensures input.callbacks == RemoveEach(old(input.callbacks), payloads)
    ensures input.Wiring() == old(input.Wiring())
  {
    var t := 0;
    while t < |subs|
      invariant 0 <= t <= |subs|
      invariant forall u | 0 <= u < t :: subs[u].onDispose == None
      invariant forall u | t <= u < |subs| :: subs[u].onDispose == payloads[u]
      invariant input.callbacks == RemoveEach(old(input.callbacks), payloads[..t])
      invariant input.Wiring() == old(input.Wiring())
    {
      input.Unsubscribe(subs[t]);
      RemoveEachSnoc(old(input.callbacks), payloads, t);
      t := t + 1;
    }
    assert payloads[..t] == payloads;
  }

  /** Removing an element keeps a list free of duplicates. */
  lemma {:induction false} RemoveFirstKeepsDistinct<T>(xs: seq<T>, x: T)
    requires NoDuplicates(xs)
    ensures NoDuplicates(RemoveFirst(xs, x))
    ensures forall y | y in RemoveFirst(xs, x) :: y in xs && y != x
  {
    if |xs| > 0 {
      var head, tail := xs[0], xs[1..];
      NoRepeatsIff(xs);
      NoRepeatsIff(tail);
      if head != x {
        var rest := RemoveFirst(tail, x);
        RemoveFirstKeepsDistinct(tail, x);
        assert RemoveFirst(xs, x) == [head] + rest;
        assert head !in rest;
        assert ([head] + rest)[1..] == rest;
        NoRepeatsIff([head] + rest);
        NoRepeatsIff(rest);
      }
    }
  }
}
