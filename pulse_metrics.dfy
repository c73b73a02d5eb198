/**
 * PulseMetrics: the senders registered with one output, and the newest pulse time among them.
 * A sender is identified by its PulseSource address; each source's LastTicks is read through the
 * `lastTicks` parameter, since no code in this model sets it.
 */
module Metrics {

  /** `DateTime.MinValue.Ticks`. */
  const MIN_TICKS: int := 0

  class PulseMetrics {
    /** `_pulseSources`: the slots holding the sender addresses. */
    const senders: array<int>
    /** `_length`: how many slots are filled. */
    var length: int

    constructor (senders: array<int>)
      ensures this.senders == senders && length == 0
    {
      this.senders := senders;
      length := 0;
    }

    /** The newest LastTicks among the registered senders, or MinValue when there is none. */
    method GetLastTicks(lastTicks: int -> int) returns (max: int)
      requires 0 <= length <= senders.Length
      ensures MIN_TICKS <= max
      ensures forall i | 0 <= i < length :: lastTicks(senders[i]) <= max
      ensures max == MIN_TICKS || exists i | 0 <= i < length :: max == lastTicks(senders[i])
    {
      max := MIN_TICKS;
      var i := 0;
      while i < length
        invariant 0 <= i <= length
        invariant MIN_TICKS <= max
        invariant forall j | 0 <= j < i :: lastTicks(senders[j]) <= max
        invariant max == MIN_TICKS || exists j | 0 <= j < i :: max == lastTicks(senders[j])
      {
        var t := lastTicks(senders[i]);
        if max < t {
          max := t;
        }
        i := i + 1;
      }
    }

    /** Stores the sender in the next slot; the slots are sized by the caller, so one must be free. */
    method AddSender(source: int)
      requires 0 <= length < senders.Length
      modifies this, senders
      ensures length == old(length) + 1
      ensures senders[..] == old(senders[..])[old(length) := source]
    {
      senders[length] := source;
      length := length + 1;
    }
  }
}
