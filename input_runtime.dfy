/**
 * InputRuntime: what the board subscribes to one input once the arena is built. Each
 * notification pulses the input's source; an input with callbacks also enqueues its callback
 * batch on the board's queue, at most once until the queue is drained.
 */
module Runtimes {
  import opened Lists
  import opened Buffers
  import opened Sources

  /** The `Action<DateTime>[]` a runtime enqueues: built once and never written afterwards. */
  class Batch {
    const callbacks: seq<Callback>

    constructor (callbacks: seq<Callback>)
      ensures this.callbacks == callbacks
    {
      this.callbacks := callbacks;
    }
  }

  class InputRuntime {
    /** `_pulseSource`. */
    const source: PulseSource
    /** The name of the input whose event the runtime is subscribed to. */
    const key: string
    /** `_callbacks`. */
    const batch: Batch
    /** `_callbackQueue`, shared with the board. */
    const queue: ArrayEx<Batch?>
    /** Which handler the constructor subscribed: PulseWithCallbacks, or else Pulse. */
    const withCallbacks: bool
    /** `_insertIdx`: where the batch was last appended. */
    var insertIdx: int
    /** Whether the input subscription (`_subscription`) is still live. */
    var subscribed: bool

    /**
     * The batch is enqueued at most once: whenever the live part of the queue holds it, it
     * holds it at `insertIdx`.
     */
    ghost predicate Tracked()
      reads this, queue, queue.arr
    {
      && queue.Valid()
      && 0 <= insertIdx
      && (batch in queue.Items() ==> insertIdx < queue.index && queue.arr[insertIdx] == batch)
    }

    /** Subscribes PulseWithCallbacks when there are callbacks, Pulse otherwise. */
    constructor (source: PulseSource, key: string, callbacks: seq<Callback>, queue: ArrayEx<Batch?>)
      ensures this.source == source && this.key == key && this.queue == queue
      ensures fresh(batch) && batch.callbacks == callbacks
      ensures withCallbacks <==> |callbacks| > 0
      ensures insertIdx == 0 && subscribed
    {
      this.source := source;
      this.key := key;
      this.queue := queue;
      batch := new Batch(callbacks);
      withCallbacks := |callbacks| > 0;
      insertIdx := 0;
      subscribed := true;
    }

    /** The handler for an input without callbacks: one pulse. */
    method Pulse(arena: array<bv8>)
      requires source.Valid() && source.Fits(arena.Length)
      modifies source, arena
      ensures source.Valid() && source.Fits(arena.Length)
      ensures source.flags == old(source.flags) && source.maskOffset == old(source.maskOffset)
      ensures source.maskLength == old(source.maskLength)
      ensures arena[..] == OrInto(old(arena[..]), source.flags, source.flags + source.maskOffset, source.maskLength)
    {
      source.Pulse(arena);
    }

    /**
     * The handler for an input with callbacks: one pulse, then the batch is appended unless
     * the queue already holds it at `insertIdx`. Appending needs a free slot.
     */
    method PulseWithCallbacks(arena: array<bv8>)
      requires source.Valid() && source.Fits(arena.Length)
      requires Tracked() && arena as object != queue.arr
      requires batch !in queue.Items() ==> queue.index < queue.capacity
      modifies this, source, arena, queue, queue.arr
      ensures source.Valid() && source.Fits(arena.Length)
      ensures source.flags == old(source.flags) && source.maskOffset == old(source.maskOffset)
      ensures source.maskLength == old(source.maskLength)
      ensures arena[..] == OrInto(old(arena[..]), source.flags, source.flags + source.maskOffset, source.maskLength)
      ensures Tracked() && batch in queue.Items()
      ensures queue.arr == old(queue.arr) && queue.capacity == old(queue.capacity)
      ensures batch in old(queue.Items()) ==>
        queue.Items() == old(queue.Items()) && queue.arr[..] == old(queue.arr[..])
        && insertIdx == old(insertIdx) && queue.index == old(queue.index)
      ensures batch !in old(queue.Items()) ==>
        queue.Items() == old(queue.Items()) + [batch] && queue.arr[..] == old(queue.arr[..])[old(queue.index) := batch]
        && insertIdx == old(queue.index) && queue.index == old(queue.index) + 1
      ensures subscribed == old(subscribed)
    {
      source.Pulse(arena);
      if insertIdx >= queue.Length() || queue.Get(insertIdx) != batch {
        insertIdx := queue.Length();
        queue.Add(batch);
      }
    }

    /** What the input's event runs: the handler the constructor chose. */
    method Handle(arena: array<bv8>)
      requires source.Valid() && source.Fits(arena.Length)
      requires Tracked() && arena as object != queue.arr
      requires withCallbacks && batch !in queue.Items() ==> queue.index < queue.capacity
      modifies this, source, arena, queue, queue.arr
      ensures source.Valid() && source.Fits(arena.Length)
      ensures source.flags == old(source.flags) && source.maskOffset == old(source.maskOffset)
      ensures source.maskLength == old(source.maskLength)
      ensures arena[..] == OrInto(old(arena[..]), source.flags, source.flags + source.maskOffset, source.maskLength)
      ensures Tracked()
      ensures queue.arr == old(queue.arr) && queue.capacity == old(queue.capacity)
      ensures !withCallbacks || batch in old(queue.Items()) ==>
        queue.Items() == old(queue.Items()) && queue.arr[..] == old(queue.arr[..])
        && insertIdx == old(insertIdx) && queue.index == old(queue.index)
      ensures withCallbacks && batch !in old(queue.Items()) ==>
        queue.Items() == old(queue.Items()) + [batch] && queue.arr[..] == old(queue.arr[..])[old(queue.index) := batch]
        && insertIdx == old(queue.index) && queue.index == old(queue.index) + 1
      ensures subscribed == old(subscribed)
    {
      if withCallbacks {
        PulseWithCallbacks(arena);
      } else {
        Pulse(arena);
      }
    }

    /** Ends the input subscription. */
    method Dispose()
      modifies `subscribed
      ensures !subscribed
    {
      subscribed := false;
    }
  }
}
