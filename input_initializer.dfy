/**
 * InputInitializer: the board's record of one input: the outputs wired to it, the callbacks
 * subscribed on it, and, once the board has laid out the arena, the byte span of the flag
 * region it covers and the relative mask it pulses into that span.
 */
module Inputs {
  import opened Wrappers
  import opened Lists
  import opened Disposables
  import opened Buffers
  import opened Sources
  import opened Layout
  import opened Outputs
  import opened Runtimes
  import opened Tools

  /**
   * The mask after removing the output at `index`, as the engine computes it: the bit cleared
   * is `index` itself, not rebased by the span's first byte, and an index past the mask's end
   * raises ArgumentOutOfRangeException.
   */
  function ClearAsWritten(mask: seq<bool>, index: int): (r: Option<seq<bool>>)
    ensures r.Some? <==> 0 <= index < |mask|
    ensures r.Some? ==> |r.value| == |mask|
  {
    if 0 <= index < |mask| then Some(mask[index := false]) else None
  }

  /**
   * The mask after removing the output at `index`, rebased: bit `index - 8*flagsOffset` is
   * cleared when it lies in the mask, and nothing changes otherwise.
   */
  function ClearRelative(mask: seq<bool>, index: int, flagsOffset: int): (r: seq<bool>)
    ensures |r| == |mask|
    ensures forall b | 0 <= b < |mask| :: r[b] == (mask[b] && b != index - 8 * flagsOffset)
  {
    var b := index - 8 * flagsOffset;
    if 0 <= b < |mask| then mask[b := false] else mask
  }

  /** Removing an output from a span's mask gives the mask of the remaining outputs. */
  lemma ClearRelativeRemoves(ix: set<int>, fo: int, ml: nat, index: int)
    ensures ClearRelative(MaskBits(ix, fo, ml), index, fo) == MaskBits(ix - {index}, fo, ml)
  {
    var r, m := ClearRelative(MaskBits(ix, fo, ml), index, fo), MaskBits(ix - {index}, fo, ml);
    forall b | 0 <= b < 8 * ml
      ensures r[b] == m[b]
    {
      assert (b == index - 8 * fo) <==> (b + 8 * fo == index);
    }
  }

  /**
   * The engine's clearing is wrong as soon as the span does not start at byte 0: an input
   * wired only to output 8 has a one-byte mask, and removing that output raises instead of
   * emptying the mask; an input wired to outputs 8 and 20 keeps output 8's bit set.
   */
  lemma ClearAsWrittenCounterexample()
    ensures Spans({8}, 1, 1) && ClearAsWritten(MaskBits({8}, 1, 1), 8) == None
    ensures Spans({8, 20}, 1, 2)
    ensures ClearAsWritten(MaskBits({8, 20}, 1, 2), 8) == Some(MaskBits({8, 20}, 1, 2))
    ensures MaskBits({8, 20}, 1, 2) != MaskBits({20}, 1, 2)
  {
    assert 8 in {8} && 8 / 8 == 1;
    assert 8 in {8, 20} && 20 in {8, 20} && 20 / 8 == 2;
    var m := MaskBits({8, 20}, 1, 2);
    assert !m[8];
    assert m[..][8 := false] == m;
    assert m[0] && !MaskBits({20}, 1, 2)[0];
  }

  /** Where the span starts at flag byte 0 the engine's clearing is the rebased one. */
  lemma ClearAsWrittenAtZero(mask: seq<bool>, index: int)
    requires 0 <= index < |mask|
    ensures ClearAsWritten(mask, index) == Some(ClearRelative(mask, index, 0))
  {
  }

  /**
   * The `Math.Min`/`Math.Max` scan of PrepareIndices: the least and the greatest of the
   * values, which stay at int.MaxValue and int.MinValue when there is none.
   */
  method MinMax(values: seq<int32>) returns (min: int32, max: int32)
    ensures |values| == 0 ==> min == INT_MAX && max == INT_MIN
    ensures |values| > 0 ==> min in values && max in values
    ensures forall v | v in values :: min <= v <= max
  {
    min, max := INT_MAX, INT_MIN;
    var i := 0;
    while i < |values|
      invariant 0 <= i <= |values|
      invariant i == 0 ==> min == INT_MAX && max == INT_MIN
      invariant i > 0 ==> min in values[..i] && max in values[..i]
      invariant forall v | v in values[..i] :: min <= v <= max
    {
      assert values[..i + 1] == values[..i] + [values[i]];
      min := if values[i] < min then values[i] else min;
      max := if values[i] > max then values[i] else max;
      i := i + 1;
    }
    assert values[..i] == values;
  }

  /**
   * The relative mask PrepareIndices builds: `length` cleared bits, then bit `v - floor` set
   * for every value v.
   */
  method MarkMask(values: seq<int32>, floor: int, length: nat) returns (mask: seq<bool>)
    requires forall v | v in values :: floor <= v < floor + length
    ensures |mask| == length
    ensures forall b | 0 <= b < length :: mask[b] <==> b + floor in values
  {
    mask := seq(length, _ => false);
    var i := 0;
    while i < |values|
      invariant 0 <= i <= |values|
      invariant |mask| == length
      invariant forall b | 0 <= b < length :: mask[b] <==> b + floor in values[..i]
    {
      assert values[..i + 1] == values[..i] + [values[i]];
      assert values[i] in values;
      mask := mask[values[i] - floor := true];
      i := i + 1;
    }
    assert values[..i] == values;
  }

  /** The indices of the outputs of a registry. */
  ghost function IndicesOf(outputs: map<string, OutputInitializer>): set<int>
    reads outputs.Values
  {
    set k | k in outputs :: outputs[k].index as int
  }

  /** `_outputs.Values` in the enumeration order `order`, seen through their indices. */
  function IndicesInOrder(outputs: map<string, OutputInitializer>, order: seq<string>): (r: seq<int32>)
    reads outputs.Values
    requires forall k | k in order :: k in outputs
    ensures |r| == |order| && forall t | 0 <= t < |order| :: r[t] == outputs[order[t]].index
  {
    if |order| == 0 then []
    else
      var init := order[..|order| - 1];
      assert forall k | k in init :: k in order;
      IndicesInOrder(outputs, init) + [outputs[order[|order| - 1]].index]
  }

  /** An enumeration of the output names lists every connected index. */
  lemma IndicesListed(outputs: map<string, OutputInitializer>, order: seq<string>)
    requires forall k :: k in order <==> k in outputs
    ensures IndicesOf(outputs) == Members(IndicesInOrder(outputs, order))
  {
    var values := IndicesInOrder(outputs, order);
    forall j | j in IndicesOf(outputs)
      ensures j in Members(values)
    {
      var k :| k in outputs && outputs[k].index == j;
      var t :| 0 <= t < |order| && order[t] == k;
      assert values[t] == j && values[t] in values;
    }
  }

  /** The values of a list, as a set. */
  ghost function Members(values: seq<int32>): set<int>
  {
    set v | v in values :: v as int
  }

  /**
   * The span and the relative mask of PrepareIndices for the indices `values` (the set ix):
   * the first byte is that of the least index, the length runs to the byte of the
   * greatest, and the mask has the bit of every index set.
   */
  method SpanOf(values: seq<int32>, ghost ix: set<int>) returns (flagsOffset: int, maskLength: int, mask: seq<bool>)
    requires |values| > 0 && forall v | v in values :: 0 <= v
    requires ix == Members(values)
    ensures Spans(ix, flagsOffset, maskLength) && maskLength >= 1
    ensures mask == MaskBits(ix, flagsOffset, maskLength)
  {
    var min, max := MinMax(values);
    var minInByte := min / NB_BITS_PER_BYTE;
    var maxInByte := max / NB_BITS_PER_BYTE + 1;
    flagsOffset := minInByte;
    maskLength := if maxInByte - minInByte < 0 then 0 else maxInByte - minInByte;
    var floorInBits := minInByte * NB_BITS_PER_BYTE;
    assert Spans(ix, flagsOffset, maskLength) by {
      assert min in ix && max in ix;
    }
    assert floorInBits == 8 * flagsOffset && maskLength * NB_BITS_PER_BYTE == 8 * maskLength;
    mask := MarkMask(values, floorInBits, maskLength * NB_BITS_PER_BYTE);
    ghost var bits := MaskBits(ix, flagsOffset, maskLength);
    forall b | 0 <= b < |mask|
      ensures mask[b] == bits[b]
    {
      assert mask[b] <==> b + floorInBits in values;
    }
    assert mask == bits;
  }

  /**
   * The span and the relative mask of a registry of outputs, scanned in an enumeration order
   * of its names.
   */
  method SpanOfOutputs(outputs: map<string, OutputInitializer>) returns (flagsOffset: int, maskLength: int, mask: seq<bool>)
    requires |outputs| > 0 && forall k | k in outputs :: 0 <= outputs[k].index
    ensures Spans(IndicesOf(outputs), flagsOffset, maskLength) && maskLength >= 1
    ensures mask == MaskBits(IndicesOf(outputs), flagsOffset, maskLength)
  {
    var order := Enumerate(outputs.Keys);
    var values := IndicesInOrder(outputs, order);
    IndicesListed(outputs, order);
    flagsOffset, maskLength, mask := SpanOf(values, IndicesOf(outputs));
  }

  class InputInitializer {
    /** `Key`: the input's name. */
    const key: string
    /** `_queue`: the board's callback queue. */
    const queue: ArrayEx<Batch?>
    /** `_outputs`, by output name. */
    var outputs: map<string, OutputInitializer>
    /** `_callbacks`. */
    var callbacks: seq<Callback>
    /** `_mask`: bit b stands for output `b + 8 * flagsOffset`; empty until built. */
    var mask: seq<bool>
    /** `MaskLength`, in bytes. */
    var maskLength: int
    /** `FlagsOffset`: the first flag byte the input covers, relative to the flag region. */
    var flagsOffset: int
    /** `_pulseSource`: None until Initialize. */
    var source: PulseSource?
    /** The arena the source record lives in. */
    var arena: array?<bv8>
    /** `IsInitialized`. */
    var isInitialized: bool
    /** `Outputs`: the names of the linked outputs in enumeration order; None for null. */
    var linked: Option<seq<string>>

    constructor (key: string, queue: ArrayEx<Batch?>)
      ensures this.key == key && this.queue == queue
      ensures outputs == map[] && callbacks == [] && mask == []
      ensures maskLength == 0 && flagsOffset == 0
      ensures source == null && arena == null && !isInitialized && linked == None
    {
      this.key := key;
      this.queue := queue;
      outputs := map[];
      callbacks := [];
      mask := [];
      maskLength := 0;
      flagsOffset := 0;
      source := null;
      arena := null;
      isInitialized := false;
      linked := None;
    }

    /** `HasCallbacks`: some callback is subscribed. */
    predicate HasCallbacks(): (has: bool)
      reads this
      ensures has <==> exists c :: c in callbacks
    {
      assert |callbacks| > 0 ==> callbacks[0] in callbacks;
      |callbacks| > 0
    }

    /** Every field but the callbacks: what subscribing and unsubscribing leave alone. */
    ghost function Wiring(): (map<string, OutputInitializer>, seq<bool>, int, int, PulseSource?, array?<bv8>, bool, Option<seq<string>>)
      reads this
    {
      (outputs, mask, maskLength, flagsOffset, source, arena, isInitialized, linked)
    }

    /** The source record, when there is one, lies with both its slices inside its arena. */
    ghost predicate SourceFits()
      reads `source, `arena, source
    {
      source != null ==> arena != null && source.Valid() && source.Fits(arena.Length)
    }

    /**
     * A null callback gets the empty handle and changes nothing; any other is appended, and
     * its handle carries the callback its disposal removes.
     */
    method Subscribe(callback: Option<Callback>) returns (handle: AnonymousDisposable<Callback>)
      modifies this
      ensures fresh(handle) && handle.Valid()
      ensures callback.None? ==> handle.onDispose == None && unchanged(this)
      ensures callback.Some? ==> handle.onDispose == callback && callbacks == old(callbacks) + [callback.value]
      ensures Wiring() == old(Wiring())
    {
      if callback.None? {
        handle := new AnonymousDisposable.Empty();
        return;
      }
      callbacks := callbacks + [callback.value];
      handle := new AnonymousDisposable(callback);
    }

    /** Disposes a handle Subscribe returned: the first disposal removes one occurrence of its callback. */
    method Unsubscribe(handle: AnonymousDisposable<Callback>)
      modifies this, handle
      ensures handle.onDispose == None
      ensures old(handle.onDispose).None? ==> callbacks == old(callbacks)
      ensures old(handle.onDispose).Some? ==> callbacks == RemoveFirst(old(callbacks), old(handle.onDispose).value)
      ensures Wiring() == old(Wiring())
    {
      var run := handle.Dispose();
      if run.Some? {
        callbacks := RemoveFirst(callbacks, run.value);
      }
      assert outputs == old(outputs) && mask == old(mask) && source == old(source);
    }

    /** Records an output under its name; a name already there keeps its first record. */
    method AddOutput(output: OutputInitializer)
      modifies this
      ensures outputs == if output.key in old(outputs) then old(outputs) else old(outputs)[output.key := output]
      ensures output.key in outputs
      ensures callbacks == old(callbacks) && mask == old(mask) && maskLength == old(maskLength)
      ensures flagsOffset == old(flagsOffset) && source == old(source) && arena == old(arena)
      ensures isInitialized == old(isInitialized) && linked == old(linked)
    {
      if output.key !in outputs {
        outputs := outputs[output.key := output];
      }
    }

    /**
     * Clears the removed output's bit of a built mask (rebased, see ClearRelative) and copies
     * the mask to the source record again, which raises when there is no record or when the
     * mask outgrows the record's staging buffer.
     */
    method ClearOutput(index: int) returns (r: Outcome)
      requires SourceFits() && |mask| > 0
      modifies this, arena
      ensures SourceFits()
      ensures mask == ClearRelative(old(mask), index, flagsOffset)
      ensures r.Fail? <==> source == null || |mask| > 32 * (source.maskLength / 4 + 4)
      ensures r.Fail? ==> r.error == if source == null then NullReference else Argument
      ensures outputs == old(outputs) && callbacks == old(callbacks)
      ensures maskLength == old(maskLength) && flagsOffset == old(flagsOffset)
      ensures source == old(source) && arena == old(arena)
      ensures isInitialized == old(isInitialized) && linked == old(linked)
      ensures r.Pass? ==> source != null && arena != null && arena[..] == WithMask(old(arena[..]), source.flags + source.maskOffset, source.maskLength, mask)
      ensures r.Fail? ==> arena == null || arena[..] == old(arena[..])
    {
      mask := ClearRelative(mask, index, flagsOffset);
      r := PushMask();
    }

    /**
     * `_pulseSource->UpdateMask(_mask)`: copies the mask to the source record again, which
     * raises when there is no record or when the mask outgrows the record's staging buffer.
     */
    method PushMask() returns (r: Outcome)
      requires SourceFits()
      modifies arena
      ensures r.Fail? <==> source == null || |mask| > 32 * (source.maskLength / 4 + 4)
      ensures r.Fail? ==> r.error == if source == null then NullReference else Argument
      ensures r.Pass? ==> source != null && arena != null && arena[..] == WithMask(old(arena[..]), source.flags + source.maskOffset, source.maskLength, mask)
      ensures r.Fail? ==> arena == null || arena[..] == old(arena[..])
    {
      if source == null {
        return Fail(NullReference);
      }
      if |mask| > 32 * (source.maskLength / 4 + 4) {
        return Fail(Argument);
      }
      source.UpdateMask(arena, mask);
      r := Pass;
    }

    /**
     * Forgets an output by name and, when the mask is built, clears its bit (ClearOutput).
     * When no output is left the record disposes itself, and `disposed` tells the owner to
     * deregister it (`_onDispose`).
     */
    method RemoveOutput(output: OutputInitializer) returns (r: Outcome, disposed: bool)
      requires SourceFits() && queue.Valid()
      requires arena != null ==> arena as object != queue.arr
      modifies this, arena, queue
      ensures SourceFits() && queue.Valid()
      ensures queue.arr == old(queue.arr) && queue.capacity == old(queue.capacity)
      ensures maskLength == old(maskLength) && flagsOffset == old(flagsOffset)
      ensures source == old(source) && arena == old(arena)
      ensures r.Fail? <==> old(|mask|) > 0 && (source == null || old(|mask|) > 32 * (source.maskLength / 4 + 4))
      ensures r.Fail? ==> r.error == if source == null then NullReference else Argument
      ensures disposed <==> r.Pass? && old(outputs).Keys <= {output.key}
      ensures !disposed ==> outputs == old(outputs) - {output.key} && callbacks == old(callbacks)
      ensures !disposed ==> queue.Items() == old(queue.Items()) && isInitialized == old(isInitialized) && linked == old(linked)
      ensures !disposed ==> mask == if old(|mask|) > 0 then ClearRelative(old(mask), output.index, flagsOffset) else old(mask)
      ensures disposed ==> outputs == map[] && callbacks == [] && mask == [] && !isInitialized && linked == None
      ensures disposed ==> queue.Items() == []
      ensures r.Pass? && old(|mask|) > 0 ==>
        source != null && arena != null &&
        arena[..] == WithMask(old(arena[..]), source.flags + source.maskOffset, source.maskLength,
                              ClearRelative(old(mask), output.index, flagsOffset))
      ensures r.Fail? || old(|mask|) == 0 ==> arena == null || arena[..] == old(arena[..])
    {
      outputs := outputs - {output.key};
      assert |outputs| == 0 <==> old(outputs).Keys <= {output.key} by {
        assert outputs.Keys == old(outputs).Keys - {output.key};
      }
      r := Pass;
      if |mask| > 0 {
        r := ClearOutput(output.index);
        if r.Fail? {
          return r, false;
        }
      }
      disposed := DisposeIfEmpty();
    }

    /**
     * RemoveOutput as written: the bit cleared is the output's index itself (ClearAsWritten),
     * so an index past the end of the mask raises ArgumentOutOfRange, after the output was
     * forgotten, and an index inside it clears the bit of another output or none.
     */
    method RemoveOutputAsWritten(output: OutputInitializer) returns (r: Outcome, disposed: bool)
      requires SourceFits() && queue.Valid()
      requires arena != null ==> arena as object != queue.arr
      modifies this, arena, queue
      ensures SourceFits() && queue.Valid()
      ensures queue.arr == old(queue.arr) && queue.capacity == old(queue.capacity)
      ensures maskLength == old(maskLength) && flagsOffset == old(flagsOffset)
      ensures source == old(source) && arena == old(arena)
      ensures r == Fail(ArgumentOutOfRange) <==> old(|mask|) > 0 && ClearAsWritten(old(mask), output.index).None?
      ensures r.Fail? <==>
        old(|mask|) > 0 && (ClearAsWritten(old(mask), output.index).None? || source == null || old(|mask|) > 32 * (source.maskLength / 4 + 4))
      ensures r.Fail? && r != Fail(ArgumentOutOfRange) ==> r.error == if source == null then NullReference else Argument
      ensures disposed <==> r.Pass? && old(outputs).Keys <= {output.key}
      ensures !disposed ==> outputs == old(outputs) - {output.key} && callbacks == old(callbacks)
      ensures !disposed ==> queue.Items() == old(queue.Items()) && isInitialized == old(isInitialized) && linked == old(linked)
      ensures !disposed ==> mask == if old(|mask|) > 0 && ClearAsWritten(old(mask), output.index).Some?
        then ClearAsWritten(old(mask), output.index).value else old(mask)
      ensures disposed ==> outputs == map[] && callbacks == [] && mask == [] && !isInitialized && linked == None
      ensures disposed ==> queue.Items() == []
      ensures r == Fail(ArgumentOutOfRange) || (r.Fail? && old(|mask|) == 0) ==> arena == null || arena[..] == old(arena[..])
    {
      outputs := outputs - {output.key};
      assert |outputs| == 0 <==> old(outputs).Keys <= {output.key} by {
        assert outputs.Keys == old(outputs).Keys - {output.key};
      }
      r := Pass;
      if |mask| > 0 {
        var cleared := ClearAsWritten(mask, output.index);
        if cleared.None? {
          return Fail(ArgumentOutOfRange), false;
        }
        mask := cleared.value;
        r := PushMask();
        if r.Fail? {
          return r, false;
        }
      }
      disposed := DisposeIfEmpty();
    }

    /** `if (_outputs.Count == 0) Dispose()`: `disposed` says whether it ran. */
    method DisposeIfEmpty() returns (disposed: bool)
      requires queue.Valid()
      modifies this, queue
      ensures disposed <==> |old(outputs)| == 0
      ensures !disposed ==> unchanged(this) && unchanged(queue)
      ensures disposed ==> mask == [] && outputs == map[] && callbacks == [] && linked == None && !isInitialized
      ensures queue.Valid() && queue.arr == old(queue.arr) && queue.capacity == old(queue.capacity)
      ensures disposed ==> queue.Items() == []
      ensures maskLength == old(maskLength) && flagsOffset == old(flagsOffset)
      ensures source == old(source) && arena == old(arena)
      ensures arena != null ==> arena[..] == old(arena[..])
    {
      disposed := |outputs| == 0;
      if disposed {
        Dispose();
      }
    }

    /**
     * Computes the byte span of the connected outputs' indices and the relative mask. With no
     * output the span is empty and the mask is left as it was.
     */
    method PrepareIndices()
      requires forall k | k in outputs :: 0 <= outputs[k].index
      modifies `maskLength, `flagsOffset, `mask
      ensures |outputs| == 0 ==> maskLength == 0 && flagsOffset == 0 && mask == old(mask)
      ensures |outputs| > 0 ==> Spans(old(IndicesOf(outputs)), flagsOffset, maskLength) && maskLength >= 1
      ensures |outputs| > 0 ==> mask == MaskBits(old(IndicesOf(outputs)), flagsOffset, maskLength)
    {
      maskLength := 0;
      flagsOffset := 0;
      if |outputs| == 0 {
        return;
      }
      flagsOffset, maskLength, mask := SpanOfOutputs(outputs);
    }

    /**
     * Copies the mask into the source record and keeps the record, lists the linked outputs,
     * and marks the input initialized.
     */
    method Initialize(producer: PulseSource, arena: array<bv8>)
      requires producer.Valid() && producer.Fits(arena.Length)
      requires |mask| <= 32 * (producer.maskLength / 4 + 4)
      modifies `source, `arena, `linked, `isInitialized, arena
      ensures source == producer && this.arena == arena && SourceFits() && isInitialized
      ensures linked.Some? && NoDuplicates(linked.value)
      ensures forall k :: k in linked.value <==> k in outputs
      ensures arena[..] == WithMask(old(arena[..]), producer.flags + producer.maskOffset, producer.maskLength, mask)
    {
      producer.UpdateMask(arena, mask);
      source := producer;
      this.arena := arena;
      var order := Enumerate(outputs.Keys);
      linked := Some(order);
      isInitialized := true;
    }

    /**
     * The runtime for this input: its source record, and each subscribed callback once (their
     * order is left open).
     */
    method CreateRuntime() returns (runtime: InputRuntime)
      requires source != null
      ensures fresh(runtime) && fresh(runtime.batch)
      ensures runtime.source == source && runtime.key == key && runtime.queue == queue
      ensures NoDuplicates(runtime.batch.callbacks)
      ensures forall c :: c in runtime.batch.callbacks <==> c in callbacks
      ensures runtime.withCallbacks <==> HasCallbacks()
      ensures runtime.insertIdx == 0 && runtime.subscribed
    {
      var compacted := Distinct(callbacks);
      assert |callbacks| > 0 ==> callbacks[0] in compacted;
      runtime := new InputRuntime(source, key, compacted, queue);
    }

    /** Drops the mask, the outputs and the callbacks and empties the shared queue; the owner deregisters the record. */
    method Dispose()
      requires queue.Valid()
      modifies this, queue
      ensures mask == [] && outputs == map[] && callbacks == [] && linked == None && !isInitialized
      ensures queue.Valid() && queue.Items() == [] && queue.arr == old(queue.arr) && queue.capacity == old(queue.capacity)
      ensures maskLength == old(maskLength) && flagsOffset == old(flagsOffset)
      ensures source == old(source) && arena == old(arena)
    {
      mask := [];
      outputs := map[];
      callbacks := [];
      queue.Reset();
      linked := None;
      isInitialized := false;
    }
  }
}
