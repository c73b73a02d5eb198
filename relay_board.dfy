/**
 * RelayBoard: the registries of inputs, outputs and connectors, and the arena Initialize lays
 * out for them. After a successful Initialize every output owns one flag bit and one probe,
 * every input owns a pulse source whose mask slice holds the bits of the outputs wired to it,
 * and a notification of an input sets exactly the flags of its outputs.
 */
module Board {
  import opened Wrappers
  import opened Lists
  import opened Bytes
  import opened UintBits
  import opened Disposables
  import opened Buffers
  import opened Sources
  import opened Probes
  import opened Layout
  import opened Lazy
  import opened Outputs
  import opened Inputs
  import opened Runtimes
  import opened Connectors
  import opened Tools
  import opened Wiring

  /* ---- What Initialize leaves in the arena ---- */

  /** The input listed t-th is wired through the t-th source, with its mask slice t-th in the mask region. */
  ghost predicate SourcesWired(inputs: map<string, InputInitializer>, order: seq<string>, sources: seq<PulseSource>,
                               outOrder: seq<string>, s: seq<bv8>, regions: Regions, lengths: seq<nat>)
    reads inputs.Values, (set src | src in sources)
  {
    && Listing(order, inputs.Keys) && |sources| == |order| == |lengths|
    && forall t | 0 <= t < |order| ::
      && inputs[order[t]].maskLength == lengths[t]
      && SourceWired(inputs[order[t]], sources[t], outOrder, s, regions.flags, regions.masks,
                     MaskStart(regions.masks, lengths, t))
  }

  /** The output listed t-th holds the t-th probe, which reads bit t % 8 of flag byte t / 8. */
  ghost predicate ProbesWired(outputs: map<string, OutputInitializer>, order: seq<string>, probes: seq<PulseProbe>, flagsAt: int)
    reads outputs.Values`probe, (set p | p in probes)
  {
    && Listing(order, outputs.Keys) && |probes| == |order|
    && forall t | 0 <= t < |order| ::
      && outputs[order[t]].probe == Some(probes[t])
      && probes[t].GetFlags() == flagsAt + t / 8 && probes[t].Code() == t % 8
  }

  /** The callback batches of the runtimes, in order. */
  function Batches(runtimes: seq<InputRuntime>): (bs: seq<Batch?>)
    ensures |bs| == |runtimes| && forall t | 0 <= t < |runtimes| :: bs[t] == runtimes[t].batch
  {
    seq(|runtimes|, t requires 0 <= t < |runtimes| => runtimes[t].batch)
  }

  /**
   * The runtime listed t-th drives the t-th source for the input listed t-th, all share the
   * queue, which has one slot per runtime and holds each batch at most once.
   */
  ghost predicate RuntimesWired(runtimes: seq<InputRuntime>, order: seq<string>, sources: seq<PulseSource>, queue: ArrayEx<Batch?>)
    reads (set rt | rt in runtimes), queue, queue.arr
  {
    && |runtimes| == |order| == |sources|
    && queue.Valid() && queue.capacity == |runtimes|
    && NoDuplicates(Batches(runtimes)) && NoDuplicates(queue.Items())
    && (forall i | 0 <= i < |queue.Items()| :: queue.Items()[i] in Batches(runtimes))
    && forall t | 0 <= t < |runtimes| ::
      && runtimes[t].source == sources[t] && runtimes[t].key == order[t]
      && runtimes[t].queue == queue && runtimes[t].subscribed && runtimes[t].Tracked()
  }

  /** The runtimes and the sources they drive. */
  ghost function Footprint(runtimes: seq<InputRuntime>): (fp: set<object>)
    ensures forall t | 0 <= t < |runtimes| :: runtimes[t] in fp && runtimes[t].source in fp
  {
    var drivers: set<object> := set rt | rt in runtimes;
    drivers + set rt | rt in runtimes :: rt.source
  }

  /* ---- Polling ---- */

  /** A batch's callbacks in order, each with the time it is run with. */
  function Stamped(callbacks: seq<Callback>, now: int): (log: seq<(Callback, int)>)
    ensures |log| == |callbacks| && forall j | 0 <= j < |callbacks| :: log[j] == (callbacks[j], now)
  {
    seq(|callbacks|, j requires 0 <= j < |callbacks| => (callbacks[j], now))
  }

  /** What draining the queued batches runs: batch after batch in queue order, each batch's callbacks in order. */
  function Drained(items: seq<Batch?>, now: int): seq<(Callback, int)>
    requires forall i | 0 <= i < |items| :: items[i] != null
  {
    if items == [] then [] else Drained(items[..|items| - 1], now) + Stamped(items[|items| - 1].callbacks, now)
  }

  /** Draining two runs of batches runs the first, then the second. */
  lemma {:induction false} DrainedAppend(a: seq<Batch?>, b: seq<Batch?>, now: int)
    requires forall i | 0 <= i < |a| :: a[i] != null
    requires forall i | 0 <= i < |b| :: b[i] != null
    ensures forall i | 0 <= i < |a + b| :: (a + b)[i] != null
    ensures Drained(a + b, now) == Drained(a, now) + Drained(b, now)
  {
    if b != [] {
      var b' := b[..|b| - 1];
      assert (a + b)[..|a + b| - 1] == a + b';
      DrainedAppend(a, b', now);
    } else {
      assert a + b == a;
    }
  }

  /**
   * Draining runs every callback of every queued batch, and nothing else, all with the same
   * time.
   */
  lemma {:induction false} DrainedRuns(items: seq<Batch?>, now: int, c: Callback, t: int)
    requires forall i | 0 <= i < |items| :: items[i] != null
    ensures (c, t) in Drained(items, now) <==> t == now && exists i | 0 <= i < |items| :: c in items[i].callbacks
  {
    if items != [] {
      var init, last := items[..|items| - 1], items[|items| - 1];
      DrainedRuns(init, now, c, t);
      StampedHas(last.callbacks, now, c, t);
      assert Drained(items, now) == Drained(init, now) + Stamped(last.callbacks, now);
      SomeBatchSplit(items, init, c);
    }
  }

  /** A stamped run holds (c, t) exactly when t is its time and c one of its callbacks. */
  lemma StampedHas(callbacks: seq<Callback>, now: int, c: Callback, t: int)
    ensures (c, t) in Stamped(callbacks, now) <==> t == now && c in callbacks
  {
    if (c, t) in Stamped(callbacks, now) {
      var j :| 0 <= j < |callbacks| && Stamped(callbacks, now)[j] == (c, t);
    }
    if t == now && c in callbacks {
      var j :| 0 <= j < |callbacks| && callbacks[j] == c;
      assert Stamped(callbacks, now)[j] == (c, t);
    }
  }

  /** Some batch of a non-empty run holds c exactly when some batch before the last does, or the last does. */
  lemma SomeBatchSplit(items: seq<Batch?>, init: seq<Batch?>, c: Callback)
    requires items != [] && init == items[..|items| - 1] && forall i | 0 <= i < |items| :: items[i] != null
    ensures (exists i | 0 <= i < |items| :: c in items[i].callbacks) <==>
      (exists i | 0 <= i < |init| :: c in init[i].callbacks) || c in items[|items| - 1].callbacks
  {
    if exists i | 0 <= i < |items| :: c in items[i].callbacks {
      var i :| 0 <= i < |items| && c in items[i].callbacks;
      if i < |init| {
        assert init[i] == items[i];
      }
    }
    if exists i | 0 <= i < |init| :: c in init[i].callbacks {
      var i :| 0 <= i < |init| && c in init[i].callbacks;
      assert items[i] == init[i];
    }
  }

  /* ---- Disposing ---- */

  /** What InputInitializer.Dispose leaves: no mask, no outputs, no callbacks, not initialized. */
  ghost predicate InputDisposed(i: InputInitializer)
    reads i
  {
    i.mask == [] && i.outputs == map[] && i.callbacks == [] && i.linked == None && !i.isInitialized
  }

  /* ---- Releasing the arena ---- */

  /**
   * `if (_globalMemory != IntPtr.Zero) FreeHGlobal(_globalMemory)` as written, over the live
   * arena `memory` and the pointer `stale` that `_globalMemory` keeps once its arena is freed
   * (`_globalMemory` is `memory` when that is not null, and `stale` otherwise). Whatever it
   * points at is freed and stays pointed at: the live arena, the kept pointer and the log of
   * frees afterwards.
   */
  function ReleaseAsWritten(memory: array?<bv8>, stale: array?<bv8>, freed: seq<array<bv8>>)
    : (after: (array?<bv8>, array?<bv8>, seq<array<bv8>>))
  {
    var pointer := if memory != null then memory else stale;
    if pointer != null then (null, pointer, freed + [pointer]) else (null, null, freed)
  }

  /**
   * What a run of rebuilds and releases keeps of the frees, from the state (m0, s0, f0) to
   * (m1, s1, f1): the log only grows, a live arena is either still live or has been freed,
   * and once `_globalMemory` points somewhere it never goes back to zero.
   */
  ghost predicate FreesKept(m0: array?<bv8>, s0: array?<bv8>, f0: seq<array<bv8>>,
                            m1: array?<bv8>, s1: array?<bv8>, f1: seq<array<bv8>>)
  {
    && f0 <= f1
    && (m0 != null ==> m0 in f1 || m1 == m0)
    && (m0 != null || s0 != null ==> m1 != null || s1 != null)
  }

  /** The same free followed by clearing the reference. */
  function Release(memory: array?<bv8>, freed: seq<array<bv8>>): (after: (array?<bv8>, seq<array<bv8>>))
  {
    if memory != null then (null, freed + [memory]) else (null, freed)
  }

  /**
   * The kept pointer and the log of frees after the start of Initialize, which runs
   * DisposeRuntime only on an initialized board.
   */
  function Restarted(initialized: bool, memory: array?<bv8>, stale: array?<bv8>, freed: seq<array<bv8>>)
    : (after: (array?<bv8>, seq<array<bv8>>))
  {
    if initialized then var r := ReleaseAsWritten(memory, stale, freed); (r.1, r.2) else (stale, freed)
  }

  /** As written, releasing a live arena twice frees it twice, whatever pointer was kept before. */
  lemma DoubleReleaseAsWritten(memory: array<bv8>, stale: array?<bv8>, freed: seq<array<bv8>>)
    ensures var once := ReleaseAsWritten(memory, stale, freed);
      var twice := ReleaseAsWritten(once.0, once.1, once.2);
      twice.2 == freed + [memory, memory] && !NoDuplicates(twice.2)
  {
    var twice := ReleaseAsWritten(null, memory, freed + [memory]);
    assert twice.2[|freed|] == twice.2[|freed| + 1];
  }

  /**
   * With the reference cleared, a release frees an arena not freed before, leaves no arena,
   * and any further release frees nothing: no arena is ever freed twice.
   */
  lemma ReleaseOnce(memory: array?<bv8>, freed: seq<array<bv8>>)
    requires NoDuplicates(freed) && (memory != null ==> memory !in freed)
    ensures var after := Release(memory, freed);
      && after.0 == null && NoDuplicates(after.1)
      && (memory != null ==> after.1 == freed + [memory]) && (memory == null ==> after.1 == freed)
      && Release(after.0, after.1) == after
  {
    if memory != null {
      var log := freed + [memory];
      forall i, j | 0 <= i < j < |log|
        ensures log[i] != log[j]
      {
        if j == |freed| {
          assert log[i] == freed[i];
        }
      }
    }
  }

  /* ---- Counting ---- */

  /**
   * A sequence without duplicates whose entries all occur in `pool` is shorter than `pool`
   * when some entry of `pool` is missing from it.
   */
  lemma RoomLeft<T>(items: seq<T>, pool: seq<T>, x: T)
    requires NoDuplicates(items) && forall i | 0 <= i < |items| :: items[i] in pool
    requires x in pool && x !in items
    ensures |items| < |pool|
  {
    ElementsCount(items);
    ElementsCount(pool);
    var rest := Elements(pool) - Elements(items);
    assert x in rest;
    assert Elements(pool) == Elements(items) + rest;
  }

  /* ---- Arena allocation ---- */

  /** `Marshal.AllocHGlobal`: a fresh block whose contents are unspecified. */
  method Alloc(size: nat) returns (block: array<bv8>)
    ensures fresh(block) && block.Length == size
  {
    block := new bv8[size];
  }

  /** InstallFlags: zeroes the `length` bytes of the flag region. */
  method InstallFlags(block: array<bv8>, flagsAt: nat, length: nat)
    requires flagsAt + length <= block.Length
    modifies block
    ensures forall i | 0 <= i < block.Length ::
      block[i] == if flagsAt <= i < flagsAt + length then 0 else old(block[i])
  {
    var i := 0;
    while i < length
      invariant 0 <= i <= length
      invariant forall j | 0 <= j < block.Length ::
        block[j] == if flagsAt <= j < flagsAt + i then 0 else old(block[j])
    {
      block[flagsAt + i] := 0;
      i := i + 1;
    }
  }

  /** `IRelayInput` or `IRelayOutput` as Connect receives it: null, or an object whose Name may be null. */
  datatype Endpoint = Null | Named(name: Option<string>)
  {
    /** `Name ?? string.Empty`. */
    function Key(): string
      requires Named?
    {
      if name.Some? then name.value else ""
    }
  }

  /**
   * Every record is filed under its own name, a connector under the key of its two ends, and
   * every connector links records of the board through the board's LazyInitializer.
   */
  ghost predicate FiledIn(inputs: map<string, InputInitializer>, outputs: map<string, OutputInitializer>,
                          connectors: map<string, RelayConnector>, inputSet: set<InputInitializer>,
                          outputSet: set<OutputInitializer>, connectorSet: set<RelayConnector>, lazy: LazyInitializer)
  {
    && (forall k | k in inputs :: inputs[k] in inputSet && inputs[k].key == k)
    && (forall o | o in outputs :: outputs[o] in outputSet && outputs[o].key == o)
    && (forall c | c in connectors ::
      var cn := connectors[c];
      cn in connectorSet && cn.key == c && c == KeyAsWritten(cn.input.key, cn.output.key))
    && (forall cn | cn in connectorSet :: cn.input in inputSet && cn.output in outputSet && cn.lazy == lazy)
  }

  class RelayBoard {
    /** `_inputInitializer`, `_outputInitializer` and `_connectors`, keyed by name. */
    var inputs: map<string, InputInitializer>
    var outputs: map<string, OutputInitializer>
    var connectors: map<string, RelayConnector>
    /** `_lazyInitializer`. */
    const lazy: LazyInitializer
    /** `_queue`: the callback batches enqueued since the last Poll. */
    const queue: ArrayEx<Batch?>
    /** `_runTimes`. */
    var runtimes: seq<InputRuntime>
    var isInitialized: bool
    /** `_globalMemory` while its arena is live: the arena, null when there is none. */
    var memory: array?<bv8>
    /**
     * `_globalMemory` once its arena is freed: DisposeRuntime never resets it, so it keeps
     * pointing at the freed arena until the next allocation.
     */
    var stale: array?<bv8>
    /** The callbacks Poll has run, each with the time it was given. */
    var calls: seq<(Callback, int)>

    /** Every release of an arena so far, in order: one entry per `Marshal.FreeHGlobal`. */
    ghost var freed: seq<array<bv8>>
    ghost var Repr: set<object>
    /**
     * The layout of the last Initialize: the enumeration orders of the registries, the mask
     * lengths in the input order, and the regions of the arena (locals of the engine's Initialize).
     */
    var inOrder: seq<string>
    var outOrder: seq<string>
    var lengths: seq<nat>
    var regions: Regions
    /** The records the last Initialize installed. */
    ghost var sources: seq<PulseSource>
    ghost var probes: seq<PulseProbe>

    /* ---- The invariant, piece by piece ---- */

    /**
     * The records the board reaches: the registered ones and the two ends of every connector,
     * whether or not that end is still registered; and the sources those inputs hold.
     */
    ghost var InputSet: set<InputInitializer>
    ghost var OutputSet: set<OutputInitializer>
    ghost var ConnectorSet: set<RelayConnector>
    ghost var SourceSet: set<PulseSource>

    /** Every record is filed under its own name, and a connector under the key of its two ends. */
    ghost predicate Filed()
      reads this`inputs, this`outputs, this`connectors, this`InputSet, this`OutputSet, this`ConnectorSet
    {
      FiledIn(inputs, outputs, connectors, InputSet, OutputSet, ConnectorSet, lazy)
    }

    /** Everything the board writes is in Repr, which the board is not in, and no arena is the queue's storage. */
    ghost predicate Owned()
      reads this`Repr, this`InputSet, this`OutputSet, this`ConnectorSet, this`runtimes, this`memory, queue`arr
      reads InputSet`arena, ConnectorSet
    {
      && this !in Repr && lazy in Repr && queue in Repr && queue.arr in Repr
      && InputSet <= Repr && OutputSet <= Repr && ConnectorSet <= Repr
      && (forall i | i in InputSet :: i.arena != null ==> i.arena in Repr && i.arena as object != queue.arr)
      && (forall cn | cn in ConnectorSet :: cn.Valid() && cn.Subs() <= Repr)
      && (forall t | 0 <= t < |runtimes| :: runtimes[t] in Repr && runtimes[t].source in Repr)
      && (memory != null ==> memory in Repr && memory as object != queue.arr)
    }

    /** No lazy scope is open, and the queue is valid and holds batches only. */
    ghost predicate QueueOK()
      reads lazy`deep, queue, queue.arr
    {
      lazy.deep == 0 && queue.Valid() && forall i | 0 <= i < queue.index :: queue.arr[i] != null
    }

    /** Every input shares the board's queue, and its source, when it has one, fits its arena. */
    ghost predicate SourcesOK()
      reads this`InputSet, this`SourceSet, InputSet`source, InputSet`arena, SourceSet
    {
      forall i | i in InputSet :: i.queue == queue && (i.source == null || i.source in SourceSet) && i.SourceFits()
    }

    /** Every edge is recorded on both ends, and an input's output record is the registered one. */
    ghost predicate Edges()
      reads this`inputs, this`outputs, this`InputSet, this`OutputSet, InputSet`outputs, OutputSet`inputs
    {
      && (forall k | k in inputs :: inputs[k] in InputSet)
      && (forall o | o in outputs :: outputs[o] in OutputSet)
      && (forall k, o {:trigger o in inputs[k].outputs} | k in inputs && o in inputs[k].outputs ::
        o in outputs && inputs[k].outputs[o] == outputs[o] && k in outputs[o].inputs)
      && (forall o, k {:trigger k in outputs[o].inputs} | o in outputs && k in outputs[o].inputs :: k in inputs && o in inputs[k].outputs)
    }

    /** Only an initialized board has runtimes or a live arena, and a live arena has not been freed. */
    ghost predicate MemoryOK()
      reads this`isInitialized, this`runtimes, this`memory, this`freed
    {
      && (!isInitialized ==> runtimes == [] && memory == null)
      && (memory != null ==> memory !in freed)
    }

    /**
     * A record holding a mask is the one filed under its name: an input leaves the registry
     * only once disposed, which empties its mask, and only registered inputs are laid out.
     */
    ghost predicate MasksFiled()
      reads this`inputs, this`InputSet, InputSet`mask
    {
      forall i | i in InputSet && i.mask != [] :: i.key in inputs && inputs[i.key] == i
    }

    ghost predicate Valid()
      reads this, Repr, lazy, queue, queue.arr, InputSet, OutputSet, ConnectorSet, SourceSet
    {
      Filed() && Owned() && QueueOK() && SourcesOK() && Edges() && MemoryOK() && MasksFiled()
    }

    /* ---- The stages of Initialize ---- */

    /**
     * What PrepareIndices and the size computation leave: inOrder and outOrder list the
     * registries, the outputs are numbered in outOrder, `lengths` holds the inputs' mask
     * lengths, `regions` is the plan of these numbers, and every input's window lies in the
     * flag region over the flags of its outputs.
     */
    ghost predicate Planned()
      reads this`inputs, this`outputs, this`InputSet, this`OutputSet, this`inOrder, this`outOrder, this`lengths, this`regions
      reads OutputSet`index, InputSet`outputs, InputSet`flagsOffset, InputSet`maskLength, InputSet`mask
    {
      && (forall k | k in inputs :: inputs[k] in InputSet) && (forall o | o in outputs :: outputs[o] in OutputSet)
      && Listing(inOrder, inputs.Keys) && Dense(outputs, outOrder) && |outOrder| <= MAX_OUTPUTS
      && |lengths| == |inOrder| && (forall t | 0 <= t < |inOrder| :: inputs[inOrder[t]].maskLength == lengths[t])
      && regions == Plan(|inOrder|, |outOrder|, Sum(lengths))
      && AllLaid(InOrder(inputs, inOrder), outOrder, regions.flags, regions.masks)
    }

    /** Every input's mask passes the checks of its source: InstallPulseSources refuses none. */
    ghost predicate Accepted()
      reads this`inputs, this`InputSet, this`inOrder, this`lengths, InputSet`mask
    {
      && (forall k | k in inputs :: inputs[k] in InputSet)
      && |lengths| == |inOrder| && (forall t | 0 <= t < |inOrder| :: inOrder[t] in inputs)
      && forall t | 0 <= t < |inOrder| :: Accepts(lengths[t], inputs[inOrder[t]].mask)
    }

    /** Every output reads its own flag bit through the probe in its slot. */
    ghost predicate ProbesOn()
      reads this`outputs, this`OutputSet, this`outOrder, this`probes, this`regions, OutputSet`probe, set p | p in probes
    {
      && (forall o | o in outputs :: outputs[o] in OutputSet)
      && ProbesWired(outputs, outOrder, probes, regions.flags)
    }

    /** The arena has the size of the plan, every input holds it, and every input's source covers its window and mask slice. */
    ghost predicate SourcesOn()
      reads this`inputs, this`InputSet, this`inOrder, this`outOrder, this`sources, this`memory, this`regions, this`lengths
      reads InputSet, (set s | s in sources), memory
    {
      && memory != null && memory.Length == regions.total && (forall k | k in inputs :: inputs[k] in InputSet)
      && SourcesWired(inputs, inOrder, sources, outOrder, memory[..], regions, lengths)
      && forall k | k in inputs :: inputs[k].arena == memory
    }

    /** Every input has its runtime, whose batch holds the input's callbacks once each. */
    ghost predicate Launched()
      reads this`runtimes, this`inputs, this`InputSet, this`inOrder, this`sources, InputSet`callbacks
      reads (set rt | rt in runtimes), queue, queue.arr
    {
      && (forall k | k in inputs :: inputs[k] in InputSet)
      && RuntimesWired(runtimes, inOrder, sources, queue)
      && (forall t | 0 <= t < |inOrder| :: inOrder[t] in inputs)
      && forall t | 0 <= t < |runtimes| ::
        && NoDuplicates(runtimes[t].batch.callbacks)
        && (forall c :: c in runtimes[t].batch.callbacks <==> c in inputs[inOrder[t]].callbacks)
        && (runtimes[t].withCallbacks <==> |inputs[inOrder[t]].callbacks| > 0)
    }

    /**
     * The arena of the last Initialize is in place: the outputs are numbered densely, the
     * regions follow the plan, every output reads its own flag bit, every input's source covers
     * its window and mask slice, and every input has its runtime, whose batch holds the input's
     * callbacks once each.
     */
    ghost predicate Wired()
      reads this`isInitialized, this`inputs, this`outputs, this`InputSet, this`OutputSet, this`inOrder, this`outOrder
      reads this`lengths, this`regions, this`probes, this`sources, this`memory, this`runtimes
      reads InputSet, OutputSet, memory, (set s | s in sources), (set p | p in probes)
      reads (set rt | rt in runtimes), queue, queue.arr
    {
      isInitialized && Planned() && SourcesOn() && ProbesOn() && Launched()
    }

    /** No flag of the arena is raised. */
    ghost predicate FlagsClear()
      reads this`memory, this`regions, memory
    {
      memory != null && regions.masks <= memory.Length && forall i | regions.flags <= i < regions.masks :: memory[i] == 0
    }

    /**
     * Every input without outputs keeps a mask that fits the staging buffer of an empty window
     * (four words): PrepareIndices leaves such a mask as it was.
     */
    ghost predicate StaleMasksFit()
      reads this`inputs, inputs.Values`outputs, inputs.Values`mask
    {
      forall k | k in inputs && |inputs[k].outputs| == 0 :: Accepts(0, inputs[k].mask)
    }

    /** An empty board: no records, no arena, an empty queue of 16 slots. */
    constructor ()
      ensures Valid() && fresh(Repr)
      ensures inputs == map[] && outputs == map[] && connectors == map[]
      ensures runtimes == [] && !isInitialized && memory == null && stale == null && calls == [] && freed == []
    {
      inputs, outputs, connectors := map[], map[], map[];
      lazy := new LazyInitializer();
      queue := new ArrayEx<Batch?>();
      runtimes := [];
      isInitialized := false;
      memory, stale := null, null;
      calls := [];
      freed := [];
      inOrder, outOrder, regions, lengths, sources, probes := [], [], Regions(0, 0, 0, 0, 0), [], [], [];
      InputSet, OutputSet, ConnectorSet, SourceSet := {}, {}, {}, {};
      new;
      Repr := {lazy, queue, queue.arr};
    }

    /* ---- What Initialize leaves of the invariant ---- */

    /** Dropping the runtimes and the arena keeps the invariant, whatever the board's flag says. */
    twostate lemma Released()
      requires old(Valid())
      requires unchanged(`inputs, `outputs, `connectors, `Repr, `InputSet, `OutputSet, `ConnectorSet, `SourceSet)
      requires unchanged(lazy, queue) && unchanged(queue.arr) && unchanged(InputSet, OutputSet, ConnectorSet, SourceSet)
      requires runtimes == [] && memory == null
      ensures Valid()
    {
    }

    /**
     * A rebuilt board keeps the invariant: the registries and the edges are as they were, every
     * input keeps its arena or takes the new one, the queue keeps or renews its storage, and
     * the new arena and runtimes are owned.
     */
    twostate lemma Rebuilt()
      requires old(Valid()) && isInitialized
      requires unchanged(`inputs, `outputs, `connectors, `InputSet, `OutputSet, `ConnectorSet, `freed)
      requires unchanged(lazy) && unchanged(ConnectorSet)
      requires unchanged(InputSet`outputs, OutputSet`inputs)
      requires forall i | i in InputSet :: i.arena == old(i.arena) || i.arena == memory
      requires old(Repr) <= Repr && this !in Repr && queue.arr in Repr
      requires queue.arr == old(queue.arr) || fresh(queue.arr)
      requires memory != null && fresh(memory) && memory in Repr && memory as object != queue.arr
      requires forall t | 0 <= t < |runtimes| :: runtimes[t] in Repr && runtimes[t].source in Repr
      requires QueueOK() && SourcesOK() && MasksFiled()
      ensures Valid()
    {
    }

    /* ---- What a stage leaves of the stages before it ---- */

    twostate lemma PlannedKept()
      requires unchanged(`inputs, `outputs, `InputSet, `OutputSet, `inOrder, `outOrder, `lengths, `regions)
      requires unchanged(OutputSet`index, InputSet`outputs, InputSet`flagsOffset, InputSet`maskLength, InputSet`mask)
      ensures Planned() == old(Planned())
    {
    }

    twostate lemma NumberingKept()
      requires forall o | o in outputs :: outputs[o] in OutputSet
      requires unchanged(`outputs, `outOrder, `OutputSet) && unchanged(OutputSet`index)
      requires old(Dense(outputs, outOrder))
      ensures Dense(outputs, outOrder)
    {
    }

    twostate lemma StaleKept()
      requires forall k | k in inputs :: inputs[k] in InputSet
      requires unchanged(`inputs, `InputSet) && unchanged(InputSet`outputs)
      requires forall k | k in inputs && |inputs[k].outputs| == 0 :: inputs[k].mask == old(inputs[k].mask)
      ensures StaleMasksFit() == old(StaleMasksFit())
    {
      forall k | k in inputs
        ensures inputs[k].outputs == old(inputs[k].outputs)
      {
      }
    }

    twostate lemma MasksFiledKept()
      requires unchanged(`inputs, `InputSet) && unchanged(InputSet`mask)
      ensures MasksFiled() == old(MasksFiled())
    {
    }

    twostate lemma AcceptedKept()
      requires unchanged(`inputs, `InputSet, `inOrder, `lengths) && unchanged(InputSet`mask)
      ensures Accepted() == old(Accepted())
    {
    }

    twostate lemma FlagsKept()
      requires old(memory) != null && unchanged(`memory, `regions) && unchanged(old(memory))
      ensures FlagsClear() == old(FlagsClear())
    {
    }

    twostate lemma FiledKept()
      requires unchanged(`inputs, `outputs, `connectors, `InputSet, `OutputSet, `ConnectorSet)
      ensures Filed() == old(Filed())
    {
    }

    twostate lemma SourcesOKKept()
      requires unchanged(`InputSet, `SourceSet) && unchanged(InputSet`source, InputSet`arena) && unchanged(SourceSet)
      ensures SourcesOK() == old(SourcesOK())
    {
    }

    twostate lemma QueueKept()
      requires unchanged(lazy`deep) && unchanged(queue) && unchanged(queue.arr)
      ensures QueueOK() == old(QueueOK())
    {
    }

    /** Installing the probes keeps every invariant of the stages before it. */
    twostate lemma ProbedKept()
      requires old(memory) != null
      requires unchanged(this`inputs, this`outputs, this`connectors, this`InputSet, this`OutputSet, this`ConnectorSet)
      requires unchanged(this`inOrder, this`outOrder, this`lengths, this`regions, this`memory, this`SourceSet)
      requires unchanged(lazy, queue) && unchanged(queue.arr) && unchanged(SourceSet) && unchanged(old(memory))
      requires unchanged(InputSet`outputs, OutputSet`index, InputSet`maskLength, InputSet`flagsOffset, InputSet`mask, InputSet`source, InputSet`arena)
      ensures Planned() == old(Planned()) && Accepted() == old(Accepted()) && SourcesOK() == old(SourcesOK())
      ensures QueueOK() == old(QueueOK()) && FlagsClear() == old(FlagsClear()) && Filed() == old(Filed())
      ensures MasksFiled() == old(MasksFiled())
    {
      MasksFiledKept();
      PlannedKept();
      AcceptedKept();
      SourcesOKKept();
      QueueKept();
      FlagsKept();
      FiledKept();
    }

    /** Launching the runtimes keeps the plan, the sources, the probes and the flags. */
    twostate lemma LaunchKept()
      requires old(memory) != null
      requires unchanged(this`inputs, this`outputs, this`InputSet, this`OutputSet)
      requires unchanged(this`inOrder, this`outOrder, this`lengths, this`regions, this`memory, this`probes, this`SourceSet, this`sources)
      requires unchanged(SourceSet, InputSet, OutputSet) && unchanged(set p | p in probes) && unchanged(set s | s in sources)
      requires unchanged(old(memory))
      ensures Planned() == old(Planned()) && SourcesOK() == old(SourcesOK()) && SourcesOn() == old(SourcesOn())
      ensures ProbesOn() == old(ProbesOn()) && FlagsClear() == old(FlagsClear())
    {
      PlannedKept();
      SourcesOKKept();
      SourcesKept();
      ProbesKept();
      FlagsKept();
    }

    twostate lemma FlagsUntouched()
      requires old(FlagsClear()) && unchanged(`memory, `regions)
      requires memory[..regions.masks] == old(memory[..regions.masks])
      ensures FlagsClear()
    {
      forall i | regions.flags <= i < regions.masks
        ensures memory[i] == 0
      {
        assert memory[i] == memory[..regions.masks][i];
      }
    }

    twostate lemma ProbesKept()
      requires unchanged(`outputs, `OutputSet, `outOrder, `probes, `regions) && unchanged(OutputSet`probe)
      requires unchanged(set p | p in probes)
      ensures ProbesOn() == old(ProbesOn())
    {
    }

    twostate lemma SourcesKept()
      requires old(memory) != null
      requires unchanged(`inputs, `InputSet, `inOrder, `outOrder, `sources, `memory, `regions, `lengths)
      requires unchanged(InputSet) && unchanged(set s | s in sources) && unchanged(old(memory))
      ensures SourcesOn() == old(SourcesOn())
    {
    }

    /* ---- Initialize ---- */

    /**
     * Initialize: drops the previous runtime, then numbers the outputs, lays out every input's
     * window, allocates the arena of the plan, clears the flags, installs the probes and the
     * sources and creates one runtime per input. It fails with Overflow past MAX_OUTPUTS
     * outputs, when a probe cannot reach its flag byte, and when an input without outputs
     * kept a mask too long for an empty window.
     */
    method Initialize() returns (r: Outcome)
      requires Valid()
      modifies this`isInitialized, this`runtimes, this`memory, this`stale, this`freed, (set rt | rt in runtimes)`subscribed
      modifies this`inOrder, this`outOrder, this`lengths, this`regions, this`Repr, this`probes, this`sources, this`SourceSet
      modifies OutputSet`index, OutputSet`probe, InputSet`maskLength, InputSet`flagsOffset, InputSet`mask
      modifies InputSet`source, InputSet`arena, InputSet`linked, InputSet`isInitialized, queue
      ensures Valid() && isInitialized
      ensures unchanged(this`inputs, this`outputs, this`connectors, this`calls)
      ensures unchanged(this`InputSet, this`OutputSet, this`ConnectorSet) && unchanged(ConnectorSet) && old(Repr) <= Repr
      ensures unchanged(InputSet`outputs, OutputSet`inputs)
      ensures (stale, freed) == Restarted(old(isInitialized), old(memory), old(stale), old(freed))
      ensures |outputs| > MAX_OUTPUTS ==> r == Fail(Overflow) && runtimes == [] && memory == null
      ensures |outputs| <= MAX_OUTPUTS ==> Planned()
      ensures |outputs| <= MAX_OUTPUTS ==> (r.Pass? <==> ProbesReach(regions, |outputs|) && old(StaleMasksFit()))
      ensures r.Fail? ==> r.error in {Overflow, ArgumentOutOfRange, InvalidData, Argument}
      ensures r.Pass? ==> Wired() && FlagsClear()
      ensures inputs == map[] ==> fresh(Repr - old(Repr))
    {
      Restart();
      r := Relaunch();
    }

    /** Initialize after DisposeRuntime: the capacity check, then the stages. */
    method Relaunch() returns (r: Outcome)
      requires Valid() && isInitialized && runtimes == [] && memory == null
      modifies this`inOrder, this`outOrder, this`lengths, this`regions, this`memory, this`Repr
      modifies this`probes, this`sources, this`SourceSet, this`runtimes
      modifies OutputSet`index, OutputSet`probe, InputSet`maskLength, InputSet`flagsOffset, InputSet`mask
      modifies InputSet`source, InputSet`arena, InputSet`linked, InputSet`isInitialized, queue
      ensures Valid() && isInitialized
      ensures unchanged(this`inputs, this`outputs, this`connectors, this`calls, this`freed, this`stale)
      ensures unchanged(this`InputSet, this`OutputSet, this`ConnectorSet) && unchanged(ConnectorSet) && old(Repr) <= Repr
      ensures unchanged(InputSet`outputs, OutputSet`inputs)
      ensures |outputs| > MAX_OUTPUTS ==> r == Fail(Overflow) && runtimes == [] && memory == null
      ensures |outputs| <= MAX_OUTPUTS ==> Planned()
      ensures |outputs| <= MAX_OUTPUTS ==> (r.Pass? <==> ProbesReach(regions, |outputs|) && old(StaleMasksFit()))
      ensures r.Fail? ==> r.error in {Overflow, ArgumentOutOfRange, InvalidData, Argument}
      ensures r.Pass? ==> Wired() && FlagsClear()
      ensures inputs == map[] ==> fresh(Repr - old(Repr))
    {
      if |outputs| > MAX_OUTPUTS {
        r := Fail(Overflow);
      } else {
        r := Build();
        if inputs == map[] {
          GrewFresh(memory, queue.arr);
        }
      }
    }

    /** A footprint grown by at most two objects, each new or already owned, grew by new objects only. */
    twostate lemma GrewFresh(new a: object, new b: object)
      requires Repr <= old(Repr) + {a, b} && fresh(a) && (b in old(Repr) || fresh(b))
      ensures fresh(Repr - old(Repr))
    {
    }

    /**
     * LazyInitialize, the rebuild the board's LazyInitializer runs: Initialize when the board
     * has been initialized, nothing otherwise.
     */
    method LazyInitialize() returns (r: Outcome)
      requires Valid()
      modifies this, Repr
      ensures Valid()
      ensures unchanged(this`inputs, this`outputs, this`connectors, this`calls)
      ensures unchanged(this`InputSet, this`OutputSet, this`ConnectorSet) && unchanged(ConnectorSet) && old(Repr) <= Repr
      ensures unchanged(InputSet`outputs, InputSet`callbacks, OutputSet`inputs)
      ensures !old(isInitialized) ==> r == Pass && unchanged(this) && unchanged(Repr)
      ensures old(isInitialized) ==> isInitialized
      ensures (stale, freed) == Restarted(old(isInitialized), old(memory), old(stale), old(freed))
      ensures old(isInitialized) ==> (r.Pass? <==> |outputs| <= MAX_OUTPUTS && ProbesReach(regions, |outputs|) && old(StaleMasksFit()))
      ensures old(isInitialized) && |outputs| > MAX_OUTPUTS ==> r == Fail(Overflow)
      ensures old(isInitialized) && r.Fail? ==> r.error in {Overflow, ArgumentOutOfRange, InvalidData, Argument}
      ensures old(isInitialized) && r.Pass? ==> Wired() && FlagsClear()
      ensures inputs == map[] ==> fresh(Repr - old(Repr))
    {
      r := Pass;
      if isInitialized {
        r := Initialize();
      }
    }

    /** The start of Initialize: the runtime of the previous one is disposed and the board is marked initialized. */
    method Restart()
      requires Valid()
      modifies this`isInitialized, this`runtimes, this`memory, this`stale, this`freed, (set rt | rt in runtimes)`subscribed
      ensures Valid() && isInitialized && runtimes == [] && memory == null
      ensures (stale, freed) == Restarted(old(isInitialized), old(memory), old(stale), old(freed))
      ensures unchanged(this`inputs, this`outputs, this`connectors, this`calls, this`Repr, this`InputSet, this`OutputSet, this`ConnectorSet, this`SourceSet)
      ensures unchanged(InputSet, OutputSet, ConnectorSet, SourceSet) && unchanged(lazy, queue, queue.arr)
      ensures StaleMasksFit() == old(StaleMasksFit())
    {
      if isInitialized {
        DisposeRuntime();
      }
      isInitialized := true;
      Released();
      StaleFitKept();
    }

    twostate lemma StaleFitKept()
      requires forall k | k in inputs :: inputs[k] in InputSet
      requires unchanged(`inputs, `InputSet) && unchanged(InputSet)
      ensures StaleMasksFit() == old(StaleMasksFit())
    {
      forall k | k in inputs
        ensures inputs[k].outputs == old(inputs[k].outputs) && inputs[k].mask == old(inputs[k].mask)
      {
      }
    }

    /**
     * DisposeRuntime: ends every runtime's input subscription and forgets the runtimes, then
     * frees whatever `_globalMemory` points at. The pointer is never reset, so a second
     * DisposeRuntime frees the same arena again.
     */
    method DisposeRuntime()
      modifies this`isInitialized, this`runtimes, this`memory, this`stale, this`freed, (set rt | rt in runtimes)`subscribed
      ensures !isInitialized && runtimes == [] && forall rt | rt in old(runtimes) :: !rt.subscribed
      ensures (memory, stale, freed) == ReleaseAsWritten(old(memory), old(stale), old(freed))
      ensures unchanged(this`inputs, this`outputs, this`connectors, this`calls, this`Repr, this`InputSet, this`OutputSet, this`ConnectorSet, this`SourceSet)
    {
      EndRuntimes();
      if memory != null {
        freed := freed + [memory];
        memory, stale := null, memory;
      } else if stale != null {
        freed := freed + [stale];
      }
    }

    /** `_isInitialized = false`, then every runtime is disposed and the list cleared. */
    method EndRuntimes()
      modifies this`isInitialized, this`runtimes, (set rt | rt in runtimes)`subscribed
      ensures !isInitialized && runtimes == [] && forall rt | rt in old(runtimes) :: !rt.subscribed
    {
      isInitialized := false;
      var live := runtimes;
      var t := 0;
      while t < |live|
        invariant 0 <= t <= |live|
        invariant forall u | 0 <= u < t :: !live[u].subscribed
        invariant !isInitialized && runtimes == live
      {
        live[t].Dispose();
        t := t + 1;
      }
      runtimes := [];
    }

    /**
     * Initialize past the capacity check, on a board without runtime: the stages in turn, each
     * of which leaves what the stages before it established.
     */
    method Build() returns (r: Outcome)
      requires Valid() && isInitialized && runtimes == [] && memory == null && |outputs| <= MAX_OUTPUTS
      modifies this`inOrder, this`outOrder, this`lengths, this`regions, this`memory, this`Repr
      modifies this`probes, this`sources, this`SourceSet, this`runtimes
      modifies OutputSet`index, OutputSet`probe, InputSet`maskLength, InputSet`flagsOffset, InputSet`mask
      modifies InputSet`source, InputSet`arena, InputSet`linked, InputSet`isInitialized, queue
      ensures unchanged(this`inputs, this`outputs, this`connectors, this`calls, this`freed, this`isInitialized)
      ensures unchanged(this`InputSet, this`OutputSet, this`ConnectorSet) && unchanged(ConnectorSet) && old(Repr) <= Repr
      ensures unchanged(InputSet`outputs, OutputSet`inputs)
      ensures Valid() && Planned()
      ensures r.Pass? <==> ProbesReach(regions, |outputs|) && old(StaleMasksFit())
      ensures r.Fail? ==> r.error in {ArgumentOutOfRange, InvalidData, Argument}
      ensures r.Pass? ==> Wired() && FlagsClear()
      ensures fresh(memory) && (queue.arr == old(queue.arr) || fresh(queue.arr))
      ensures inputs == map[] ==> Repr <= old(Repr) + {memory as object, queue.arr}
    {
      r := Ready();
      label ready:
      r := Finish(r);
      MasksFiledKept@ready();
      Rebuilt();
      if inputs == map[] {
        Unlisted();
      }
    }

    /** Over an empty registry the listing is empty, and so are the runtimes and their footprint. */
    lemma Unlisted()
      requires inputs == map[] && Listing(inOrder, inputs.Keys)
      requires runtimes == [] || |runtimes| == |inOrder|
      ensures runtimes == [] && Footprint(runtimes) == {}
    {
    }

    /** The stages up to the probes: the layout and the arena, then one probe per output. */
    method Ready() returns (r: Outcome)
      requires Filed() && Edges() && SourcesOK() && QueueOK() && memory == null && |outputs| <= MAX_OUTPUTS
      requires queue.arr in Repr && this !in Repr
      modifies this`inOrder, this`outOrder, this`lengths, this`regions, this`memory, this`Repr, this`probes
      modifies OutputSet`index, OutputSet`probe, InputSet`maskLength, InputSet`flagsOffset, InputSet`mask
      ensures Filed() && Planned() && SourcesOK() && QueueOK() && FlagsClear()
      ensures fresh(memory) && memory.Length == regions.total && Repr == old(Repr) + {memory}
      ensures memory as object != queue.arr && queue.arr in Repr && this !in Repr
      ensures r.Pass? <==> ProbesReach(regions, |outputs|)
      ensures r.Pass? ==> ProbesOn()
      ensures r.Fail? ==> r.error in {ArgumentOutOfRange, InvalidData, Argument}
      ensures Accepted() <==> old(StaleMasksFit())
      ensures MasksFiled() == old(MasksFiled())
      ensures unchanged(this`inputs, this`outputs, this`connectors, this`InputSet, this`OutputSet, this`ConnectorSet, this`freed, this`isInitialized, this`calls)
      ensures unchanged(this`runtimes, this`SourceSet, this`sources)
      ensures unchanged(lazy, queue, queue.arr) && unchanged(ConnectorSet, SourceSet)
      ensures unchanged(InputSet`outputs, OutputSet`inputs, InputSet`source, InputSet`arena)
    {
      Site();
      label sited:
      PlanParts();
      r := InstallProbes();
      ProbedKept@sited();
    }

    /** The layout, then the arena, sized by the plan, with its flags cleared. */
    method Site()
      requires Filed() && Edges() && SourcesOK() && QueueOK() && memory == null && |outputs| <= MAX_OUTPUTS
      requires queue.arr in Repr && this !in Repr
      modifies this`inOrder, this`outOrder, this`lengths, this`regions, this`memory, this`Repr
      modifies OutputSet`index, InputSet`maskLength, InputSet`flagsOffset, InputSet`mask
      ensures Filed() && Planned() && SourcesOK() && QueueOK() && FlagsClear()
      ensures fresh(memory) && memory.Length == regions.total && Repr == old(Repr) + {memory}
      ensures memory as object != queue.arr && queue.arr in Repr && this !in Repr
      ensures Accepted() <==> old(StaleMasksFit())
      ensures MasksFiled() == old(MasksFiled())
      ensures unchanged(this`inputs, this`outputs, this`connectors, this`InputSet, this`OutputSet, this`ConnectorSet, this`freed, this`isInitialized, this`calls)
      ensures unchanged(this`runtimes, this`SourceSet, this`sources, this`probes)
      ensures unchanged(lazy, queue, queue.arr) && unchanged(ConnectorSet, SourceSet)
      ensures unchanged(InputSet`outputs, OutputSet`inputs, OutputSet`probe, InputSet`source, InputSet`arena)
    {
      Lay();
      label laid:
      SourcesOKKept();
      QueueKept();
      Arena();
      MasksFiledKept@laid();
      PlannedKept@laid();
      AcceptedKept@laid();
      SourcesOKKept@laid();
      QueueKept@laid();
      FiledKept();
    }

    /**
     * The stages after the probes, when the probes passed: the sources, then, when no input was
     * refused, the runtimes and the emptied queue.
     */
    method Finish(probed: Outcome) returns (r: Outcome)
      requires Filed() && Planned() && SourcesOK() && QueueOK() && FlagsClear()
      requires memory.Length == regions.total && memory as object != queue.arr && queue.arr in Repr
      requires probed.Pass? ==> ProbesOn()
      requires probed.Fail? ==> probed.error in {ArgumentOutOfRange, InvalidData, Argument}
      requires this !in Repr
      modifies this`runtimes, this`Repr, this`SourceSet, this`sources, queue
      modifies InputSet`source, InputSet`arena, InputSet`linked, InputSet`isInitialized, memory
      ensures probed.Fail? ==> r == probed
      ensures probed.Pass? ==> (r.Pass? <==> old(Accepted()))
      ensures r.Fail? ==> r.error in {ArgumentOutOfRange, InvalidData, Argument}
      ensures r.Pass? ==> SourcesOn() && ProbesOn() && Launched() && FlagsClear()
      ensures Planned() && SourcesOK() && QueueOK() && unchanged(InputSet`mask)
      ensures unchanged(this`inputs, this`outputs, this`connectors, this`InputSet, this`OutputSet, this`ConnectorSet, this`freed, this`isInitialized, this`calls)
      ensures unchanged(this`inOrder, this`outOrder, this`lengths, this`regions, this`memory, this`probes)
      ensures unchanged(lazy) && unchanged(ConnectorSet) && unchanged(InputSet`outputs, OutputSet`inputs)
      ensures forall i | i in InputSet :: i.arena == old(i.arena) || i.arena == memory
      ensures old(Repr) <= Repr && this !in Repr && (queue.arr == old(queue.arr) || fresh(queue.arr)) && queue.arr in Repr
      ensures r.Pass? ==> forall t | 0 <= t < |runtimes| :: runtimes[t] in Repr && runtimes[t].source in Repr
      ensures r.Fail? ==> runtimes == old(runtimes)
      ensures Repr <= old(Repr) + {queue.arr} + Footprint(runtimes)
    {
      r := probed;
      if r.Fail? {
        return;
      }
      PlanParts();
      r := Wire();
      label wired:
      PlannedKept();
      QueueKept();
      AcceptedKept();
      ProbesKept();
      if r.Pass? {
        SourcesListed();
        Launch();
        LaunchKept@wired();
      }
    }

    /**
     * PrepareIndices and the sizes of the regions: the outputs are numbered in their listing,
     * every input's window is laid out in the flag region, and the regions are the plan of
     * these numbers. The masks pass the checks of the sources exactly when every input
     * without outputs had a mask that fits an empty window.
     */
    method Lay()
      requires Filed() && Edges() && |outputs| <= MAX_OUTPUTS
      modifies this`inOrder, this`outOrder, this`lengths, this`regions
      modifies OutputSet`index, InputSet`maskLength, InputSet`flagsOffset, InputSet`mask
      ensures unchanged(this`inputs, this`outputs, this`connectors, this`InputSet, this`OutputSet, this`ConnectorSet, this`freed, this`isInitialized, this`calls)
      ensures unchanged(this`memory, this`Repr, this`runtimes, this`probes, this`SourceSet, this`sources)
      ensures unchanged(lazy, queue, queue.arr) && unchanged(ConnectorSet, SourceSet)
      ensures unchanged(InputSet`outputs, OutputSet`inputs, OutputSet`probe, InputSet`source, InputSet`arena, InputSet`linked, InputSet`isInitialized)
      ensures Planned()
      ensures Accepted() <==> old(StaleMasksFit())
      ensures MasksFiled() == old(MasksFiled())
    {
      PrepareIndices();
      Measure();
    }

    /**
     * PrepareIndices: the outputs are numbered in the enumeration order of their registry,
     * then every input, in the enumeration order of its registry, computes its window and mask
     * from the new numbers; an input without outputs keeps its mask.
     */
    method PrepareIndices()
      requires Filed() && Edges() && |outputs| <= MAX_OUTPUTS
      modifies this`inOrder, this`outOrder, OutputSet`index, InputSet`maskLength, InputSet`flagsOffset, InputSet`mask
      ensures unchanged(this`inputs, this`outputs, this`connectors, this`InputSet, this`OutputSet, this`ConnectorSet, this`freed, this`isInitialized, this`calls)
      ensures unchanged(this`memory, this`Repr, this`runtimes, this`probes, this`SourceSet, this`sources)
      ensures unchanged(lazy, queue, queue.arr) && unchanged(ConnectorSet, SourceSet)
      ensures unchanged(InputSet`outputs, OutputSet`inputs, OutputSet`probe, InputSet`source, InputSet`arena, InputSet`linked, InputSet`isInitialized)
      ensures unchanged(this`lengths, this`regions)
      ensures Listing(inOrder, inputs.Keys) && Dense(outputs, outOrder) && |outOrder| <= MAX_OUTPUTS
      ensures forall k {:trigger Prepared(inputs[k])} | k in inputs :: Prepared(inputs[k])
      ensures forall k | k in inOrder :: k in inputs && inputs[k].maskLength >= 0
      ensures StaleMasksFit() == old(StaleMasksFit())
      ensures MasksFiled() == old(MasksFiled())
    {
      AssignIndices();
      MasksFiledKept();
      label numbered:
      PrepareInputs();
      NumberingKept@numbered();
      StaleKept();
    }

    /** The mask lengths in the input order and the regions of their plan, over the windows PrepareIndices laid out. */
    method Measure()
      requires (forall k | k in inputs :: inputs[k] in InputSet) && (forall o | o in outputs :: outputs[o] in OutputSet)
      requires forall k, o {:trigger o in inputs[k].outputs} | k in inputs && o in inputs[k].outputs ::
        o in outputs && inputs[k].outputs[o] == outputs[o]
      requires Listing(inOrder, inputs.Keys) && Dense(outputs, outOrder) && |outOrder| <= MAX_OUTPUTS
      requires forall k {:trigger Prepared(inputs[k])} | k in inputs :: Prepared(inputs[k])
      requires forall k | k in inOrder :: k in inputs && inputs[k].maskLength >= 0
      modifies this`lengths, this`regions
      ensures unchanged(this`inputs, this`outputs, this`connectors, this`InputSet, this`OutputSet, this`ConnectorSet, this`freed, this`isInitialized, this`calls)
      ensures unchanged(this`memory, this`Repr, this`runtimes, this`probes, this`SourceSet, this`sources)
      ensures unchanged(lazy, queue, queue.arr) && unchanged(ConnectorSet, SourceSet)
      ensures unchanged(InputSet`outputs, OutputSet`inputs, OutputSet`probe, InputSet`source, InputSet`arena, InputSet`linked, InputSet`isInitialized)
      ensures unchanged(this`inOrder, this`outOrder, OutputSet`index, InputSet`maskLength, InputSet`flagsOffset, InputSet`mask)
      ensures Planned()
      ensures Accepted() <==> old(StaleMasksFit())
    {
      var lens := MaskLengths(inOrder);
      SetPlan(lens, Plan(|inOrder|, |outOrder|, Sum(lens)));
      Measured();
      StaleKept();
    }

    /** Records the mask lengths and their plan, touching nothing else. */
    method SetPlan(lens: seq<nat>, plan: Regions)
      modifies this`lengths, this`regions
      ensures lengths == lens && regions == plan
      ensures unchanged(this`inputs, this`outputs, this`connectors, this`InputSet, this`OutputSet, this`ConnectorSet, this`freed, this`isInitialized, this`calls)
      ensures unchanged(this`memory, this`Repr, this`runtimes, this`probes, this`SourceSet, this`sources)
      ensures unchanged(lazy, queue, queue.arr) && unchanged(ConnectorSet, SourceSet)
      ensures unchanged(InputSet`outputs, OutputSet`inputs, OutputSet`probe, InputSet`source, InputSet`arena, InputSet`linked, InputSet`isInitialized)
      ensures unchanged(this`inOrder, this`outOrder, OutputSet`index, InputSet`maskLength, InputSet`flagsOffset, InputSet`mask)
    {
      lengths, regions := lens, plan;
    }

    /** With the lengths and regions Measure sets, the windows lie in the plan and the masks pass exactly when the stale ones fit. */
    lemma Measured()
      requires (forall k | k in inputs :: inputs[k] in InputSet) && (forall o | o in outputs :: outputs[o] in OutputSet)
      requires forall k, o {:trigger o in inputs[k].outputs} | k in inputs && o in inputs[k].outputs ::
        o in outputs && inputs[k].outputs[o] == outputs[o]
      requires Listing(inOrder, inputs.Keys) && Dense(outputs, outOrder) && |outOrder| <= MAX_OUTPUTS
      requires forall k {:trigger Prepared(inputs[k])} | k in inputs :: Prepared(inputs[k])
      requires |lengths| == |inOrder| && forall t | 0 <= t < |inOrder| :: lengths[t] == inputs[inOrder[t]].maskLength
      requires regions == Plan(|inOrder|, |outOrder|, Sum(lengths))
      ensures Planned()
      ensures Accepted() <==> StaleMasksFit()
    {
      LaidOut(inputs, outputs, inOrder, outOrder, lengths, regions);
    }

    /** `Marshal.AllocHGlobal` and InstallFlags: the arena of the plan, with its flag region cleared, becomes the board's memory. */
    method Arena()
      requires regions == Plan(|inOrder|, |outOrder|, Sum(lengths)) && this !in Repr
      modifies this`memory, this`Repr
      ensures fresh(memory) && memory.Length == regions.total && FlagsClear()
      ensures Repr == old(Repr) + {memory} && this !in Repr
      ensures unchanged(this`inputs, this`outputs, this`connectors, this`InputSet, this`OutputSet, this`ConnectorSet, this`freed, this`isInitialized, this`calls)
      ensures unchanged(this`inOrder, this`outOrder, this`lengths, this`regions, this`runtimes, this`probes, this`SourceSet, this`sources)
      ensures unchanged(lazy, queue, queue.arr) && unchanged(ConnectorSet, SourceSet)
      ensures unchanged(InputSet`outputs, OutputSet`inputs, OutputSet`probe, OutputSet`index, InputSet`maskLength, InputSet`flagsOffset, InputSet`mask, InputSet`source, InputSet`arena, InputSet`linked, InputSet`isInitialized)
    {
      PlanPartition(|inOrder|, |outOrder|, Sum(lengths));
      var block := Alloc(regions.total);
      InstallFlags(block, regions.flags, FlagsSize(|outOrder|));
      memory, Repr := block, Repr + {block};
    }

    /** InstallPulseProbes over the outputs in their listing, recording the probes made. */
    method InstallProbes() returns (r: Outcome)
      requires forall o | o in outputs :: outputs[o] in OutputSet && outputs[o].key == o
      requires Dense(outputs, outOrder)
      modifies OutputSet`probe, this`probes
      ensures r.Pass? <==> ProbesReach(regions, |outputs|)
      ensures r.Fail? ==> r == Fail(ArgumentOutOfRange) || r == Fail(InvalidData)
      ensures r.Pass? ==> ProbesOn()
      ensures unchanged(this`inputs, this`outputs, this`connectors, this`InputSet, this`OutputSet, this`ConnectorSet, this`freed, this`isInitialized, this`calls)
      ensures unchanged(this`inOrder, this`outOrder, this`lengths, this`regions, this`memory, this`Repr, this`runtimes, this`SourceSet, this`sources)
      ensures unchanged(lazy, queue, queue.arr) && unchanged(ConnectorSet, SourceSet)
      ensures unchanged(InputSet`outputs, OutputSet`inputs, OutputSet`index, InputSet`maskLength, InputSet`flagsOffset, InputSet`mask, InputSet`source, InputSet`arena, InputSet`linked, InputSet`isInitialized)
      ensures memory != null ==> unchanged(memory)
    {
      ghost var made;
      r, made := ProbeOutputs(outputs, outOrder, regions, OutputSet);
      SetProbes(made);
    }

    /** Records the probes made, touching nothing else. */
    ghost method SetProbes(made: seq<PulseProbe>)
      modifies this`probes
      ensures probes == made
      ensures unchanged(this`inputs, this`outputs, this`connectors, this`InputSet, this`OutputSet, this`ConnectorSet, this`freed, this`isInitialized, this`calls)
      ensures unchanged(this`inOrder, this`outOrder, this`lengths, this`regions, this`memory, this`Repr, this`runtimes, this`SourceSet, this`sources)
    {
      probes := made;
    }

    /**
     * InstallPulseSources on the arena. Whether or not an input is refused, every input keeps a
     * source that fits its arena, which is the old one or the new; on success every input is
     * wired and the flags stay clear.
     */
    method Wire() returns (r: Outcome)
      requires forall k | k in inputs :: inputs[k] in InputSet && inputs[k].key == k
      requires Listing(inOrder, inputs.Keys) && (forall t | 0 <= t < |inOrder| :: inOrder[t] in inputs)
      requires |lengths| == |inOrder| && forall t | 0 <= t < |inOrder| :: inputs[inOrder[t]].maskLength == lengths[t]
      requires regions == Plan(|inOrder|, |outOrder|, Sum(lengths))
      requires AllLaid(InOrder(inputs, inOrder), outOrder, regions.flags, regions.masks)
      requires SourcesOK() && FlagsClear() && memory.Length == regions.total && memory as object != queue.arr
      modifies InputSet`source, InputSet`arena, InputSet`linked, InputSet`isInitialized, memory, this`SourceSet, this`sources
      ensures SourcesOK()
      ensures forall i | i in InputSet :: i.arena == old(i.arena) || i.arena == memory
      ensures r.Pass? <==> Accepted()
      ensures r.Fail? ==> r == Fail(ArgumentOutOfRange) || r == Fail(Argument)
      ensures r.Pass? ==> SourcesOn() && FlagsClear()
      ensures unchanged(this`inputs, this`outputs, this`connectors, this`InputSet, this`OutputSet, this`ConnectorSet, this`freed, this`isInitialized, this`calls)
      ensures unchanged(this`inOrder, this`outOrder, this`lengths, this`regions, this`memory, this`Repr, this`runtimes, this`probes)
      ensures unchanged(lazy, queue, queue.arr) && unchanged(ConnectorSet) && unchanged(set p | p in probes)
      ensures unchanged(InputSet`outputs, OutputSet`inputs, OutputSet`probe, OutputSet`index, InputSet`maskLength, InputSet`flagsOffset, InputSet`mask)
    {
      var ins;
      ghost var made;
      r, ins, made := Install();
      label installed:
      Adopt(ins, made, r.Pass?);
      FlagsKept@installed();
      AcceptedFrom(ins);
    }

    /** WireSources over the inputs in their listing, on the board's arena and plan. */
    method Install() returns (r: Outcome, ins: seq<InputInitializer>, ghost made: seq<PulseSource>)
      requires forall k | k in inputs :: inputs[k] in InputSet && inputs[k].key == k
      requires Listing(inOrder, inputs.Keys) && (forall t | 0 <= t < |inOrder| :: inOrder[t] in inputs)
      requires |lengths| == |inOrder| && forall t | 0 <= t < |inOrder| :: inputs[inOrder[t]].maskLength == lengths[t]
      requires regions == Plan(|inOrder|, |outOrder|, Sum(lengths))
      requires AllLaid(InOrder(inputs, inOrder), outOrder, regions.flags, regions.masks)
      requires SourcesOK() && FlagsClear() && memory.Length == regions.total && memory as object != queue.arr
      modifies InputSet`source, InputSet`arena, InputSet`linked, InputSet`isInitialized, memory
      ensures unchanged(this) && unchanged(lazy, queue, queue.arr) && unchanged(ConnectorSet) && unchanged(set p | p in probes)
      ensures unchanged(InputSet`outputs, OutputSet`inputs, OutputSet`probe, OutputSet`index, InputSet`maskLength, InputSet`flagsOffset, InputSet`mask)
      ensures ins == InOrder(inputs, inOrder)
      ensures forall i | i in InputSet :: i.queue == queue && i.SourceFits() && (i.source == null || i.source in SourceSet || i in ins)
      ensures forall i | i in InputSet :: i.arena == old(i.arena) || i.arena == memory
      ensures r.Pass? <==> forall t | 0 <= t < |ins| :: Accepts(lengths[t], ins[t].mask)
      ensures r.Fail? ==> r == Fail(ArgumentOutOfRange) || r == Fail(Argument)
      ensures r.Pass? ==> FlagsClear() && |made| == |ins| && forall t | 0 <= t < |ins| ::
        && ins[t].arena == memory
        && SourceWired(ins[t], made[t], outOrder, memory[..], regions.flags, regions.masks, MaskStart(regions.masks, lengths, t))
    {
      r, ins, made := WireListed(inputs, inOrder, memory, regions, lengths, outOrder, InputSet);
      if r.Pass? {
        FlagsUntouched();
      }
    }

    /** Whether the masks pass, stated on the listed records or on the board, is the same. */
    lemma AcceptedFrom(ins: seq<InputInitializer>)
      requires (forall k | k in inputs :: inputs[k] in InputSet) && |lengths| == |inOrder|
      requires (forall t | 0 <= t < |inOrder| :: inOrder[t] in inputs) && ins == InOrder(inputs, inOrder)
      ensures Accepted() <==> forall t | 0 <= t < |ins| :: Accepts(lengths[t], ins[t].mask)
    {
    }

    /**
     * Files the sources WireSources made: every input keeps a source the board reaches, and
     * when none was refused every input is wired through the source in its slot.
     */
    ghost method Adopt(ins: seq<InputInitializer>, made: seq<PulseSource>, pass: bool)
      requires forall k | k in inputs :: inputs[k] in InputSet
      requires Listing(inOrder, inputs.Keys) && (forall t | 0 <= t < |inOrder| :: inOrder[t] in inputs)
      requires |lengths| == |inOrder| && forall t | 0 <= t < |inOrder| :: inputs[inOrder[t]].maskLength == lengths[t]
      requires memory != null && memory.Length == regions.total && ins == InOrder(inputs, inOrder)
      requires forall i | i in InputSet :: i.queue == queue && i.SourceFits() && (i.source == null || i.source in SourceSet || i in ins)
      requires pass ==> |made| == |ins| && forall t | 0 <= t < |ins| ::
        && ins[t].arena == memory
        && SourceWired(ins[t], made[t], outOrder, memory[..], regions.flags, regions.masks, MaskStart(regions.masks, lengths, t))
      modifies this`SourceSet, this`sources
      ensures SourcesOK()
      ensures pass ==> SourcesOn()
      ensures unchanged(this`inputs, this`outputs, this`connectors, this`InputSet, this`OutputSet, this`ConnectorSet, this`freed, this`isInitialized, this`calls)
      ensures unchanged(this`inOrder, this`outOrder, this`lengths, this`regions, this`memory, this`Repr, this`runtimes, this`probes)
      ensures unchanged(lazy, queue, queue.arr, memory) && unchanged(InputSet, OutputSet, ConnectorSet) && unchanged(set p | p in probes)
    {
      AdoptSources(ins);
      forall i | i in InputSet
        ensures i.source == null || i.source in SourceSet
      {
        if i in ins {
          var t :| 0 <= t < |ins| && ins[t] == i;
        }
      }
      sources := made;
      if pass {
        SourcesFrom(ins);
      }
    }

    /** The parts of the plan that WireSources needs: every input listed under its own name. */
    lemma PlanParts()
      requires Filed() && Planned()
      ensures forall k | k in inputs :: inputs[k] in InputSet && inputs[k].key == k
      ensures forall o | o in outputs :: outputs[o] in OutputSet && outputs[o].key == o
      ensures forall t | 0 <= t < |inOrder| :: inOrder[t] in inputs
    {
    }

    /** What WireSources leaves, stated on the board: every input is wired through its source. */
    lemma SourcesFrom(ins: seq<InputInitializer>)
      requires forall k | k in inputs :: inputs[k] in InputSet
      requires Listing(inOrder, inputs.Keys) && (forall t | 0 <= t < |inOrder| :: inOrder[t] in inputs)
      requires |lengths| == |inOrder| && forall t | 0 <= t < |inOrder| :: inputs[inOrder[t]].maskLength == lengths[t]
      requires memory != null && memory.Length == regions.total && ins == InOrder(inputs, inOrder)
      requires |sources| == |ins| && forall t | 0 <= t < |ins| ::
        && ins[t].arena == memory
        && SourceWired(ins[t], sources[t], outOrder, memory[..], regions.flags, regions.masks, MaskStart(regions.masks, lengths, t))
      ensures SourcesOn()
    {
      forall k | k in inputs
        ensures inputs[k].arena == memory
      {
        var t :| 0 <= t < |inOrder| && inOrder[t] == k;
        assert ins[t] == inputs[k];
      }
    }

    /** Files the sources of the listed inputs among the sources the board reaches. */
    ghost method AdoptSources(ins: seq<InputInitializer>)
      modifies this`SourceSet
      ensures old(SourceSet) <= SourceSet
      ensures forall t | 0 <= t < |ins| && ins[t].source != null :: ins[t].source in SourceSet
    {
      var t := 0;
      while t < |ins|
        invariant 0 <= t <= |ins| && old(SourceSet) <= SourceSet
        invariant forall u | 0 <= u < t && ins[u].source != null :: ins[u].source in SourceSet
      {
        if ins[t].source != null {
          SourceSet := SourceSet + {ins[t].source};
        }
        t := t + 1;
      }
    }

    /**
     * `_runTimes.AddRange(...)`, `_queue.SetCapacity` and `_queue.Reset`: the runtimes of the
     * inputs in their listing, and a queue with one slot per runtime, emptied.
     */
    method Launch()
      requires forall k | k in inputs :: inputs[k] in InputSet && inputs[k].key == k && inputs[k].queue == queue
      requires (forall t | 0 <= t < |inOrder| :: inOrder[t] in inputs) && |sources| == |inOrder|
      requires forall t | 0 <= t < |inOrder| :: inputs[inOrder[t]].source == sources[t]
      requires queue.Valid() && lazy.deep == 0 && this !in Repr
      modifies this`runtimes, this`Repr, queue
      ensures this !in Repr
      ensures Launched() && queue.Valid() && queue.Items() == [] && fresh(queue.arr) && QueueOK()
      ensures Repr == old(Repr) + {queue.arr} + Footprint(runtimes)
      ensures unchanged(this`inputs, this`outputs, this`connectors, this`InputSet, this`OutputSet, this`ConnectorSet, this`freed, this`isInitialized, this`calls)
      ensures unchanged(this`inOrder, this`outOrder, this`lengths, this`regions, this`memory, this`probes, this`SourceSet, this`sources)
      ensures unchanged(lazy) && unchanged(ConnectorSet, SourceSet, InputSet, OutputSet) && unchanged(set p | p in probes)
      ensures memory != null ==> unchanged(memory)
    {
      var ins := InOrder(inputs, inOrder);
      var created := CreateRuntimes(ins);
      Renew(queue, |created|);
      SetRuntimes(created, Repr + {queue.arr} + Footprint(created));
      LaunchedFrom(ins);
    }

    /** Records the runtimes made and the footprint that now holds them, touching nothing else. */
    method SetRuntimes(made: seq<InputRuntime>, ghost footprint: set<object>)
      modifies this`runtimes, this`Repr
      ensures runtimes == made && Repr == footprint
      ensures unchanged(this`inputs, this`outputs, this`connectors, this`InputSet, this`OutputSet, this`ConnectorSet, this`freed, this`isInitialized, this`calls)
      ensures unchanged(this`inOrder, this`outOrder, this`lengths, this`regions, this`memory, this`probes, this`SourceSet, this`sources)
    {
      runtimes, Repr := made, footprint;
    }

    /** Listed in the input order, every input holds the source in its slot and shares the board's queue. */
    lemma SourcesListed()
      requires Filed() && SourcesOK() && SourcesOn()
      ensures forall k | k in inputs :: inputs[k] in InputSet && inputs[k].key == k && inputs[k].queue == queue
      ensures (forall t | 0 <= t < |inOrder| :: inOrder[t] in inputs) && |sources| == |inOrder|
      ensures forall t | 0 <= t < |inOrder| :: inputs[inOrder[t]].source == sources[t]
    {
    }

    /** What CreateRuntimes and the emptied queue leave, stated on the board: every input has its runtime. */
    lemma LaunchedFrom(ins: seq<InputInitializer>)
      requires (forall k | k in inputs :: inputs[k] in InputSet) && (forall t | 0 <= t < |inOrder| :: inOrder[t] in inputs)
      requires ins == InOrder(inputs, inOrder) && |sources| == |ins| == |runtimes|
      requires queue.Valid() && queue.capacity == |runtimes| && queue.Items() == [] && NoDuplicates(Batches(runtimes))
      requires forall t | 0 <= t < |ins| ::
        && runtimes[t].source == sources[t] && runtimes[t].key == inOrder[t] && runtimes[t].queue == queue
        && runtimes[t].subscribed && runtimes[t].insertIdx == 0
        && NoDuplicates(runtimes[t].batch.callbacks)
        && (forall c :: c in runtimes[t].batch.callbacks <==> c in ins[t].callbacks)
        && (runtimes[t].withCallbacks <==> |ins[t].callbacks| > 0)
      ensures Launched()
    {
      forall t | 0 <= t < |runtimes|
        ensures runtimes[t].Tracked()
      {
      }
    }

    /** The first loop of PrepareIndices: in the enumeration order of the registry, the output listed t-th gets index t. */
    method AssignIndices()
      requires forall o | o in outputs :: outputs[o] in OutputSet && outputs[o].key == o
      requires forall k, o {:trigger o in inputs[k].outputs} | k in inputs && o in inputs[k].outputs ::
        o in outputs && inputs[k].outputs[o] == outputs[o]
      requires |outputs| <= MAX_OUTPUTS
      modifies this`outOrder, OutputSet`index
      ensures unchanged(this`inputs, this`outputs, this`connectors, this`InputSet, this`OutputSet, this`ConnectorSet, this`freed, this`isInitialized, this`calls)
      ensures unchanged(this`memory, this`Repr, this`runtimes, this`probes, this`SourceSet, this`sources)
      ensures unchanged(lazy, queue, queue.arr) && unchanged(ConnectorSet, SourceSet)
      ensures unchanged(InputSet`outputs, OutputSet`inputs, OutputSet`probe, InputSet`source, InputSet`arena, InputSet`linked, InputSet`isInitialized)
      ensures unchanged(this`inOrder, this`lengths, this`regions, InputSet`maskLength, InputSet`flagsOffset, InputSet`mask)
      ensures Dense(outputs, outOrder) && |outOrder| <= MAX_OUTPUTS
      ensures forall k, o {:trigger o in inputs[k].outputs} | k in inputs && o in inputs[k].outputs :: 0 <= inputs[k].outputs[o].index
    {
      var order := Enumerate(outputs.Keys);
      ListingDistinct(order, outputs.Keys);
      NumberListed(outputs, order, OutputSet);
      outOrder := order;
      forall k, o | k in inputs && o in inputs[k].outputs
        ensures 0 <= inputs[k].outputs[o].index
      {
        DenseIndex(outputs, outOrder, o);
      }
    }

    /**
     * The second loop of PrepareIndices: in the enumeration order of the registry, each input
     * computes its window and mask from the new indices; an input without outputs keeps its mask.
     */
    method PrepareInputs()
      requires forall k | k in inputs :: inputs[k] in InputSet && inputs[k].key == k
      requires forall k, o {:trigger o in inputs[k].outputs} | k in inputs && o in inputs[k].outputs :: 0 <= inputs[k].outputs[o].index
      requires forall t | 0 <= t < |outOrder| :: outOrder[t] in outputs && outputs[outOrder[t]].index == t
      modifies this`inOrder, InputSet`maskLength, InputSet`flagsOffset, InputSet`mask
      ensures forall t | 0 <= t < |outOrder| :: outOrder[t] in outputs && outputs[outOrder[t]].index == t
      ensures Listing(inOrder, inputs.Keys) && forall k | k in inOrder :: k in inputs
      ensures forall k {:trigger Prepared(inputs[k])} | k in inputs :: Prepared(inputs[k])
      ensures forall k | k in inputs :: inputs[k].maskLength >= 0
      ensures forall k | k in inputs && |inputs[k].outputs| == 0 :: inputs[k].mask == old(inputs[k].mask)
      ensures MasksFiled() == old(MasksFiled())
      ensures unchanged(this`inputs, this`outputs, this`connectors, this`InputSet, this`OutputSet, this`ConnectorSet, this`freed, this`isInitialized, this`calls)
      ensures unchanged(this`memory, this`Repr, this`runtimes, this`probes, this`SourceSet, this`sources)
      ensures unchanged(lazy, queue, queue.arr) && unchanged(ConnectorSet, SourceSet)
      ensures unchanged(InputSet`outputs, OutputSet`inputs, OutputSet`probe, InputSet`source, InputSet`arena, InputSet`linked, InputSet`isInitialized)
      ensures unchanged(this`outOrder, this`lengths, this`regions, OutputSet`index)
    {
      var order := Enumerate(inputs.Keys);
      SetInOrder(order);
      PrepareListed(inputs, order, InputSet);
      MasksKept();
    }

    /** Masks change only on registered records, so whether every other record is bare is as it was. */
    twostate lemma MasksKept()
      requires forall k | k in inputs :: inputs[k] in InputSet && inputs[k].key == k
      requires unchanged(`inputs, `InputSet)
      requires forall i | i in InputSet && !(i.key in inputs && inputs[i.key] == i) :: i.mask == old(i.mask)
      ensures MasksFiled() == old(MasksFiled())
    {
    }

    /** Records the listing of the inputs, touching nothing else. */
    method SetInOrder(order: seq<string>)
      modifies this`inOrder
      ensures inOrder == order
      ensures unchanged(this`inputs, this`outputs, this`connectors, this`InputSet, this`OutputSet, this`ConnectorSet, this`freed, this`isInitialized, this`calls)
      ensures unchanged(this`memory, this`Repr, this`runtimes, this`probes, this`SourceSet, this`sources, this`outOrder, this`lengths, this`regions)
    {
      inOrder := order;
    }

    /** `_inputInitializer.Sum(p => p.Value.MaskLength)`, term by term in the listing. */
    function MaskLengths(order: seq<string>): (lens: seq<nat>)
      requires forall k | k in order :: k in inputs && inputs[k].maskLength >= 0
      reads this, inputs.Values
      ensures |lens| == |order| && forall t | 0 <= t < |order| :: lens[t] == inputs[order[t]].maskLength
    {
      if order == [] then []
      else MaskLengths(order[..|order| - 1]) + [inputs[order[|order| - 1]].maskLength as nat]
    }

    /* ---- Connecting ---- */

    /**
     * Connect: null ends give no connector and change nothing. Otherwise the input and the
     * output are looked up by name (a null name reads as ""), and registered when missing;
     * the connector filed under KeyAsWritten of the two names is returned when there is one.
     * Otherwise a new connector records the edge on both ends and forces the rebuild, which
     * runs Initialize on an initialized board; when that raises, the connector is not filed.
     */
    method Connect(input: Endpoint, output: Endpoint) returns (c: Option<RelayConnector>, r: Outcome)
      requires Valid()
      modifies this, Repr
      ensures Valid() && unchanged(this`calls)
      ensures input.Null? || output.Null? ==> c == None && r == Pass && unchanged(this) && unchanged(Repr)
      ensures input.Named? && output.Named? ==>
        ConnectedAs(c, r, input.Key(), output.Key(), old(inputs), old(outputs), old(connectors), old(isInitialized))
      ensures input.Named? && output.Named? ==>
        && (input.Key() !in old(inputs) ==> fresh(inputs[input.Key()]))
        && (output.Key() !in old(outputs) ==> fresh(outputs[output.Key()]))
      ensures input.Named? && output.Named? && KeyAsWritten(input.Key(), output.Key()) in old(connectors) ==> unchanged(old(Repr))
      ensures input.Named? && output.Named? && KeyAsWritten(input.Key(), output.Key()) !in old(connectors) && old(isInitialized) && r.Pass? ==>
        Wired() && FlagsClear()
    {
      c, r := None, Pass;
      if input.Null? || output.Null? {
        return;
      }
      c, r := ConnectNamed(input.Key(), output.Key());
    }

    /**
     * What Connect leaves for two names: the registries grown by the two names; the connector
     * filed under KeyAsWritten of the names, when there was one, handed back with nothing else
     * changed and the new records without edges; and a new one attached otherwise.
     */
    ghost predicate ConnectedAs(c: Option<RelayConnector>, r: Outcome, iKey: string, oKey: string,
                                oldInputs: map<string, InputInitializer>, oldOutputs: map<string, OutputInitializer>,
                                before: map<string, RelayConnector>, wasInitialized: bool)
      reads this, inputs.Values, outputs.Values, if c.Some? then {c.value} else {}
    {
      && Grown(oldInputs, inputs, iKey) && Grown(oldOutputs, outputs, oKey)
      && (KeyAsWritten(iKey, oKey) in before ==>
        && c == Some(before[KeyAsWritten(iKey, oKey)]) && r == Pass && connectors == before
        && (iKey !in oldInputs ==> inputs[iKey].outputs == map[])
        && (oKey !in oldOutputs ==> outputs[oKey].inputs == {}))
      && (KeyAsWritten(iKey, oKey) !in before ==>
        Attached(c, r, KeyAsWritten(iKey, oKey), inputs[iKey], outputs[oKey], before, wasInitialized))
    }

    /** Connect for two names. */
    method ConnectNamed(iKey: string, oKey: string) returns (c: Option<RelayConnector>, r: Outcome)
      requires Valid()
      modifies this, Repr
      ensures Valid() && unchanged(this`calls)
      ensures ConnectedAs(c, r, iKey, oKey, old(inputs), old(outputs), old(connectors), old(isInitialized))
      ensures iKey !in old(inputs) ==> fresh(inputs[iKey])
      ensures oKey !in old(outputs) ==> fresh(outputs[oKey])
      ensures KeyAsWritten(iKey, oKey) in old(connectors) ==> unchanged(old(Repr))
      ensures KeyAsWritten(iKey, oKey) !in old(connectors) && old(isInitialized) && r.Pass? ==> Wired() && FlagsClear()
    {
      ghost var before, wasInitialized := connectors, isInitialized;
      var inRec, outRec := Register(iKey, oKey);
      assert connectors == before && isInitialized == wasInitialized;
      assert old(Repr) <= Repr && unchanged(old(Repr));
      c, r := Hook(KeyAsWritten(iKey, oKey), inRec, outRec, old(inputs), old(outputs));
    }

    /**
     * What attaching a new connector under `key` leaves: the edge recorded on both ends, the
     * connector filed when the rebuild, if the board is initialized, passes, and not filed
     * when it raises.
     */
    ghost predicate Attached(c: Option<RelayConnector>, r: Outcome, key: string, inRec: InputInitializer,
                             outRec: OutputInitializer, before: map<string, RelayConnector>, wasInitialized: bool)
      reads this, inRec, outRec, if c.Some? then {c.value} else {}
    {
      && outRec.key in inRec.outputs && inRec.outputs[outRec.key] == outRec && inRec.key in outRec.inputs
      && (c.Some? ==> c.value.input == inRec && c.value.output == outRec && c.value.subscriptions == [])
      && Committed(r, key, c, before, wasInitialized)
    }

    /** The records filed under the two names, each created and filed when there is none. */
    method Register(iKey: string, oKey: string) returns (inRec: InputInitializer, outRec: OutputInitializer)
      requires Valid()
      modifies this`inputs, this`outputs, this`InputSet, this`OutputSet, this`Repr
      ensures Valid() && fresh(Repr - old(Repr)) && old(Repr) <= Repr
      ensures Grown(old(inputs), inputs, iKey) && Grown(old(outputs), outputs, oKey)
      ensures inputs[iKey] == inRec && outputs[oKey] == outRec && inRec.key == iKey && outRec.key == oKey
      ensures iKey !in old(inputs) ==> fresh(inRec) && inRec.outputs == map[]
      ensures oKey !in old(outputs) ==> fresh(outRec) && outRec.inputs == {}
    {
      inRec := InputFor(iKey);
      outRec := OutputFor(oKey);
    }

    /**
     * The connector filed under `key` when there is one, and a new one attached otherwise;
     * `before`, `oldInputs` and `oldOutputs` are the registries before the two records were looked up.
     */
    method Hook(key: string, inRec: InputInitializer, outRec: OutputInitializer, ghost oldInputs: map<string, InputInitializer>,
                ghost oldOutputs: map<string, OutputInitializer>)
      returns (c: Option<RelayConnector>, r: Outcome)
      requires Valid() && key == KeyAsWritten(inRec.key, outRec.key)
      requires Grown(oldInputs, inputs, inRec.key) && Grown(oldOutputs, outputs, outRec.key)
      requires inputs[inRec.key] == inRec && outputs[outRec.key] == outRec
      requires inRec.key !in oldInputs ==> inRec.outputs == map[]
      requires outRec.key !in oldOutputs ==> outRec.inputs == {}
      modifies this, Repr
      ensures Valid() && unchanged(this`calls, this`inputs, this`outputs)
      ensures ConnectedAs(c, r, inRec.key, outRec.key, oldInputs, oldOutputs, old(connectors), old(isInitialized))
      ensures key in old(connectors) ==> unchanged(old(Repr))
      ensures key !in old(connectors) && old(isInitialized) && r.Pass? ==> Wired() && FlagsClear()
    {
      if key in connectors {
        c, r := Some(connectors[key]), Pass;
        return;
      }
      c, r := Attach(key, inRec, outRec);
    }

    /**
     * A new connector between two registered records: it records the edge and forces the
     * rebuild, and is filed under `key` only when the rebuild does not raise.
     */
    method Attach(key: string, inRec: InputInitializer, outRec: OutputInitializer) returns (c: Option<RelayConnector>, r: Outcome)
      requires Valid() && key !in connectors && key == KeyAsWritten(inRec.key, outRec.key)
      requires inRec.key in inputs && inputs[inRec.key] == inRec && outRec.key in outputs && outputs[outRec.key] == outRec
      modifies this, Repr
      ensures Valid() && unchanged(this`calls, this`inputs, this`outputs)
      ensures c.Some? ==> fresh(c.value)
      ensures !old(isInitialized) ==> fresh(Repr - old(Repr))
      ensures Attached(c, r, key, inRec, outRec, old(connectors), old(isInitialized))
      ensures old(isInitialized) && r.Pass? ==> Wired() && FlagsClear()
    {
      var cn := AddEdge(key, inRec, outRec);
      r := Commit(key, cn);
      c := if r.Pass? then Some(cn) else None;
    }

    /**
     * The rest of the new connector's constructor and of Connect: the forced rebuild, then the
     * filing under `key` when the rebuild does not raise.
     */
    method Commit(key: string, cn: RelayConnector) returns (r: Outcome)
      requires Valid() && key !in connectors && cn !in Repr && cn.Valid() && cn.subscriptions == [] && cn.lazy == lazy
      requires cn.input in InputSet && cn.output in OutputSet && cn.key == key && key == KeyAsWritten(cn.input.key, cn.output.key)
      modifies this, Repr
      ensures Valid() && unchanged(this`calls, this`inputs, this`outputs, this`InputSet, this`OutputSet)
      ensures unchanged(InputSet`outputs, OutputSet`inputs)
      ensures Committed(r, key, if r.Pass? then Some(cn) else None, old(connectors), old(isInitialized))
      ensures !old(isInitialized) ==> Repr == old(Repr) + {cn}
      ensures old(isInitialized) && r.Pass? ==> Wired() && FlagsClear()
    {
      var fire := lazy.ForceInitialize();
      r := Pass;
      if fire {
        r := LazyInitialize();
      }
      if r.Pass? {
        File(key, cn);
      }
    }

    /** What the forced rebuild and the filing leave. */
    ghost predicate Committed(r: Outcome, key: string, filed: Option<RelayConnector>, before: map<string, RelayConnector>,
                              wasInitialized: bool)
      reads this`connectors, this`isInitialized, this`outputs
    {
      && (r.Pass? ==> filed.Some? && connectors == before[key := filed.value])
      && (r.Fail? ==> filed == None && connectors == before && wasInitialized)
      && (!wasInitialized ==> r == Pass && !isInitialized)
      && (wasInitialized ==> isInitialized)
      && (wasInitialized && |outputs| > MAX_OUTPUTS ==> r == Fail(Overflow))
      && (r.Fail? ==> r.error in {Overflow, ArgumentOutOfRange, InvalidData, Argument})
    }

    /** The input record filed under `iKey`, created and filed when there is none. */
    method InputFor(iKey: string) returns (rec: InputInitializer)
      requires Valid()
      modifies this`inputs, this`InputSet, this`Repr
      ensures Valid()
      ensures iKey in inputs && inputs[iKey] == rec && rec.key == iKey && Grown(old(inputs), inputs, iKey)
      ensures iKey in old(inputs) ==> inputs == old(inputs) && unchanged(this`InputSet, this`Repr)
      ensures iKey !in old(inputs) ==>
        && fresh(rec) && inputs == old(inputs)[iKey := rec] && rec.outputs == map[]
        && InputSet == old(InputSet) + {rec} && Repr == old(Repr) + {rec}
    {
      if iKey in inputs {
        rec := inputs[iKey];
        return;
      }
      rec := new InputInitializer(iKey, queue);
      inputs := inputs[iKey := rec];
      InputSet := InputSet + {rec};
      Repr := Repr + {rec};
      InputAdded(rec);
    }

    /** The output record filed under `oKey`, created and filed when there is none. */
    method OutputFor(oKey: string) returns (rec: OutputInitializer)
      requires Valid()
      modifies this`outputs, this`OutputSet, this`Repr
      ensures Valid()
      ensures oKey in outputs && outputs[oKey] == rec && rec.key == oKey && Grown(old(outputs), outputs, oKey)
      ensures oKey in old(outputs) ==> outputs == old(outputs) && unchanged(this`OutputSet, this`Repr)
      ensures oKey !in old(outputs) ==>
        && fresh(rec) && outputs == old(outputs)[oKey := rec] && rec.inputs == {}
        && OutputSet == old(OutputSet) + {rec} && Repr == old(Repr) + {rec}
    {
      if oKey in outputs {
        rec := outputs[oKey];
        return;
      }
      rec := new OutputInitializer(oKey);
      outputs := outputs[oKey := rec];
      OutputSet := OutputSet + {rec};
      Repr := Repr + {rec};
      OutputAdded(rec);
    }

    /** Files a connector between two records the board reaches under `key`. */
    method File(key: string, cn: RelayConnector)
      requires Valid() && key !in connectors && cn.Valid() && cn.subscriptions == [] && cn.lazy == lazy
      requires cn.input in InputSet && cn.output in OutputSet && cn.key == key && key == KeyAsWritten(cn.input.key, cn.output.key)
      modifies this`connectors, this`ConnectorSet, this`Repr
      ensures Valid()
      ensures connectors == old(connectors)[key := cn] && ConnectorSet == old(ConnectorSet) + {cn} && Repr == old(Repr) + {cn}
      ensures Wired() == old(Wired()) && FlagsClear() == old(FlagsClear())
      ensures unchanged(this`calls, this`inputs, this`outputs, this`InputSet, this`OutputSet, this`isInitialized)
    {
      SetFiled(key, cn);
      ConnectorAdded(cn);
      WiredKept();
    }

    method SetFiled(key: string, cn: RelayConnector)
      modifies this`connectors, this`ConnectorSet, this`Repr
      ensures connectors == old(connectors)[key := cn] && ConnectorSet == old(ConnectorSet) + {cn} && Repr == old(Repr) + {cn}
    {
      connectors := connectors[key := cn];
      ConnectorSet := ConnectorSet + {cn};
      Repr := Repr + {cn};
    }

    /** Wired reads neither the connectors nor the footprint. */
    twostate lemma WiredKept()
      requires unchanged(this`isInitialized, this`inputs, this`outputs, this`InputSet, this`OutputSet, this`inOrder, this`outOrder)
      requires unchanged(this`lengths, this`regions, this`probes, this`sources, this`memory, this`runtimes)
      requires unchanged(InputSet, OutputSet, queue) && unchanged(queue.arr) && unchanged(set s | s in sources)
      requires unchanged(set p | p in probes) && unchanged(set rt | rt in runtimes)
      requires old(memory) != null ==> unchanged(old(memory))
      ensures Wired() == old(Wired()) && FlagsClear() == old(FlagsClear())
    {
    }

    /** Filing a new input record, with no edges and no source, keeps the invariant. */
    twostate lemma InputAdded(new rec: InputInitializer)
      requires old(Valid()) && fresh(rec) && rec.key !in old(inputs)
      requires rec.outputs == map[] && rec.queue == queue && rec.source == null && rec.arena == null
      requires inputs == old(inputs)[rec.key := rec] && InputSet == old(InputSet) + {rec} && Repr == old(Repr) + {rec}
      requires unchanged(this`outputs, this`connectors, this`OutputSet, this`ConnectorSet, this`SourceSet)
      requires unchanged(this`runtimes, this`memory, this`isInitialized, this`freed)
      requires unchanged(lazy, queue) && unchanged(queue.arr) && unchanged(old(InputSet), OutputSet, ConnectorSet, SourceSet)
      ensures Valid()
    {
    }

    /** Filing a new output record, with no edges, keeps the invariant. */
    twostate lemma OutputAdded(new rec: OutputInitializer)
      requires old(Valid()) && fresh(rec) && rec.key !in old(outputs) && rec.inputs == {}
      requires outputs == old(outputs)[rec.key := rec] && OutputSet == old(OutputSet) + {rec} && Repr == old(Repr) + {rec}
      requires unchanged(this`inputs, this`connectors, this`InputSet, this`ConnectorSet, this`SourceSet)
      requires unchanged(this`runtimes, this`memory, this`isInitialized, this`freed)
      requires unchanged(lazy, queue) && unchanged(queue.arr) && unchanged(InputSet, old(OutputSet), ConnectorSet, SourceSet)
      ensures Valid()
    {
    }

    /** A new connector between two registered records, which records the edge on both ends; not yet filed. */
    method AddEdge(key: string, inRec: InputInitializer, outRec: OutputInitializer) returns (cn: RelayConnector)
      requires Valid()
      requires inRec.key in inputs && inputs[inRec.key] == inRec && outRec.key in outputs && outputs[outRec.key] == outRec
      modifies inRec, outRec
      ensures Valid() && fresh(cn) && cn.Valid() && cn.subscriptions == []
      ensures cn.key == key && cn.input == inRec && cn.output == outRec && cn.lazy == lazy
      ensures outRec.key in inRec.outputs && inRec.outputs[outRec.key] == outRec && inRec.key in outRec.inputs
    {
      cn := NewConnector(key, inRec, outRec, lazy);
      assert Edges() by {
        forall k, o | k in inputs && o in inputs[k].outputs
          ensures o in outputs && inputs[k].outputs[o] == outputs[o] && k in outputs[o].inputs
        {
          assert old(inputs[k] in InputSet && inputs[k].key == k);
          if k != inRec.key {
            var r := inputs[k];
            assert r in InputSet;
            assert r != inRec;
            assert unchanged(r);
            assert inputs[k].outputs == old(inputs[k].outputs);
            assert old(o in outputs && k in outputs[o].inputs);
          } else if o != outRec.key {
            assert o in old(inRec.outputs) && inputs[k].outputs[o] == old(inRec.outputs)[o];
            assert old(o in outputs && inputs[k].outputs[o] == outputs[o] && k in outputs[o].inputs);
            assert old(outputs[o] in OutputSet && outputs[o].key == o);
            assert outputs[o].inputs == old(outputs[o].inputs);
          }
        }
        forall o, k | o in outputs && k in outputs[o].inputs
          ensures k in inputs && o in inputs[k].outputs
        {
          assert old(outputs[o] in OutputSet && outputs[o].key == o);
          if o != outRec.key {
            assert outputs[o].inputs == old(outputs[o].inputs);
            assert old(k in inputs && o in inputs[k].outputs);
          } else if k != inRec.key {
            assert k in old(outRec.inputs);
            assert old(k in inputs && o in inputs[k].outputs);
            assert old(inputs[k] in InputSet && inputs[k].key == k);
            assert inputs[k].outputs == old(inputs[k].outputs);
          }
        }
      }
      assert SourcesOK() by {
        forall i | i in InputSet
          ensures i.queue == queue && (i.source == null || i.source in SourceSet) && i.SourceFits()
        {
          assert i.source == old(i.source) && i.arena == old(i.arena);
        }
      }
    }

    /** Filing a new connector over two registered records keeps the invariant. */
    twostate lemma ConnectorAdded(cn: RelayConnector)
      requires old(Valid()) && cn.Valid() && cn.subscriptions == [] && cn.lazy == lazy
      requires cn.input in InputSet && cn.output in OutputSet && cn.key == KeyAsWritten(cn.input.key, cn.output.key)
      requires connectors == old(connectors)[cn.key := cn] && ConnectorSet == old(ConnectorSet) + {cn} && Repr == old(Repr) + {cn}
      requires unchanged(this`inputs, this`outputs, this`InputSet, this`OutputSet, this`SourceSet)
      requires unchanged(this`runtimes, this`memory, this`isInitialized, this`freed)
      requires unchanged(lazy, queue) && unchanged(queue.arr) && unchanged(InputSet, OutputSet, old(ConnectorSet), SourceSet)
      ensures Valid()
    {
    }

    /* ---- Polling ---- */

    /**
     * Poll: runs the callbacks of every queued batch with the given time, batch after batch in
     * queue order and each batch's callbacks in order, then empties the queue. An empty queue
     * is left as it is.
     */
    method Poll(now: int)
      requires Valid()
      modifies this`calls, queue
      ensures Valid() && queue.Items() == []
      ensures calls == old(calls) + Drained(old(queue.Items()), now)
      ensures old(queue.index) <= 0 ==> unchanged(this`calls) && unchanged(queue)
      ensures queue.arr == old(queue.arr) && queue.capacity == old(queue.capacity)
      ensures old(Wired()) ==> Wired()
    {
      if queue.Length() <= 0 {
        return;
      }
      RunQueue(now);
      queue.Reset();
      QueueEmptied();
    }

    /** The outer loop of Poll: every queued batch runs, in queue order, with the given time. */
    method RunQueue(now: int)
      requires QueueOK()
      modifies this`calls
      ensures calls == old(calls) + Drained(queue.Items(), now)
    {
      ghost var items := queue.Items();
      var i := 0;
      while i < queue.Length()
        invariant 0 <= i <= queue.index && items == queue.Items()
        invariant calls == old(calls) + Drained(items[..i], now)
      {
        var batch := queue.Get(i);
        assert batch == items[i];
        RunBatch(batch, now);
        assert items[..i + 1][..i] == items[..i];
        i := i + 1;
      }
      assert items[..i] == items;
    }

    /** The inner loop of Poll: the batch's callbacks run in order, each with the given time. */
    method RunBatch(batch: Batch, now: int)
      modifies this`calls
      ensures calls == old(calls) + Stamped(batch.callbacks, now)
    {
      var j := 0;
      while j < |batch.callbacks|
        invariant 0 <= j <= |batch.callbacks|
        invariant calls == old(calls) + Stamped(batch.callbacks[..j], now)
      {
        calls := calls + [(batch.callbacks[j], now)];
        j := j + 1;
      }
      assert batch.callbacks[..j] == batch.callbacks;
    }

    /**
     * On a launched board Poll runs only callbacks subscribed on a registered input, with the
     * time it is given, and every queued batch is a runtime's batch held once.
     */
    lemma PollRunsSubscribed(now: int, c: Callback, t: int)
      requires Valid() && Launched()
      ensures NoDuplicates(queue.Items())
      ensures (c, t) in Drained(queue.Items(), now) ==> t == now && exists k | k in inputs :: c in inputs[k].callbacks
    {
      var items := queue.Items();
      DrainedRuns(items, now, c, t);
      if (c, t) in Drained(items, now) {
        var i :| 0 <= i < |items| && c in items[i].callbacks;
        assert items[i] in Batches(runtimes);
        var u :| 0 <= u < |runtimes| && Batches(runtimes)[u] == items[i];
        assert c in inputs[inOrder[u]].callbacks;
      }
    }

    /** Emptying the queue keeps the invariant, and the wiring when there was one. */
    twostate lemma QueueEmptied()
      requires old(Valid()) && queue.Valid() && queue.Items() == []
      requires unchanged(this`inputs, this`outputs, this`connectors, this`Repr, this`InputSet, this`OutputSet, this`ConnectorSet)
      requires unchanged(this`SourceSet, this`runtimes, this`memory, this`isInitialized, this`freed)
      requires unchanged(this`inOrder, this`outOrder, this`lengths, this`regions, this`sources, this`probes)
      requires queue.arr == old(queue.arr) && queue.capacity == old(queue.capacity) && unchanged(queue.arr)
      requires unchanged(lazy, InputSet, OutputSet, ConnectorSet, SourceSet)
      requires unchanged(set s | s in sources) && unchanged(set p | p in probes) && unchanged(set rt | rt in runtimes)
      requires old(memory) != null ==> unchanged(old(memory))
      ensures Valid() && (old(Wired()) ==> Wired())
    {
      FiledKept();
      SourcesOKKept();
      if old(Wired()) {
        PlannedKept();
        SourcesKept();
        ProbesKept();
        LaunchedDrained();
      }
    }

    /** The runtimes stay wired to an emptied queue: no batch is queued, so none is tracked. */
    twostate lemma LaunchedDrained()
      requires old(Launched()) && queue.Valid() && queue.Items() == []
      requires unchanged(this`runtimes, this`inputs, this`InputSet, this`inOrder, this`sources)
      requires queue.capacity == old(queue.capacity) && unchanged(InputSet)
      requires unchanged(set rt | rt in runtimes)
      ensures Launched()
    {
      forall t | 0 <= t < |runtimes|
        ensures runtimes[t].Tracked()
      {
        assert old(runtimes[t].Tracked());
      }
    }

    /* ---- Dispose ---- */

    /**
     * Dispose: disposes every input record, then every output record, then every connector,
     * then the runtime. Each record deregisters itself as it is disposed and each registry is
     * cleared after its loop. Disposing a connector runs in a lazy scope whose close rebuilds
     * an initialized board, now over empty registries. A connector whose disposal raised would
     * stop the board's Dispose, but none does: the inputs, disposed first, hold no mask, so no
     * connector fails to clear one, and the rebuild over empty registries passes.
     */
    method Dispose() returns (r: Outcome)
      requires Valid()
      modifies this, Repr
      ensures Valid() && inputs == map[] && outputs == map[] && unchanged(this`calls)
      ensures r == Pass && connectors == map[] && !isInitialized && runtimes == [] && memory == null
      ensures forall c | c in old(connectors) :: old(connectors[c]).subscriptions == []
      ensures old(freed) <= freed && (old(memory) != null ==> old(memory) in freed)
      ensures old(memory) != null || old(stale) != null ==> |freed| > |old(freed)| && stale == freed[|freed| - 1]
      ensures old(connectors) == map[] ==> (memory, stale, freed) == ReleaseAsWritten(old(memory), old(stale), old(freed))
      ensures fresh(Repr - old(Repr))
    {
      r := DisposeRegistries();
      if r.Fail? {
        return;
      }
      Clear();
    }

    /** The records, then the connectors: Dispose up to its runtime. */
    method DisposeRegistries() returns (r: Outcome)
      requires Valid()
      modifies this, Repr
      ensures Valid() && inputs == map[] && outputs == map[] && unchanged(this`calls)
      ensures fresh(Repr - old(Repr))
      ensures r == Pass && connectors == map[]
      ensures forall c | c in old(connectors) :: old(connectors[c]).subscriptions == []
      ensures FreesKept(old(memory), old(stale), old(freed), memory, stale, freed)
      ensures old(connectors) == map[] ==> unchanged(this`memory, this`stale, this`freed)
    {
      DisposeRecords();
      r := DisposeConnectors();
    }

    /**
     * Disposes the input records, then the output records, each in its registry's enumeration
     * order; each record deregisters itself and each registry is cleared after its loop.
     * Every input record disposed drops its mask, outputs and callbacks and empties the shared
     * queue; every output record disposed drops its inputs and callbacks.
     */
    method DisposeRecords()
      requires Valid()
      modifies this`inputs, this`outputs, InputSet, OutputSet, queue
      ensures Valid() && inputs == map[] && outputs == map[]
      ensures unchanged(this`connectors, this`memory, this`stale, this`freed)
    {
      DisposeInputs();
      DisposeOutputs();
    }

    /**
     * The invariant but for the edges, on a board whose inputs are gone: what holds between
     * the two loops of DisposeRecords.
     */
    ghost predicate InputsGone()
      reads this, Repr, lazy, queue, queue.arr, InputSet, OutputSet, ConnectorSet, SourceSet
    {
      inputs == map[] && Filed() && Owned() && QueueOK() && SourcesOK() && MemoryOK() && MasksFiled()
    }

    /** The inputs' loop, on a valid board. */
    method DisposeInputs()
      requires Valid()
      modifies this`inputs, InputSet, queue
      ensures InputsGone() && unchanged(this`outputs) && unchanged(OutputSet)
    {
      assert forall k | k in inputs :: inputs[k] in InputSet && inputs[k].key == k && inputs[k].queue == queue;
      DropInputs(InputSet);
      InputsDropped();
    }

    /** Disposed input records leave the invariant but for the edges. */
    twostate lemma InputsDropped()
      requires old(Valid()) && inputs == map[]
      requires unchanged(this`outputs, this`connectors, this`Repr, this`InputSet, this`OutputSet, this`ConnectorSet)
      requires unchanged(this`SourceSet, this`runtimes, this`memory, this`isInitialized, this`freed)
      requires forall i | i in InputSet :: i.source == old(i.source) && i.arena == old(i.arena)
      requires forall i | i in InputSet && i.mask != [] :: i.mask == old(i.mask) && !(i.key in old(inputs) && old(inputs)[i.key] == i)
      requires queue.Valid() && queue.arr == old(queue.arr) && queue.capacity == old(queue.capacity)
      requires queue.Items() == [] || unchanged(queue)
      requires unchanged(lazy, ConnectorSet, SourceSet) && unchanged(queue.arr)
      ensures InputsGone()
    {
      assert QueueOK() by {
        forall i | 0 <= i < queue.index
          ensures queue.arr[i] != null
        {
          assert queue.arr[i] == old(queue.arr[i]);
        }
      }
    }

    /** The outputs' loop, once the inputs are gone. */
    method DisposeOutputs()
      requires InputsGone() && forall o | o in outputs :: outputs[o] in OutputSet
      modifies this`outputs, OutputSet
      ensures Valid() && inputs == map[] && outputs == map[]
    {
      assert forall o | o in outputs :: outputs[o].key == o;
      DropOutputs();
      OutputsDropped();
    }

    /** With both registries empty, disposed output records leave the invariant in place. */
    twostate lemma OutputsDropped()
      requires old(InputsGone()) && outputs == map[]
      requires unchanged(this`inputs, this`connectors, this`Repr, this`InputSet, this`OutputSet, this`ConnectorSet)
      requires unchanged(this`SourceSet, this`runtimes, this`memory, this`isInitialized, this`freed)
      requires unchanged(lazy, queue, InputSet, ConnectorSet, SourceSet) && unchanged(queue.arr)
      ensures Valid()
    {
    }

    /**
     * The loop of the inputs: every record is disposed and deregistered in turn, then the
     * registry is cleared.
     */
    method DropInputs(ghost records: set<InputInitializer>)
      requires forall k | k in inputs :: inputs[k].key == k && inputs[k].queue == queue
      requires queue.Valid()
      modifies this`inputs, inputs.Values, queue
      ensures inputs == map[]
      ensures forall k | k in old(inputs) :: InputDisposed(old(inputs[k]))
      ensures forall i | i in records :: i.source == old(i.source) && i.arena == old(i.arena)
      ensures forall i | i in records && i.mask != [] :: i.mask == old(i.mask) && !(i.key in old(inputs) && old(inputs)[i.key] == i)
      ensures queue.Valid() && queue.arr == old(queue.arr) && queue.capacity == old(queue.capacity)
      ensures old(inputs) != map[] ==> queue.Items() == []
      ensures old(inputs) == map[] ==> unchanged(queue)
    {
      var recs := inputs;
      var order := Enumerate(recs.Keys);
      var t := 0;
      while t < |order|
        invariant 0 <= t <= |order|
        invariant forall u | 0 <= u < t :: InputDisposed(recs[order[u]])
        invariant forall k | k in recs :: recs[k].source == old(recs[k].source) && recs[k].arena == old(recs[k].arena)
        invariant queue.Valid() && queue.arr == old(queue.arr) && queue.capacity == old(queue.capacity)
        invariant t > 0 ==> queue.Items() == []
        invariant t == 0 ==> unchanged(queue)
        modifies this`inputs, recs.Values, queue
      {
        var rec := recs[order[t]];
        DropInput(rec);
        t := t + 1;
      }
      inputs := map[];
      forall k | k in recs
        ensures InputDisposed(recs[k])
      {
        assert k in order;
        var u :| 0 <= u < |order| && order[u] == k;
      }
      if recs != map[] {
        var k :| k in recs;
        assert k in order;
      }
    }

    /** InputInitializer.Dispose, then the board's callback RemoveInputInitializer. */
    method DropInput(rec: InputInitializer)
      requires rec.queue == queue && queue.Valid()
      modifies rec, this`inputs, queue
      ensures InputDisposed(rec) && inputs == old(inputs) - {rec.key}
      ensures rec.source == old(rec.source) && rec.arena == old(rec.arena)
      ensures queue.Valid() && queue.Items() == [] && queue.arr == old(queue.arr) && queue.capacity == old(queue.capacity)
    {
      rec.Dispose();
      inputs := inputs - {rec.key};
    }

    /**
     * The loop of the outputs: every record is disposed and deregistered in turn, then the
     * registry is cleared.
     */
    method DropOutputs()
      requires forall o | o in outputs :: outputs[o].key == o
      modifies this`outputs, outputs.Values
      ensures outputs == map[]
      ensures forall o | o in old(outputs) :: old(outputs[o]).inputs == {} && old(outputs[o]).callbacks == []
    {
      var recs := outputs;
      var order := Enumerate(recs.Keys);
      ghost var done: set<OutputInitializer> := {};
      var t := 0;
      while t < |order|
        invariant 0 <= t <= |order|
        invariant forall u | 0 <= u < t :: recs[order[u]] in done
        invariant forall o | o in done :: o.inputs == {} && o.callbacks == []
        modifies this`outputs, recs.Values
      {
        var rec := recs[order[t]];
        rec.Dispose();
        outputs := outputs - {rec.key};
        done := done + {rec};
        t := t + 1;
      }
      outputs := map[];
      if recs != map[] {
        var o :| o in recs;
        assert o in order;
      }
    }

    /**
     * Disposes the connectors in the registry's enumeration order (DropConnector), over empty
     * registries, stopping at the first that fails; as no input holds a mask, none does.
     */
    method DisposeConnectors() returns (r: Outcome)
      requires Valid() && inputs == map[] && outputs == map[]
      modifies this, Repr
      ensures Valid() && inputs == map[] && outputs == map[]
      ensures unchanged(this`calls, this`isInitialized, this`ConnectorSet) && fresh(Repr - old(Repr))
      ensures r == Pass && connectors == map[]
      ensures forall c | c in old(connectors) :: old(connectors[c]).subscriptions == []
      ensures FreesKept(old(memory), old(stale), old(freed), memory, stale, freed)
      ensures old(connectors) == map[] ==> unchanged(this`memory, this`stale, this`freed)
    {
      var cns := connectors;
      var rest := cns.Keys;
      ghost var done: set<RelayConnector> := {};
      r := Pass;
      if cns == map[] {
        return;
      }
      while r.Pass? && rest != {}
        invariant Valid() && inputs == map[] && outputs == map[] && fresh(Repr - old(Repr))
        invariant unchanged(this`calls, this`isInitialized, this`ConnectorSet)
        invariant r == Pass && Draining(cns, rest, done)
        invariant FreesKept(old(memory), old(stale), old(freed), memory, stale, freed)
        decreases rest
      {
        var k :| k in rest;
        r := DrainOne(cns, rest, done, k);
        rest, done := rest - {k}, done + {cns[k]};
      }
      assert connectors.Keys == {};
    }

    /**
     * The connectors' loop state: cns is the snapshot taken before the loop, rest the keys
     * still registered, done the connectors already disposed and left with no subscriptions.
     */
    ghost predicate Draining(cns: map<string, RelayConnector>, rest: set<string>, done: set<RelayConnector>)
      reads this, Repr, lazy, queue, queue.arr, InputSet, OutputSet, ConnectorSet, SourceSet
    {
      Valid() && inputs == map[] && outputs == map[] && rest <= cns.Keys
      && connectors.Keys == rest && done <= ConnectorSet
      && (forall c | c in cns :: cns[c] in ConnectorSet && cns[c].key == c)
      && (forall c | c in cns && c !in rest :: cns[c] in done)
      && (forall c | c in done :: c.subscriptions == [])
    }

    /** One step of the connectors' loop: disposes the connector registered under k. */
    method DrainOne(cns: map<string, RelayConnector>, ghost rest: set<string>, ghost done: set<RelayConnector>, k: string)
      returns (r: Outcome)
      requires Draining(cns, rest, done) && k in rest
      modifies this, Repr
      ensures Valid() && inputs == map[] && outputs == map[] && fresh(Repr - old(Repr))
      ensures unchanged(this`calls, this`isInitialized, this`ConnectorSet)
      ensures r == Pass && Draining(cns, rest - {k}, done + {cns[k]})
      ensures FreesKept(old(memory), old(stale), old(freed), memory, stale, freed)
    {
      r := DropConnector(cns[k]);
    }

    /** Over an empty input registry no record holds a mask, the inputs of the connectors included. */
    lemma InputsBare()
      requires Valid() && inputs == map[]
      ensures forall cn | cn in ConnectorSet :: cn.input.mask == []
    {
    }

    /**
     * Disposes one connector over empty registries: RelayConnector.Dispose, then the board's
     * callbacks for what it reports disposed (RemoveOutputInitializer, RemoveInputInitializer,
     * RemoveConnector), then the rebuild that closing its lazy scope runs. The rebuild's error,
     * if any, would be the one reported; neither step fails, the input holding no mask and the
     * registries being empty.
     */
    method DropConnector(cn: RelayConnector) returns (r: Outcome)
      requires Valid() && inputs == map[] && outputs == map[] && cn in ConnectorSet
      modifies this, Repr
      ensures Valid() && inputs == map[] && outputs == map[] && fresh(Repr - old(Repr))
      ensures unchanged(this`calls, this`isInitialized, this`ConnectorSet) && unchanged(ConnectorSet - {cn})
      ensures r == Pass && connectors == old(connectors) - {cn.key} && cn.subscriptions == []
      ensures FreesKept(old(memory), old(stale), old(freed), memory, stale, freed)
    {
      var fire;
      r, fire := Disconnect(cn);
      if fire {
        var rebuilt := Rebuild();
        if rebuilt.Fail? {
          r := rebuilt;
        }
      }
    }

    /**
     * LazyInitialize over empty registries: it cannot fail, there being no output to number
     * and no mask to check, and it adds only new objects to the footprint.
     */
    method Rebuild() returns (r: Outcome)
      requires Valid() && inputs == map[] && outputs == map[]
      modifies this, Repr
      ensures Valid() && inputs == map[] && outputs == map[] && fresh(Repr - old(Repr)) && r == Pass
      ensures unchanged(this`calls, this`isInitialized, this`ConnectorSet, this`connectors) && unchanged(ConnectorSet)
      ensures FreesKept(old(memory), old(stale), old(freed), memory, stale, freed)
    {
      r := LazyInitialize();
    }

    /**
     * RelayConnector.Dispose and the board's callbacks, over empty registries: the connector
     * is dropped, its input, disposed already, holding no mask to fail on. `fire` says whether the rebuild runs
     * as its lazy scope closes, which it always does here, no other scope being open.
     */
    method Disconnect(cn: RelayConnector) returns (r: Outcome, fire: bool)
      requires Valid() && inputs == map[] && outputs == map[] && cn in ConnectorSet
      modifies this`inputs, this`outputs, this`connectors, cn, lazy, cn.input, cn.output, cn.input.arena, queue, cn.Subs()
      ensures Valid() && inputs == map[] && outputs == map[] && fire
      ensures r == Pass && connectors == old(connectors) - {cn.key} && cn.subscriptions == []
    {
      InputsBare();
      var outputDisposed, inputDisposed;
      r, outputDisposed, inputDisposed, fire := cn.Dispose();
      Deregister(cn, outputDisposed, inputDisposed, r.Pass?);
      Dropped(cn);
    }

    /** The board's callbacks for a disposed output, input and connector: each drops its key. */
    method Deregister(cn: RelayConnector, outputDisposed: bool, inputDisposed: bool, removed: bool)
      modifies this`inputs, this`outputs, this`connectors
      ensures outputs == if outputDisposed then old(outputs) - {cn.output.key} else old(outputs)
      ensures inputs == if inputDisposed then old(inputs) - {cn.input.key} else old(inputs)
      ensures connectors == if removed then old(connectors) - {cn.key} else old(connectors)
    {
      if outputDisposed {
        outputs := outputs - {cn.output.key};
      }
      if inputDisposed {
        inputs := inputs - {cn.input.key};
      }
      if removed {
        connectors := connectors - {cn.key};
      }
    }

    /** Over empty registries, disposing a connector and dropping its key keeps the invariant. */
    twostate lemma Dropped(cn: RelayConnector)
      requires old(Valid()) && old(inputs) == map[] && inputs == map[] && outputs == map[] && cn in ConnectorSet
      requires connectors == old(connectors) || connectors == old(connectors) - {cn.key}
      requires unchanged(this`Repr, this`InputSet, this`OutputSet, this`ConnectorSet, this`SourceSet)
      requires unchanged(this`runtimes, this`memory, this`isInitialized, this`freed)
      requires unchanged(ConnectorSet - {cn}) && cn.Valid() && cn.Subs() <= old(cn.Subs())
      requires forall i | i in InputSet :: i.source == old(i.source) && i.arena == old(i.arena)
      requires forall i | i in InputSet - {cn.input} :: i.mask == old(i.mask)
      requires cn.input.mask == []
      requires unchanged(SourceSet) && lazy.deep == 0
      requires queue.Valid() && queue.arr == old(queue.arr) && queue.capacity == old(queue.capacity) && unchanged(queue.arr)
      requires queue.Items() == [] || queue.Items() == old(queue.Items())
      ensures Valid()
    {
      assert QueueOK() by {
        forall i | 0 <= i < queue.index
          ensures queue.arr[i] != null
        {
          assert queue.arr[i] == queue.Items()[i];
          assert old(queue.arr[i]) == old(queue.Items())[i];
        }
      }
    }

    /* ---- A connector disposed on a live board ---- */

    /**
     * IRelayConnector.Dispose by its user while its two ends are registered: the connector's
     * disposal and the board's callbacks for what it reports disposed, then the rebuild that
     * closing its lazy scope runs. The edge is gone from both ends whatever the outcome; the
     * rebuild's error, if any, is the one reported.
     */
    method DisposeConnector(cn: RelayConnector) returns (r: Outcome)
      requires Valid() && cn in ConnectorSet && EndsRegistered(cn)
      modifies this, Repr
      ensures Valid() && unchanged(this`calls, this`isInitialized)
      ensures cn.output.key !in cn.input.outputs && cn.input.key !in cn.output.inputs
      ensures outputs == if old(cn.output.inputs) <= {cn.input.key} then old(outputs) - {cn.output.key} else old(outputs)
      ensures inputs == old(inputs) || inputs == old(inputs) - {cn.input.key}
      ensures connectors == old(connectors) - {cn.key} || (r.Fail? && connectors == old(connectors))
      ensures !old(isInitialized) && old(cn.input.mask) == [] ==> r == Pass && connectors == old(connectors) - {cn.key}
      ensures old(|cn.input.mask|) > 0 && ClearAsWritten(old(cn.input.mask), old(cn.output.index)).None? ==>
        r.Fail? && connectors == old(connectors) && inputs == old(inputs) && cn.subscriptions == old(cn.subscriptions)
      ensures !old(isInitialized) ==>
        (r == Fail(ArgumentOutOfRange) <==> old(|cn.input.mask|) > 0 && ClearAsWritten(old(cn.input.mask), old(cn.output.index)).None?)
      ensures old(isInitialized) && r.Pass? ==> Wired() && FlagsClear()
    {
      var fire;
      r, fire := Unlink(cn);
      if fire {
        r := Settle(r);
      }
    }

    /**
     * The rebuild run as a disposal's lazy scope closes, after an outcome `prior` of the
     * disposal itself: the rebuild's error, if any, is the one reported.
     */
    method Settle(prior: Outcome) returns (r: Outcome)
      requires Valid()
      modifies this, Repr
      ensures Valid() && unchanged(this`inputs, this`outputs, this`connectors, this`calls, this`isInitialized)
      ensures unchanged(this`InputSet, this`OutputSet, this`ConnectorSet) && unchanged(ConnectorSet)
      ensures unchanged(InputSet`outputs, InputSet`callbacks, OutputSet`inputs)
      ensures r == prior || r.Fail?
      ensures !old(isInitialized) ==> r == prior && unchanged(this`runtimes, this`memory, this`freed)
      ensures old(isInitialized) ==>
        (r.Pass? <==> prior.Pass? && |outputs| <= MAX_OUTPUTS && ProbesReach(regions, |outputs|) && old(StaleMasksFit()))
      ensures old(isInitialized) && r.Fail? && prior.Pass? ==> r.error in {Overflow, ArgumentOutOfRange, InvalidData, Argument}
      ensures old(isInitialized) && r.Pass? ==> Wired() && FlagsClear()
    {
      var rebuilt := LazyInitialize();
      r := if rebuilt.Fail? then rebuilt else prior;
    }

    /** Both ends of the connector are the records registered under their names. */
    ghost predicate EndsRegistered(cn: RelayConnector)
      reads this`inputs, this`outputs
    {
      && cn.input.key in inputs && inputs[cn.input.key] == cn.input
      && cn.output.key in outputs && outputs[cn.output.key] == cn.output
    }

    /**
     * RelayConnector.Dispose and the board's callbacks, on a live board: the edge leaves both
     * ends, a self-disposing end leaves its registry, and the connector leaves its registry
     * unless its input fails to clear its mask. `fire` is always set, no other scope being open.
     */
    method Unlink(cn: RelayConnector) returns (r: Outcome, fire: bool)
      requires Valid() && cn in ConnectorSet && EndsRegistered(cn)
      modifies this`inputs, this`outputs, this`connectors, cn, lazy, cn.input, cn.output, cn.input.arena, queue, cn.Subs()
      ensures Valid() && fire && unchanged(this`calls, this`isInitialized)
      ensures cn.output.key !in cn.input.outputs && cn.input.key !in cn.output.inputs
      ensures outputs == if old(cn.output.inputs) <= {cn.input.key} then old(outputs) - {cn.output.key} else old(outputs)
      ensures inputs == old(inputs) || inputs == old(inputs) - {cn.input.key}
      ensures connectors == old(connectors) - {cn.key} || (r.Fail? && connectors == old(connectors))
      ensures old(cn.input.mask) == [] ==> r == Pass && connectors == old(connectors) - {cn.key}
      ensures r == Fail(ArgumentOutOfRange) <==>
        old(|cn.input.mask|) > 0 && ClearAsWritten(old(cn.input.mask), old(cn.output.index)).None?
      ensures r.Fail? ==> connectors == old(connectors) && inputs == old(inputs) && cn.subscriptions == old(cn.subscriptions)
    {
      var outputDisposed, inputDisposed;
      r, outputDisposed, inputDisposed, fire := Detach(cn);
      EdgesUnlinked(cn);
      Unlinked(cn);
    }

    /**
     * RelayConnector.Dispose followed by the board's callbacks, stated edge by edge: what each
     * end loses, which registry entries go, and that nothing else of the board changes.
     */
    method Detach(cn: RelayConnector) returns (r: Outcome, outputDisposed: bool, inputDisposed: bool, fire: bool)
      requires cn.Valid() && cn.input.SourceFits() && cn.input.queue == queue && queue.Valid()
      requires cn.input.arena != null ==> cn.input.arena as object != queue.arr
      requires cn.lazy == lazy && lazy.deep == 0
      modifies this`inputs, this`outputs, this`connectors, cn, lazy, cn.input, cn.output, cn.input.arena, queue, cn.Subs()
      ensures fire && (outputDisposed <==> old(cn.output.inputs) <= {cn.input.key})
      ensures connectors == if r.Pass? then old(connectors) - {cn.key} else old(connectors)
      ensures old(cn.input.mask) == [] ==> r == Pass
      ensures r == Fail(ArgumentOutOfRange) <==>
        old(|cn.input.mask|) > 0 && ClearAsWritten(old(cn.input.mask), old(cn.output.index)).None?
      ensures r.Fail? ==> inputs == old(inputs) && cn.subscriptions == old(cn.subscriptions)
      ensures outputs == if outputDisposed then old(outputs) - {cn.output.key} else old(outputs)
      ensures unchanged(this`calls, this`isInitialized) && Detached(cn)
    {
      r, outputDisposed, inputDisposed, fire := cn.Dispose();
      Deregister(cn, outputDisposed, inputDisposed, r.Pass?);
    }

    /**
     * What disposing a connector and deregistering what it reports does to the board: the edge
     * leaves both ends, an end left bare leaves its registry, and no other object changes.
     */
    twostate predicate Detached(cn: RelayConnector)
      reads this, InputSet, OutputSet, ConnectorSet, SourceSet, cn, cn.input, cn.output, cn.input.source, lazy, queue, queue.arr
    {
      && unchanged(this`Repr, this`InputSet, this`OutputSet, this`ConnectorSet, this`SourceSet)
      && unchanged(this`runtimes, this`memory, this`isInitialized, this`freed)
      && (outputs == old(outputs) || (outputs == old(outputs) - {cn.output.key} && cn.output.inputs == {}))
      && (inputs == old(inputs) || (inputs == old(inputs) - {cn.input.key} && cn.input.outputs == map[] && cn.input.mask == []))
      && (connectors == old(connectors) || connectors == old(connectors) - {cn.key})
      && cn.output.inputs == old(cn.output.inputs) - {cn.input.key}
      && cn.input.outputs == old(cn.input.outputs) - {cn.output.key}
      && unchanged(old(InputSet) - {cn.input}) && unchanged(old(OutputSet) - {cn.output})
      && unchanged(ConnectorSet - {cn}) && cn.Valid() && cn.Subs() <= old(cn.Subs())
      && cn.input.source == old(cn.input.source) && cn.input.arena == old(cn.input.arena) && cn.input.SourceFits()
      && unchanged(SourceSet) && lazy.deep == 0
      && queue.Valid() && queue.arr == old(queue.arr) && queue.capacity == old(queue.capacity) && unchanged(queue.arr)
      && (queue.Items() == [] || (old(queue.Valid()) && queue.Items() == old(queue.Items())))
    }

    /** On a live board, disposing a connector whose ends are registered, and deregistering what it reports, keeps the invariant once the edges are recorded on both ends. */
    twostate lemma Unlinked(cn: RelayConnector)
      requires old(Valid()) && cn in ConnectorSet && old(EndsRegistered(cn))
      requires Detached(cn)
      requires Edges()
      ensures Valid()
    {
      assert QueueOK() by {
        forall i | 0 <= i < queue.index
          ensures queue.arr[i] != null
        {
          assert queue.arr[i] == queue.Items()[i];
          assert old(queue.arr[i]) == old(queue.Items())[i];
        }
      }
    }

    /** Removing one edge from both of its registered ends, and dropping an end left bare, keeps every edge recorded on both ends. */
    twostate lemma EdgesUnlinked(cn: RelayConnector)
      requires old(Edges()) && old(Filed()) && old(EndsRegistered(cn))
      requires Detached(cn)
      ensures Edges()
    {
      var ik, ok := cn.input.key, cn.output.key;
      forall k, o | k in inputs && o in inputs[k].outputs
        ensures o in outputs && inputs[k].outputs[o] == outputs[o] && k in outputs[o].inputs
      {
        assert old(inputs)[k] == inputs[k] && old(inputs[k].outputs)[o] == inputs[k].outputs[o];
        if o == ok {
          assert k != ik;
          assert k in old(outputs[ok].inputs);
        }
      }
      forall o, k | o in outputs && k in outputs[o].inputs
        ensures k in inputs && o in inputs[k].outputs
      {
        assert old(outputs)[o] == outputs[o] && k in old(outputs[o].inputs);
        assert k in old(inputs) && o in old(inputs[k].outputs);
        if k == ik {
          assert o != ok && o in cn.input.outputs;
        } else {
          assert old(inputs)[k] in InputSet && old(inputs)[k].key == k;
        }
      }
    }

    /* ---- Subscriptions through a connector ---- */

    /**
     * IRelayConnector.Subscribe on a connector of this board: the connector appends the
     * callback to its input inside one lazy scope, and the rebuild that closing the scope runs
     * is the board's LazyInitialize. On an initialized board a rebuild that passes leaves the
     * input's runtime holding the new callback; on an uninitialized one nothing but the
     * subscription changes.
     */
    method Subscribe(cn: RelayConnector, callback: Option<Callback>)
        returns (handle: AnonymousDisposable<AnonymousDisposable<Callback>>, r: Outcome)
      requires Valid() && cn in ConnectorSet
      modifies this, Repr
      ensures Valid() && fresh(handle) && handle.onDispose.Some?
      ensures cn.subscriptions == old(cn.subscriptions) + [handle.onDispose.value]
      ensures cn.input.callbacks == old(cn.input.callbacks) + (if callback.Some? then [callback.value] else [])
      ensures unchanged(this`inputs, this`outputs, this`connectors, this`calls, this`isInitialized)
      ensures !old(isInitialized) ==> r == Pass && unchanged(this`runtimes, this`memory, this`freed)
      ensures old(isInitialized) ==> (r.Pass? <==> |outputs| <= MAX_OUTPUTS && ProbesReach(regions, |outputs|) && old(StaleMasksFit()))
      ensures old(isInitialized) && r.Fail? ==> r.error in {Overflow, ArgumentOutOfRange, InvalidData, Argument}
      ensures old(isInitialized) && r.Pass? ==> Wired() && FlagsClear()
    {
      var fire;
      handle, fire := Join(cn, callback);
      r := Pass;
      if fire {
        r := Settle(r);
      }
    }

    /** The connector's half of Subscribe: the handle and its subscription join the footprint. */
    method Join(cn: RelayConnector, callback: Option<Callback>)
        returns (handle: AnonymousDisposable<AnonymousDisposable<Callback>>, fire: bool)
      requires Valid() && cn in ConnectorSet
      modifies this`Repr, cn, lazy, cn.input
      ensures fresh(handle) && handle.Valid() && handle.onDispose.Some?
      ensures Valid() && fire && fresh(handle.onDispose.value)
      ensures Repr == old(Repr) + {handle.onDispose.value} && handle !in Repr
      ensures var sub := handle.onDispose.value;
        sub.onDispose == callback && cn.subscriptions == old(cn.subscriptions) + [sub]
      ensures cn.input.callbacks == old(cn.input.callbacks) + (if callback.Some? then [callback.value] else [])
      ensures StaleMasksFit() == old(StaleMasksFit())
    {
      handle, fire := cn.Subscribe(callback);
      Repr := Repr + {handle.onDispose.value};
      Resubscribed(cn);
    }

    /**
     * Disposing a handle that Subscribe on `cn` returned: the first disposal removes the
     * callback from the input inside one lazy scope, and the board's LazyInitialize runs as
     * the scope closes; a later disposal changes nothing.
     */
    method Unsubscribe(cn: RelayConnector, handle: AnonymousDisposable<AnonymousDisposable<Callback>>) returns (r: Outcome)
      requires Valid() && cn in ConnectorSet && handle !in Repr
      modifies this, Repr, handle, if handle.onDispose.Some? then {handle.onDispose.value} else {}
      ensures Valid() && handle.onDispose == None
      ensures old(handle.onDispose).None? ==>
        r == Pass && unchanged(this) && cn.subscriptions == old(cn.subscriptions) && cn.input.callbacks == old(cn.input.callbacks)
      ensures old(handle.onDispose).Some? ==>
        var sub := old(handle.onDispose).value;
        && cn.subscriptions == RemoveFirst(old(cn.subscriptions), sub)
        && cn.input.callbacks == (if old(sub.onDispose).Some?
          then RemoveFirst(old(cn.input.callbacks), old(sub.onDispose).value) else old(cn.input.callbacks))
      ensures unchanged(this`inputs, this`outputs, this`connectors, this`calls, this`isInitialized)
      ensures !old(isInitialized) ==> r == Pass && unchanged(this`runtimes, this`memory, this`freed)
      ensures old(isInitialized) && old(handle.onDispose).Some? ==>
        (r.Pass? <==> |outputs| <= MAX_OUTPUTS && ProbesReach(regions, |outputs|) && old(StaleMasksFit()))
      ensures old(isInitialized) && r.Fail? ==> r.error in {Overflow, ArgumentOutOfRange, InvalidData, Argument}
      ensures old(isInitialized) && old(handle.onDispose).Some? && r.Pass? ==> Wired() && FlagsClear()
    {
      var fire := Leave(cn, handle);
      r := Pass;
      if fire {
        r := LazyInitialize();
      }
    }

    /** The connector's half of Unsubscribe. */
    method Leave(cn: RelayConnector, handle: AnonymousDisposable<AnonymousDisposable<Callback>>) returns (fire: bool)
      requires Valid() && cn in ConnectorSet
      modifies cn, lazy, cn.input, handle, if handle.onDispose.Some? then {handle.onDispose.value} else {}
      ensures Valid() && handle.onDispose == None && unchanged(this)
      ensures old(handle.onDispose).None? ==>
        !fire && cn.subscriptions == old(cn.subscriptions) && cn.input.callbacks == old(cn.input.callbacks)
      ensures old(handle.onDispose).Some? ==>
        var sub := old(handle.onDispose).value;
        && fire
        && cn.subscriptions == RemoveFirst(old(cn.subscriptions), sub)
        && cn.input.callbacks == (if old(sub.onDispose).Some?
          then RemoveFirst(old(cn.input.callbacks), old(sub.onDispose).value) else old(cn.input.callbacks))
      ensures StaleMasksFit() == old(StaleMasksFit())
    {
      fire := cn.Unsubscribe(handle);
      Resubscribed(cn);
    }

    /** A connector whose subscriptions and input's callbacks changed, with no scope left open, keeps the invariant. */
    twostate lemma Resubscribed(cn: RelayConnector)
      requires old(Valid()) && cn in ConnectorSet && old(Repr) <= Repr && this !in Repr
      requires unchanged(this`inputs, this`outputs, this`connectors, this`InputSet, this`OutputSet, this`ConnectorSet, this`SourceSet)
      requires unchanged(this`runtimes, this`memory, this`isInitialized, this`freed)
      requires unchanged(ConnectorSet - {cn}) && cn.Valid() && cn.Subs() <= Repr
      requires unchanged(InputSet - {cn.input}) && cn.input.Wiring() == old(cn.input.Wiring())
      requires unchanged(OutputSet, SourceSet) && unchanged(queue) && unchanged(queue.arr) && lazy.deep == 0
      ensures Valid()
      ensures StaleMasksFit() == old(StaleMasksFit())
    {
    }

    /** `_connectors.Clear()`, then DisposeRuntime. */
    method Clear()
      requires Valid()
      modifies this`connectors, this`isInitialized, this`runtimes, this`memory, this`stale, this`freed, (set rt | rt in runtimes)`subscribed
      ensures Valid() && connectors == map[] && !isInitialized && runtimes == [] && memory == null
      ensures (memory, stale, freed) == ReleaseAsWritten(old(memory), old(stale), old(freed))
      ensures unchanged(this`inputs, this`outputs, this`calls, this`Repr)
    {
      connectors := map[];
      DisposeRuntime();
      Cleared();
    }

    /** Without connectors, runtimes or arena the invariant holds again. */
    twostate lemma Cleared()
      requires old(Valid()) && connectors == map[] && runtimes == [] && memory == null
      requires unchanged(this`inputs, this`outputs, this`Repr, this`InputSet, this`OutputSet, this`ConnectorSet, this`SourceSet)
      requires unchanged(lazy, queue) && unchanged(queue.arr) && unchanged(InputSet, OutputSet, ConnectorSet, SourceSet)
      ensures Valid()
    {
    }

    /* ---- Queries ---- */

    /** GetInputLinks: the record filed under the input's name; none for a null input or an unknown name. */
    function GetInputLinks(input: Endpoint): (rec: Option<InputInitializer>)
      requires Filed()
      reads this`inputs, this`outputs, this`connectors, this`InputSet, this`OutputSet, this`ConnectorSet
      ensures rec.Some? <==> input.Named? && input.Key() in inputs
      ensures rec.Some? ==> rec.value in InputSet && rec.value.key == input.Key()
    {
      if input.Null? || input.Key() !in inputs then None else Some(inputs[input.Key()])
    }

    /** GetOutputLinks: the record filed under the output's name; none for a null output or an unknown name. */
    function GetOutputLinks(output: Endpoint): (rec: Option<OutputInitializer>)
      requires Filed()
      reads this`inputs, this`outputs, this`connectors, this`InputSet, this`OutputSet, this`ConnectorSet
      ensures rec.Some? <==> output.Named? && output.Key() in outputs
      ensures rec.Some? ==> rec.value in OutputSet && rec.value.key == output.Key()
    {
      if output.Null? || output.Key() !in outputs then None else Some(outputs[output.Key()])
    }

    /** HasCallback: false for a null input or an unknown name, else whether the input's record has callbacks. */
    function HasCallback(input: Endpoint): (b: bool)
      reads this`inputs, inputs.Values
      ensures b <==> input.Named? && input.Key() in inputs && exists c :: c in inputs[input.Key()].callbacks
    {
      input.Named? && input.Key() in inputs && inputs[input.Key()].HasCallbacks()
    }

    /**
     * On a launched board whose input listing is that of the registry (both part of Wired),
     * every registered input has a runtime, and that runtime queues its batch on a pulse (it
     * subscribed PulseWithCallbacks) exactly when HasCallback holds for the input.
     */
    lemma HasCallbackQueues(k: string)
      requires Launched() && Listing(inOrder, inputs.Keys) && k in inputs
      ensures exists t | 0 <= t < |runtimes| :: runtimes[t].key == k
      ensures forall t | 0 <= t < |runtimes| && runtimes[t].key == k :: runtimes[t].withCallbacks <==> HasCallback(Named(Some(k)))
    {
      assert k in Elements(inOrder);
      var t :| 0 <= t < |inOrder| && inOrder[t] == k;
      assert runtimes[t].key == k;
    }

    /**
     * On a launched board whose input listing is that of the registry, a callback held by a
     * registered input is in the batch of that input's runtime, which queues its batch on a
     * pulse: after Subscribe and a rebuild that passes, Poll runs the new callback.
     */
    lemma SubscribedQueues(k: string, c: Callback)
      requires Launched() && Listing(inOrder, inputs.Keys) && k in inputs && c in inputs[k].callbacks
      ensures exists t | 0 <= t < |runtimes| :: runtimes[t].key == k && runtimes[t].withCallbacks && c in runtimes[t].batch.callbacks
    {
      assert k in Elements(inOrder);
      var t :| 0 <= t < |inOrder| && inOrder[t] == k;
      assert runtimes[t].key == k && c in runtimes[t].batch.callbacks;
    }

    /* ---- Notifications ---- */

    /**
     * On a wired board, the pulse of an input's source raises the flags of that input's
     * outputs and no other: bit j % 8 of flag byte j / 8 is set after the pulse exactly when
     * it was set before or j is the index of an output wired to the input.
     */
    lemma PulseRaisesOutputs(k: string, j: nat)
      requires Wired() && Edges() && k in inputs && j < |outputs|
      ensures inputs[k].source != null && inputs[k].source.Valid() && inputs[k].source.Fits(memory.Length)
      ensures regions.flags + j / 8 < regions.masks <= memory.Length
      ensures PulseRaises(inputs[k], memory[..], regions.flags, j)
    {
      var t :| 0 <= t < |inOrder| && inOrder[t] == k;
      var input := inputs[k];
      assert SourceWired(input, sources[t], outOrder, memory[..], regions.flags, regions.masks, MaskStart(regions.masks, lengths, t));
      PlanPartition(|inOrder|, |outOrder|, Sum(lengths));
      PulseOfWired(input, outputs, outOrder, memory[..], regions.flags, regions.masks, MaskStart(regions.masks, lengths, t), j);
    }

    /**
     * On a wired board, an output the input is not wired to keeps its flag bit through that
     * input's pulse: once a connector is disposed and the rebuild passes, notifying its input
     * no longer raises its output.
     */
    lemma UnwiredStaysLow(k: string, o: string)
      requires Wired() && Edges() && k in inputs && o in outputs && o !in inputs[k].outputs
      ensures inputs[k].source != null && inputs[k].source.Valid() && inputs[k].source.Fits(memory.Length)
      ensures 0 <= outputs[o].index < |outputs| && regions.flags + outputs[o].index / 8 < memory.Length
      ensures PulseKeeps(inputs[k], memory[..], regions.flags, outputs[o].index)
    {
      assert Planned();
      var input := inputs[k];
      DenseIndex(outputs, outOrder, o);
      var j := outputs[o].index;
      PulseRaisesOutputs(k, j);
      forall p | p in input.outputs
        ensures input.outputs[p].index != j
      {
        assert p in outputs && input.outputs[p] == outputs[p];
        DenseIndex(outputs, outOrder, p);
      }
      PulseMissesUnlinked(input, memory[..], regions.flags, j);
    }
  }

  /**
   * Dispose as written, twice, on an initialized board without connectors: the first frees
   * the arena Initialize allocated, and the second frees it again, `_globalMemory` still
   * pointing at it.
   */
  method DisposedTwice() returns (board: RelayBoard, arena: array<bv8>, first: Outcome, second: Outcome)
    ensures first == Pass && second == Pass && !board.isInitialized
    ensures board.freed == [arena, arena] && !NoDuplicates(board.freed)
  {
    board, arena := InitializedEmpty();
    first := board.Dispose();
    assert board.freed == [arena];
    second := board.Dispose();
    assert board.freed[0] == board.freed[1];
  }

  /** A new board, initialized: with nothing registered, Initialize passes and allocates an arena. */
  method InitializedEmpty() returns (board: RelayBoard, arena: array<bv8>)
    ensures fresh(board) && fresh(board.Repr) && board.Valid() && board.isInitialized && board.connectors == map[]
    ensures board.memory == arena && board.freed == []
  {
    board := new RelayBoard();
    assert board.inputs == map[] && board.outputs == map[] && board.StaleMasksFit();
    var built := board.Initialize();
    assert ProbesReach(board.regions, |board.outputs|);
    assert built.Pass? && board.FlagsClear();
    arena := board.memory;
  }

  /**
   * The collision of KeyAsWritten on a board: once input "a-b" is wired to output "c" (the two
   * steps Connect takes for a new pair), connecting input "a" to output "b-c" hands back that
   * first connector, and no edge from "a" to "b-c" is recorded.
   */
  method ConnectCollides() returns (board: RelayBoard, first: Option<RelayConnector>, second: Option<RelayConnector>)
    ensures first.Some? && second == first
    ensures first.value.input.key == "a-b" && first.value.output.key == "c"
    ensures "a" in board.inputs && "b-c" in board.outputs && "b-c" !in board.inputs["a"].outputs
  {
    var cn;
    board, cn := WiredAB();
    first := Some(cn);
    KeyAsWrittenCollides();
    var r;
    second, r := board.Connect(Named(Some("a")), Named(Some("b-c")));
  }

  /** A new board on which input "a-b" is wired to output "c" by the two steps Connect takes for a new pair. */
  method WiredAB() returns (board: RelayBoard, cn: RelayConnector)
    ensures fresh(board) && fresh(board.Repr) && board.Valid()
    ensures board.inputs.Keys == {"a-b"} && board.outputs.Keys == {"c"}
    ensures board.connectors == map[KeyAsWritten("a-b", "c") := cn]
    ensures cn.input.key == "a-b" && cn.output.key == "c"
  {
    board := new RelayBoard();
    var inRec, outRec := board.Register("a-b", "c");
    assert board.inputs.Keys == {"a-b"} && board.outputs.Keys == {"c"};
    assert fresh(board.Repr) && !board.isInitialized;
    var c, r := board.Attach(KeyAsWritten("a-b", "c"), inRec, outRec);
    cn := c.value;
  }

  /** `after` is `before` with `k` present: every entry of `before` kept, and `k` the only key added. */
  ghost predicate Grown<V>(before: map<string, V>, after: map<string, V>, k: string)
  {
    && k in after && after.Keys == before.Keys + {k}
    && forall x | x in before :: after[x] == before[x]
  }

  /**
   * Pulsing the input's source over the arena bytes s (OrInto, which PulseSource.Pulse
   * computes) sets bit j % 8 of flag byte j / 8 exactly when it was set already or j is the
   * index of one of the input's outputs.
   */
  ghost predicate PulseRaises(input: InputInitializer, s: seq<bv8>, flagsAt: int, j: nat)
    reads input, input.source, input.outputs.Values`index
    requires input.source != null && input.source.Valid() && input.source.Fits(|s|)
    requires 0 <= flagsAt && flagsAt + j / 8 < |s|
  {
    var src := input.source;
    BitSet(OrInto(s, src.flags, src.flags + src.maskOffset, src.maskLength)[flagsAt + j / 8], j % 8)
    <==> BitSet(s[flagsAt + j / 8], j % 8) || exists o | o in input.outputs :: input.outputs[o].index == j
  }

  /** A pulse leaves alone the flag bit of an index none of the input's outputs has. */
  lemma PulseMissesUnlinked(input: InputInitializer, s: seq<bv8>, flagsAt: int, j: nat)
    requires input.source != null && input.source.Valid() && input.source.Fits(|s|)
    requires 0 <= flagsAt && flagsAt + j / 8 < |s|
    requires PulseRaises(input, s, flagsAt, j)
    requires forall o | o in input.outputs :: input.outputs[o].index != j
    ensures PulseKeeps(input, s, flagsAt, j)
  {
  }

  /**
   * Pulsing the input's source over the arena bytes s leaves bit j % 8 of flag byte j / 8 as
   * it was.
   */
  ghost predicate PulseKeeps(input: InputInitializer, s: seq<bv8>, flagsAt: int, j: nat)
    reads input, input.source
    requires input.source != null && input.source.Valid() && input.source.Fits(|s|)
    requires 0 <= flagsAt && flagsAt + j / 8 < |s|
  {
    var src := input.source;
    BitSet(OrInto(s, src.flags, src.flags + src.maskOffset, src.maskLength)[flagsAt + j / 8], j % 8)
    <==> BitSet(s[flagsAt + j / 8], j % 8)
  }

  /**
   * The pulse of a wired source, on bytes: it raises bit j % 8 of flag byte j / 8 exactly when
   * that bit was set or j is the index of one of the input's outputs.
   */
  lemma PulseOfWired(input: InputInitializer, outputs: map<string, OutputInitializer>, order: seq<string>,
                     s: seq<bv8>, flagsAt: int, masksAt: int, maskAt: int, j: nat)
    requires input.source != null && SourceWired(input, input.source, order, s, flagsAt, masksAt, maskAt)
    requires Dense(outputs, order) && forall o | o in input.outputs :: o in outputs && input.outputs[o] == outputs[o]
    requires 0 <= flagsAt && flagsAt + j / 8 < |s|
    ensures PulseRaises(input, s, flagsAt, j)
  {
    var links := Linked(input.outputs.Keys, order);
    PulseSetsConnected(s, flagsAt, input.flagsOffset, input.maskLength, maskAt, links, j);
    IndicesLinked(input.outputs, outputs, order);
    assert j in links <==> j in IndicesOf(input.outputs);
  }

  /** The records of a registry in the order of a listing of its names. */
  function InOrder<T>(m: map<string, T>, order: seq<string>): (rs: seq<T>)
    requires forall t | 0 <= t < |order| :: order[t] in m
    ensures |rs| == |order| && forall t | 0 <= t < |order| :: rs[t] == m[order[t]]
  {
    seq(|order|, t requires 0 <= t < |order| => m[order[t]])
  }

  /** No two names share a record. */
  ghost predicate Injective<T>(m: map<string, T>)
  {
    forall a, b | a in m && b in m && m[a] == m[b] :: a == b
  }

  /** Listed in the order of a listing of its names, an injective registry has each record once. */
  lemma Listed<T>(m: map<string, T>, order: seq<string>)
    requires Listing(order, m.Keys) && Injective(m)
    ensures NoDuplicates(InOrder(m, order))
    ensures forall k | k in m :: m[k] in InOrder(m, order)
  {
    ListingDistinct(order, m.Keys);
    var rs := InOrder(m, order);
    forall t, u | 0 <= t < u < |order|
      ensures rs[t] != rs[u]
    {
      assert order[t] != order[u];
    }
    forall k | k in m
      ensures m[k] in rs
    {
      var t :| 0 <= t < |order| && order[t] == k;
      assert rs[t] == m[k];
    }
  }

  /**
   * Under the numbering, what PrepareIndices leaves lies in the flag region of the plan of its
   * numbers: every input's window holds its outputs' flags, and the masks pass the checks of
   * the sources exactly when every input without outputs holds a mask that fits an empty window.
   */
  lemma LaidOut(inputs: map<string, InputInitializer>, outputs: map<string, OutputInitializer>,
                inNames: seq<string>, outNames: seq<string>, lens: seq<nat>, plan: Regions)
    requires Listing(inNames, inputs.Keys) && Dense(outputs, outNames) && |outNames| <= MAX_OUTPUTS
    requires forall k, o {:trigger o in inputs[k].outputs} | k in inputs && o in inputs[k].outputs :: o in outputs && inputs[k].outputs[o] == outputs[o]
    requires forall k {:trigger Prepared(inputs[k])} | k in inputs :: Prepared(inputs[k])
    requires |lens| == |inNames| && forall t | 0 <= t < |inNames| :: lens[t] == inputs[inNames[t]].maskLength
    requires plan == Plan(|inNames|, |outNames|, Sum(lens))
    ensures AllLaid(InOrder(inputs, inNames), outNames, plan.flags, plan.masks)
    ensures (forall t | 0 <= t < |inNames| :: Accepts(lens[t], inputs[inNames[t]].mask)) <==>
      forall k | k in inputs && |inputs[k].outputs| == 0 :: Accepts(0, inputs[k].mask)
  {
    var ins := InOrder(inputs, inNames);
    forall t | 0 <= t < |ins|
      ensures Laid(ins[t], outNames, plan.flags, plan.masks)
      ensures |ins[t].outputs| > 0 ==> Accepts(lens[t], ins[t].mask)
      ensures |ins[t].outputs| == 0 ==> lens[t] == 0
    {
      LaidFromPrepared(ins[t], outputs, outNames, plan.flags, plan.masks);
    }
    if forall t | 0 <= t < |inNames| :: Accepts(lens[t], inputs[inNames[t]].mask) {
      forall k | k in inputs && |inputs[k].outputs| == 0
        ensures Accepts(0, inputs[k].mask)
      {
        var t :| 0 <= t < |inNames| && inNames[t] == k;
        assert ins[t] == inputs[k];
      }
    }
  }

  /**
   * Under the numbering, what PrepareIndices leaves in an input lies in the flag region of the
   * plan: its window holds the flags of its outputs, and with outputs its mask passes the
   * checks of its source; without outputs its window is empty.
   */
  lemma LaidFromPrepared(input: InputInitializer, outputs: map<string, OutputInitializer>, order: seq<string>,
                         flagsAt: int, masksAt: int)
    requires Dense(outputs, order) && |order| <= MAX_OUTPUTS && masksAt == flagsAt + FlagsSize(|order|)
    requires forall o | o in input.outputs :: o in outputs && input.outputs[o] == outputs[o]
    requires Prepared(input)
    ensures Laid(input, order, flagsAt, masksAt)
    ensures |input.outputs| > 0 ==> Accepts(input.maskLength, input.mask)
    ensures |input.outputs| == 0 ==> input.maskLength == 0
  {
    IndicesLinked(input.outputs, outputs, order);
    IndicesEmpty(input.outputs);
    var ix := IndicesOf(input.outputs);
    if ix != {} {
      SpanBounds(ix, input.flagsOffset, input.maskLength, |order|);
    }
  }

  /**
   * The second loop of PrepareIndices over a registry listed in `order`: every input computes
   * its window and mask from the indices of its outputs; an input without outputs keeps its mask.
   */
  method PrepareListed(inputs: map<string, InputInitializer>, order: seq<string>, ghost pool: set<InputInitializer>)
    requires forall k | k in inputs :: inputs[k] in pool && inputs[k].key == k
    requires Listing(order, inputs.Keys)
    requires forall k, o {:trigger o in inputs[k].outputs} | k in inputs && o in inputs[k].outputs :: 0 <= inputs[k].outputs[o].index
    modifies pool`maskLength, pool`flagsOffset, pool`mask
    ensures forall k {:trigger Prepared(inputs[k])} | k in inputs :: Prepared(inputs[k])
    ensures forall k | k in inputs && |inputs[k].outputs| == 0 :: inputs[k].mask == old(inputs[k].mask)
    ensures forall k | k in inputs :: inputs[k].maskLength >= 0
    ensures forall i | i in pool && !(i.key in inputs && inputs[i.key] == i) :: i.mask == old(i.mask)
  {
    ListingDistinct(order, inputs.Keys);
    var records := InOrder(inputs, order);
    forall a, b | a in inputs && b in inputs && inputs[a] == inputs[b]
      ensures a == b
    {
      assert inputs[a].key == a && inputs[b].key == b;
    }
    Listed(inputs, order);
    NoRepeatsIff(records);
    forall t, o | 0 <= t < |records| && o in records[t].outputs
      ensures 0 <= records[t].outputs[o].index
    {
      assert records[t] == inputs[order[t]];
    }
    ghost var ixs := IndicesSnapshot(records);
    PrepareAll(records, ixs);
    forall k | k in inputs
      ensures Prepared(inputs[k])
      ensures |inputs[k].outputs| == 0 ==> inputs[k].mask == old(inputs[k].mask)
      ensures inputs[k].maskLength >= 0
    {
      var u :| 0 <= u < |order| && order[u] == k;
      assert records[u] == inputs[k];
    }
    forall i | i in pool && i in records
      ensures i.key in inputs && inputs[i.key] == i
    {
      var u :| 0 <= u < |records| && records[u] == i;
      assert records[u] == inputs[order[u]];
    }
  }

  /** The first loop of PrepareIndices over a registry listed in `order`: the output listed t-th gets index t. */
  method NumberListed(outputs: map<string, OutputInitializer>, order: seq<string>, ghost pool: set<OutputInitializer>)
    requires forall o | o in outputs :: outputs[o] in pool && outputs[o].key == o
    requires Listing(order, outputs.Keys) && |outputs| <= MAX_OUTPUTS
    modifies pool`index
    ensures Dense(outputs, order)
  {
    ListingDistinct(order, outputs.Keys);
    var outs := InOrder(outputs, order);
    forall a, b | a in outputs && b in outputs && outputs[a] == outputs[b]
      ensures a == b
    {
      assert outputs[a].key == a && outputs[b].key == b;
    }
    Listed(outputs, order);
    NoRepeatsIff(outs);
    Number(outs);
    forall t | 0 <= t < |order|
      ensures outputs[order[t]].index == t
    {
      assert outs[t] == outputs[order[t]];
    }
  }

  /** The first loop of PrepareIndices on the outputs in their listing: the output listed t-th gets index t. */
  method Number(records: seq<OutputInitializer>)
    requires NoRepeats(records) && |records| <= MAX_OUTPUTS
    modifies (set r | r in records)`index
    ensures forall t | 0 <= t < |records| :: records[t].index == t
  {
    NoRepeatsIff(records);
    var t := 0;
    while t < |records|
      invariant 0 <= t <= |records|
      invariant forall u | 0 <= u < t :: records[u].index == u
    {
      records[t].index := t;
      t := t + 1;
    }
  }

  /** Runs PrepareIndices on each record in turn, the u-th record's outputs having the indices ixs[u]. */
  method PrepareAll(records: seq<InputInitializer>, ghost ixs: seq<set<int>>)
    requires NoRepeats(records) && |ixs| == |records|
    requires forall u | 0 <= u < |records| :: ixs[u] == IndicesOf(records[u].outputs)
    requires forall u, j | 0 <= u < |records| && j in ixs[u] :: 0 <= j
    modifies (set r | r in records)`maskLength, (set r | r in records)`flagsOffset, (set r | r in records)`mask
    ensures forall u | 0 <= u < |records| :: Prepared(records[u])
    ensures forall u | 0 <= u < |records| && |records[u].outputs| == 0 :: records[u].mask == old(records[u].mask)
  {
    NoRepeatsIff(records);
    var t := 0;
    while t < |records|
      invariant 0 <= t <= |records|
      invariant forall u | 0 <= u < t :: WindowOf(records[u], ixs[u])
      invariant forall u | 0 <= u < |records| && (t <= u || |records[u].outputs| == 0) :: records[u].mask == old(records[u].mask)
    {
      IndicesKept(records[t].outputs);
      PrepareOne(records[t], ixs[t]);
      t := t + 1;
    }
    forall u | 0 <= u < |records|
      ensures Prepared(records[u])
    {
      IndicesKept(records[u].outputs);
    }
  }

  /** PrepareIndices on one record whose outputs have the indices ix. */
  method PrepareOne(r: InputInitializer, ghost ix: set<int>)
    requires ix == IndicesOf(r.outputs) && forall j | j in ix :: 0 <= j
    modifies r`maskLength, r`flagsOffset, r`mask
    ensures WindowOf(r, ix)
    ensures |r.outputs| == 0 ==> r.mask == old(r.mask)
  {
    forall o | o in r.outputs
      ensures 0 <= r.outputs[o].index
    {
      assert r.outputs[o].index as int in ix;
    }
    r.PrepareIndices();
    IndicesEmpty(r.outputs);
  }

  /** The window and mask of a record are those PrepareIndices computes for the indices ix. */
  ghost predicate WindowOf(r: InputInitializer, ix: set<int>)
    reads r`flagsOffset, r`maskLength, r`mask
  {
    PreparedWindow(ix, r.flagsOffset, r.maskLength, r.mask)
  }

  /** The indices of every record's outputs, none of them negative. */
  lemma IndicesSnapshot(records: seq<InputInitializer>) returns (ixs: seq<set<int>>)
    requires forall t, o | 0 <= t < |records| && o in records[t].outputs :: 0 <= records[t].outputs[o].index
    ensures |ixs| == |records| && forall u | 0 <= u < |records| :: ixs[u] == IndicesOf(records[u].outputs)
    ensures forall u, j | 0 <= u < |records| && j in ixs[u] :: 0 <= j
  {
    ixs := IndicesOfAll(records);
  }

  /** The indices of every record's outputs, record by record. */
  ghost function IndicesOfAll(records: seq<InputInitializer>): (ixs: seq<set<int>>)
    reads set r | r in records, set r, o | r in records && o in r.outputs.Values :: o
    ensures |ixs| == |records| && forall u | 0 <= u < |records| :: ixs[u] == IndicesOf(records[u].outputs)
  {
    if records == [] then [] else IndicesOfAll(records[..|records| - 1]) + [IndicesOf(records[|records| - 1].outputs)]
  }

  /** The indices of a registry whose outputs are left alone are left alone. */
  twostate lemma IndicesKept(outputs: map<string, OutputInitializer>)
    requires unchanged(outputs.Values)
    ensures IndicesOf(outputs) == old(IndicesOf(outputs))
  {
  }

  /** Every one of the first n probe slots reaches its flag byte. */
  predicate ProbesReach(plan: Regions, n: nat)
  {
    forall t | 0 <= t < n :: ProbeReaches(plan, t)
  }

  /** The probe in slot t of the probe region reaches flag byte t / 8 within the 28-bit offset. */
  predicate ProbeReaches(plan: Regions, t: nat)
  {
    -OFFSET_MASK <= (plan.flags + t / 8) - (plan.probes + Layout.PROBE_SIZE * t) <= OFFSET_MASK
  }

  /** A probe word that holds the single-bit mask `1 << c` holds the code c. */
  lemma ProbeCode(probe: PulseProbe, c: nat)
    requires c < 8 && probe.GetMask() == Pow2(c)
    ensures probe.Code() == c
  {
    MaskOfSingleBit(probe.word);
    MaskCodeComplete(c);
  }

  /** A new connector between two records, which records the edge on both ends. */
  method NewConnector(key: string, input: InputInitializer, output: OutputInitializer, lazy: LazyInitializer)
    returns (cn: RelayConnector)
    modifies input, output
    ensures fresh(cn) && cn.Valid() && cn.subscriptions == []
    ensures cn.key == key && cn.input == input && cn.output == output && cn.lazy == lazy
    ensures output.inputs == old(output.inputs) + {input.key}
    ensures input.outputs == if output.key in old(input.outputs) then old(input.outputs)
      else old(input.outputs)[output.key := output]
    ensures unchanged(input`source, input`arena, input`mask, input`maskLength, input`flagsOffset, input`callbacks)
    ensures unchanged(input`isInitialized, input`linked, output`index, output`callbacks, output`probe)
  {
    cn := new RelayConnector(key, input, output, lazy);
  }

  /** InstallPulseProbes over the outputs of a registry in their listing: on success every output reads its flag bit through its probe. */
  method ProbeOutputs(outputs: map<string, OutputInitializer>, order: seq<string>, plan: Regions, ghost pool: set<OutputInitializer>)
    returns (r: Outcome, ghost made: seq<PulseProbe>)
    requires forall o | o in outputs :: outputs[o] in pool && outputs[o].key == o
    requires Dense(outputs, order)
    modifies pool`probe
    ensures r.Pass? <==> ProbesReach(plan, |outputs|)
    ensures r.Fail? ==> r == Fail(ArgumentOutOfRange) || r == Fail(InvalidData)
    ensures r.Pass? ==> ProbesWired(outputs, order, made, plan.flags)
  {
    var outs := InOrder(outputs, order);
    forall a, b | a in outputs && b in outputs && outputs[a] == outputs[b]
      ensures a == b
    {
      assert outputs[a].key == a && outputs[b].key == b;
    }
    Listed(outputs, order);
    NoRepeatsIff(outs);
    forall t | 0 <= t < |outs|
      ensures outs[t] in pool && outs[t].index == t
    {
      assert outs[t] == outputs[order[t]];
    }
    r, made := InstallPulseProbes(outs, plan, pool);
  }

  /** WireSources over the inputs of a registry in their listing, on one block and plan. */
  method WireListed(inputs: map<string, InputInitializer>, order: seq<string>, block: array<bv8>, plan: Regions,
                    lengths: seq<nat>, ghost outOrder: seq<string>, ghost pool: set<InputInitializer>)
    returns (r: Outcome, ins: seq<InputInitializer>, ghost made: seq<PulseSource>)
    requires forall k | k in inputs :: inputs[k] in pool && inputs[k].key == k
    requires Listing(order, inputs.Keys) && (forall t | 0 <= t < |order| :: order[t] in inputs)
    requires |lengths| == |order| && forall t | 0 <= t < |order| :: inputs[order[t]].maskLength == lengths[t]
    requires plan == Plan(|order|, |outOrder|, Sum(lengths)) && block.Length == plan.total
    requires AllLaid(InOrder(inputs, order), outOrder, plan.flags, plan.masks)
    requires forall i | i in pool :: i.SourceFits()
    modifies pool`source, pool`arena, pool`linked, pool`isInitialized, block
    ensures ins == InOrder(inputs, order)
    ensures forall i | i in pool :: i.SourceFits() && (i in ins || (i.source == old(i.source) && i.arena == old(i.arena)))
    ensures forall i | i in pool :: i.arena == old(i.arena) || i.arena == block
    ensures r.Pass? <==> forall t | 0 <= t < |ins| :: Accepts(lengths[t], ins[t].mask)
    ensures r.Fail? ==> r == Fail(ArgumentOutOfRange) || r == Fail(Argument)
    ensures r.Pass? ==> |made| == |ins| && forall t | 0 <= t < |ins| ::
      && ins[t].arena == block
      && SourceWired(ins[t], made[t], outOrder, block[..], plan.flags, plan.masks, MaskStart(plan.masks, lengths, t))
    ensures r.Pass? ==> block[..plan.masks] == old(block[..plan.masks])
  {
    ins := InOrder(inputs, order);
    InputsListed(inputs, order, lengths, pool);
    r, made := WirePooled(ins, block, plan, lengths, outOrder, pool);
  }

  /** WireSources over records drawn from a pool: the records outside the list keep their source and arena. */
  method WirePooled(records: seq<InputInitializer>, block: array<bv8>, plan: Regions, lengths: seq<nat>,
                    ghost outOrder: seq<string>, ghost pool: set<InputInitializer>)
    returns (r: Outcome, ghost made: seq<PulseSource>)
    requires NoDuplicates(records) && |lengths| == |records|
    requires forall t | 0 <= t < |records| :: records[t] in pool
    requires forall t | 0 <= t < |records| :: records[t].maskLength == lengths[t]
    requires plan == Plan(|records|, |outOrder|, Sum(lengths)) && block.Length == plan.total
    requires AllLaid(records, outOrder, plan.flags, plan.masks)
    requires forall i | i in pool :: i.SourceFits()
    modifies pool`source, pool`arena, pool`linked, pool`isInitialized, block
    ensures forall i | i in pool :: i.SourceFits() && (i in records || (i.source == old(i.source) && i.arena == old(i.arena)))
    ensures forall i | i in pool :: i.arena == old(i.arena) || i.arena == block
    ensures r.Pass? <==> forall t | 0 <= t < |records| :: Accepts(lengths[t], records[t].mask)
    ensures r.Fail? ==> r == Fail(ArgumentOutOfRange) || r == Fail(Argument)
    ensures r.Pass? ==> |made| == |records| && forall t | 0 <= t < |records| ::
      && records[t].arena == block
      && SourceWired(records[t], made[t], outOrder, block[..], plan.flags, plan.masks, MaskStart(plan.masks, lengths, t))
    ensures r.Pass? ==> block[..plan.masks] == old(block[..plan.masks])
  {
    r, made := WireSources(records, block, plan, lengths, outOrder);
    SourcesFitAll(records);
  }

  /** The listing of a registry keyed by its records' names holds each record once, with its mask length. */
  lemma InputsListed(inputs: map<string, InputInitializer>, order: seq<string>, lengths: seq<nat>,
                     pool: set<InputInitializer>)
    requires forall k | k in inputs :: inputs[k] in pool && inputs[k].key == k
    requires Listing(order, inputs.Keys) && (forall t | 0 <= t < |order| :: order[t] in inputs)
    requires |lengths| == |order| && forall t | 0 <= t < |order| :: inputs[order[t]].maskLength == lengths[t]
    ensures NoDuplicates(InOrder(inputs, order))
    ensures forall t | 0 <= t < |order| :: InOrder(inputs, order)[t] in pool
    ensures forall t | 0 <= t < |order| :: InOrder(inputs, order)[t].maskLength == lengths[t]
  {
    forall a, b | a in inputs && b in inputs && inputs[a] == inputs[b]
      ensures a == b
    {
      assert inputs[a].key == a && inputs[b].key == b;
    }
    Listed(inputs, order);
    NoRepeatsIff(InOrder(inputs, order));
  }

  /** SourcesFit over a list is SourceFits for each of its records. */
  lemma SourcesFitAll(records: seq<InputInitializer>)
    requires SourcesFit(records)
    ensures forall i | i in records :: i.SourceFits()
  {
    forall i | i in records
      ensures i.SourceFits()
    {
      var t :| 0 <= t < |records| && records[t] == i;
    }
  }

  /**
   * InstallPulseProbes: the output listed t-th gets the probe in slot t of the probe region,
   * pointed at bit `index % 8` of flag byte `index / 8`. It fails at the first probe whose
   * flag byte is out of its reach.
   */
  method InstallPulseProbes(records: seq<OutputInitializer>, plan: Regions, ghost pool: set<OutputInitializer>)
    returns (r: Outcome, ghost made: seq<PulseProbe>)
    requires NoRepeats(records) && forall t | 0 <= t < |records| :: records[t] in pool
    requires forall t | 0 <= t < |records| :: records[t].index == t
    modifies pool`probe
    ensures r.Pass? <==> forall t | 0 <= t < |records| :: ProbeReaches(plan, t)
    ensures r.Fail? ==> r == Fail(ArgumentOutOfRange) || r == Fail(InvalidData)
    ensures |made| <= |records| && forall t | 0 <= t < |made| :: fresh(made[t])
    ensures r.Pass? ==> |made| == |records|
    ensures forall t | 0 <= t < |made| ::
      && records[t].probe == Some(made[t])
      && made[t].GetFlags() == plan.flags + t / 8 && made[t].Code() == t % 8
  {
    NoRepeatsIff(records);
    r, made := Pass, [];
    var t := 0;
    while t < |records|
      invariant 0 <= t <= |records| && |made| == t && r == Pass
      invariant forall u | 0 <= u < t :: ProbeReaches(plan, u)
      invariant forall u | 0 <= u < t :: fresh(made[u])
      invariant forall u | 0 <= u < t ::
        && records[u].probe == Some(made[u])
        && made[u].GetFlags() == plan.flags + u / 8 && made[u].Code() == u % 8
    {
      var output := records[t];
      var idx := output.index;
      var probe := new PulseProbe(plan.probes + Layout.PROBE_SIZE * t);
      MaskCodeComplete(idx % NB_BITS_PER_BYTE);
      r := probe.Initialize(plan.flags + idx / NB_BITS_PER_BYTE, Pow2(idx % NB_BITS_PER_BYTE));
      if r.Fail? {
        assert !ProbeReaches(plan, t);
        return;
      }
      ProbeCode(probe, idx % NB_BITS_PER_BYTE);
      output.Inject(probe);
      made := made + [probe];
      t := t + 1;
    }
  }

  /** `_queue.SetCapacity(n)`, then `_queue.Reset()`: a fresh storage of n slots, emptied. */
  method Renew(queue: ArrayEx<Batch?>, n: nat)
    requires queue.Valid()
    modifies queue
    ensures queue.Valid() && fresh(queue.arr) && queue.capacity == n && queue.Items() == [] && queue.index == 0
  {
    queue.SetCapacity(n);
    queue.Reset();
  }

  /** The runtimes of the inputs, in the listing: `Select(p => p.Value.CreateRuntime())`. */
  method CreateRuntimes(records: seq<InputInitializer>) returns (created: seq<InputRuntime>)
    requires forall t | 0 <= t < |records| :: records[t].source != null
    ensures |created| == |records|
    ensures forall t | 0 <= t < |records| ::
      && fresh(created[t]) && fresh(created[t].batch)
      && created[t].source == records[t].source && created[t].key == records[t].key
      && created[t].queue == records[t].queue && created[t].insertIdx == 0 && created[t].subscribed
      && NoDuplicates(created[t].batch.callbacks)
      && (forall c :: c in created[t].batch.callbacks <==> c in records[t].callbacks)
      && (created[t].withCallbacks <==> |records[t].callbacks| > 0)
    ensures NoDuplicates(Batches(created))
  {
    created := [];
    var t := 0;
    while t < |records|
      invariant 0 <= t <= |records| && |created| == t
      invariant forall u | 0 <= u < t ::
        && fresh(created[u]) && fresh(created[u].batch)
        && created[u].source == records[u].source && created[u].key == records[u].key
        && created[u].queue == records[u].queue && created[u].insertIdx == 0 && created[u].subscribed
        && NoDuplicates(created[u].batch.callbacks)
        && (forall c :: c in created[u].batch.callbacks <==> c in records[u].callbacks)
        && (created[u].withCallbacks <==> |records[u].callbacks| > 0)
      invariant NoDuplicates(Batches(created))
    {
      var runtime := records[t].CreateRuntime();
      created := created + [runtime];
      t := t + 1;
    }
  }

  /**
   * What PrepareIndices leaves for indices ix: no window when there are none, and otherwise
   * the smallest window holding them all, with their relative mask.
   */
  predicate PreparedWindow(ix: set<int>, flagsOffset: int, maskLength: int, mask: seq<bool>)
  {
    && (ix == {} ==> maskLength == 0 && flagsOffset == 0)
    && (ix != {} ==> Spans(ix, flagsOffset, maskLength) && maskLength >= 1 && mask == MaskBits(ix, flagsOffset, maskLength))
  }

  /** What PrepareIndices leaves in an input: the window and mask of its outputs' indices. */
  ghost predicate Prepared(input: InputInitializer)
    reads input, input.outputs.Values
  {
    PreparedWindow(IndicesOf(input.outputs), input.flagsOffset, input.maskLength, input.mask)
  }

  /** An input has indices exactly when it has outputs. */
  lemma IndicesEmpty(outputs: map<string, OutputInitializer>)
    ensures IndicesOf(outputs) == {} <==> |outputs| == 0
  {
    if |outputs| > 0 {
      var k :| k in outputs;
      assert outputs[k].index as int in IndicesOf(outputs);
    }
  }
}
