# RelayBoard, modelled in Dafny

RelayBoard is a pulse-propagation engine. Named inputs are connected to named outputs
through connectors. `Initialize` lays out one unmanaged arena in four regions:

- a pulse-source table, one 16-byte `PulseSource` per input;
- a flag region, with one bit per output;
- the mask slices, one per input;
- a probe table, one 4-byte `PulseProbe` per output.

Each output is numbered and owns flag bit `index % 8` of flag byte `index / 8`. Each input
covers the bytes of the flag region that its outputs fall in. Its mask slice holds the
relative bit mask of those outputs. Notifying an input ORs that mask into the flags, 64 bits
at a time and then byte by byte. Each output reads its own bit through a probe word. The
probe word packs a 3-bit mask code, a sign bit and a 28-bit offset. `SetOff` clears the bit
again.

An input with callbacks also enqueues its callback batch, at most once between two polls.
`Poll(now)` runs the queued batches in order and empties the queue. A connector's
`Subscribe`, its unsubscribe and its `Dispose` run inside a `LazyInitializer` scope. When
the outermost scope closes, an initialized board is rebuilt. `Dispose` tears everything
down and frees the arena.

The model has one Dafny module per source file:

| module | source file |
|---|---|
| `Board` | `RelayBoard.cs` |
| `Inputs` | `InputInitializer.cs` |
| `Outputs` | `OutputInitializer.cs` |
| `Connectors` | `RelayConnector.cs` |
| `Runtimes` | `InputRuntime.cs` |
| `Sources` | `PulseSource.cs` |
| `Probes` | `PulseProbe.cs` |
| `Lazy` | `LazyInitializer.cs` |
| `Disposables` | `AnonymousDisposable.cs` |
| `Buffers` | `ArrayEx.cs` |
| `Metrics` | `PulseMetrics.cs` |
| `Tools` | `Tools.cs` |

Some modules are shared by the others:

- `Layout`: the arena plan.
- `Wiring`: how `InstallPulseSources` stages the masks.
- `Bytes`: little-endian words over bytes.
- `UintBits`: powers of two and bitwise or on naturals.
- `Lists`: the LINQ and `List<T>` operations that are used.
- `Wrappers`: `Option`, `Outcome` and the exception kinds.

How the model represents the source:

- Classes whose fields the engine updates are Dafny classes. The arena is an `array<bv8>`.
- A pointer into the arena is an integer address. A `PulseSource` or `PulseProbe` is an
  object that remembers its address in the arena. The arena reserves only the bytes of
  each record.
- A thrown exception is a `Fail(error)` outcome, and the state at the throw is kept.

The model differs from a loose reading of the engine's design in four places. In each of
them it follows the code:

- `Ceiling` adds a whole extra uint when the flag byte count is already a multiple of four.
- The flag byte count is `outputs / 8`, rounded down.
- `Initialize` refuses more than `65535 * 8` outputs.
- `_globalMemory` keeps pointing at the arena after it is freed. So `Board.RelayBoard.Dispose`,
  applied twice, frees the arena twice (`Board.DisposedTwice`). This is reported under Findings.

The connector constructor passes the input record to `OutputInitializer.AddInput(string)`.
This is code caught between two refactorings. It is modelled as recording the input's name,
which is what `RemoveInput` and `HasInput` look up.

## Model

| member | source | states |
|---|---|---|
| Disposables.AnonymousDisposable.constructor | RelayBoard/Core/AnonymousDisposable.cs:10-13 | the disposable holds the given action and has run nothing |
| Disposables.AnonymousDisposable.Empty | RelayBoard/Core/AnonymousDisposable.cs:7 | a new handle with no action, whose disposal runs nothing |
| Disposables.AnonymousDisposable.Dispose | RelayBoard/Core/AnonymousDisposable.cs:17-21 | the first disposal hands back the action and counts one run; it drops the action, so a second disposal runs nothing |
| Buffers.ArrayEx.constructor | RelayBoard/Core/ArrayEx.cs:25-30 | a fresh backing array of the requested capacity (16 by default), holding no items |
| Buffers.ArrayEx.Length | RelayBoard/Core/ArrayEx.cs:11-15 | the count of items added since the last Reset, never above the capacity |
| Buffers.ArrayEx.Get | RelayBoard/Core/ArrayEx.cs:17-20 | the indexer's getter: below Length it returns the item added at that position |
| Buffers.ArrayEx.Set | RelayBoard/Core/ArrayEx.cs:17-23 | the indexer's setter writes one slot and leaves the others |
| Buffers.ArrayEx.EnsureCapacity | RelayBoard/Core/ArrayEx.cs:55-65 | with a free slot, nothing changes; when exactly full, the doubling loop never runs, so the array is copied at the same size; after a failed Add (index one past the capacity) the capacity doubles and the old items are copied; the index is never changed |
| Buffers.ArrayEx.AddAsWritten | RelayBoard/Core/ArrayEx.cs:32-37 | Add as written: the index always grows by one; with a free slot the item is appended; on a full buffer the write is out of range (IndexOutOfRange), the items are kept and the index is left one past the capacity; the next Add doubles the capacity, leaves the slot at the old capacity empty, and fails again only for a capacity of 1 |
| Buffers.FullAddFails | RelayBoard/Core/ArrayEx.cs:32-37 | on a buffer of capacity 1, four Adds as written give Pass, IndexOutOfRange, IndexOutOfRange, Pass, with slot 0 holding 1 and slot 3 holding 4; the corrected Add holds [1, 2] |
| Buffers.Grow | RelayBoard/Core/ArrayEx.cs:60-61 | the doubling loop, run until the index fits: the result is above the index and at least the old capacity |
| Buffers.ArrayEx.Add | RelayBoard/Core/ArrayEx.cs:32-37 | corrected Add: the item is always appended; with a free slot the array is written in place; when full, the buffer grows to Grow(capacity, index) |
| Buffers.ArrayEx.SetCapacity | RelayBoard/Core/ArrayEx.cs:39-47 | a fresh array of the new capacity that keeps the first min(old length, capacity) items, with the index clamped to the capacity |
| Buffers.ArrayEx.Reset | RelayBoard/Core/ArrayEx.cs:49-53 | the buffer holds no items; the storage and capacity are kept |
| Bytes.ClearWord | RelayBoard/PulseProbe.cs:113-114 | the 32-bit read-and-write of SetOff changes only the first byte, which loses the mask bits |
| Inputs.ClearAsWritten | RelayBoard/Internals/InputInitializer.cs:58-60 | `mask.Set(index, false)` over the relative mask: it fails when the absolute index is out of range; otherwise it clears exactly that relative bit |
| Inputs.ClearRelative | RelayBoard/Internals/InputInitializer.cs:58-60 | the corrected clear removes exactly relative bit `index - 8 * FlagsOffset` and keeps every other bit |
| Inputs.ClearRelativeRemoves | RelayBoard/Internals/InputInitializer.cs:52-62 | clearing an output from the mask built for a set of outputs gives the mask built for that set without the output |
| Inputs.ClearAsWrittenCounterexample | RelayBoard/Internals/InputInitializer.cs:59 | an input wired only to output 8 fails the clear; an input wired to outputs 8 and 20 keeps the bit of output 8 |
| Inputs.ClearAsWrittenAtZero | RelayBoard/Internals/InputInitializer.cs:59 | the written clear is the right one exactly when FlagsOffset is 0 |
| Inputs.MinMax | RelayBoard/Internals/InputInitializer.cs:74-80 | the smallest and largest output index (int.MaxValue and int.MinValue for none), both taken from the indices |
| Inputs.MarkMask | RelayBoard/Internals/InputInitializer.cs:90-93 | a mask of the requested length whose bit b is set exactly when output index b + floor is present |
| Inputs.IndicesInOrder | RelayBoard/Internals/InputInitializer.cs:76 | the indices of the outputs, in the order of the listing |
| Inputs.IndicesListed | RelayBoard/Internals/InputInitializer.cs:76 | the listed indices are exactly the indices of the input's outputs |
| Inputs.SpanOf | RelayBoard/Internals/InputInitializer.cs:74-93 | FlagsOffset and MaskLength are the least byte window that holds every index, at least one byte long; the mask marks exactly those indices |
| Inputs.SpanOfOutputs | RelayBoard/Internals/InputInitializer.cs:68-94 | the same window and mask, computed from the output records |
| Inputs.InputInitializer.constructor | RelayBoard/Internals/InputInitializer.cs:27-33 | the record shares the board's queue and has no outputs, no callbacks, no mask and no source |
| Inputs.InputInitializer.Subscribe | RelayBoard/Internals/InputInitializer.cs:35-44 | a null callback gives the empty handle and nothing changes; otherwise the callback is appended and the handle carries it; the wiring is untouched |
| Inputs.InputInitializer.Unsubscribe | RelayBoard/Internals/InputInitializer.cs:40-43 | disposing the handle removes the first occurrence of its callback, once only |
| Inputs.InputInitializer.AddOutput | RelayBoard/Internals/InputInitializer.cs:46-50 | the output is filed under its key unless the key is already present; nothing else changes |
| Inputs.InputInitializer.ClearOutput | RelayBoard/Internals/InputInitializer.cs:56-62 | the mask loses exactly the output's relative bit and is pushed to the source; a null source fails with NullReference and an oversized mask with Argument |
| Inputs.InputInitializer.PushMask | RelayBoard/Internals/InputInitializer.cs:61 | the mask is staged into the source's mask slice (WithMask), or it fails with NullReference or Argument and leaves the arena unchanged |
| Inputs.InputInitializer.RemoveOutput | RelayBoard/Internals/InputInitializer.cs:52-66 | the output is dropped; a built mask loses exactly its bit; the record disposes itself exactly when no output is left |
| Inputs.InputInitializer.RemoveOutputAsWritten | RelayBoard/Internals/InputInitializer.cs:52-66 | the same with the unrebased `mask.Set(output.Index, false)`: ArgumentOutOfRange exactly when that index is outside the mask |
| Inputs.InputInitializer.DisposeIfEmpty | RelayBoard/Internals/InputInitializer.cs:64-65 | the record disposes itself exactly when it has no outputs, and changes nothing otherwise |
| Inputs.InputInitializer.PrepareIndices | RelayBoard/Internals/InputInitializer.cs:68-94 | no outputs: a zero window with the mask kept; otherwise the least window over the outputs' indices, with the mask of exactly those indices |
| Inputs.InputInitializer.Initialize | RelayBoard/Internals/InputInitializer.cs:96-107 | the mask is staged into the producer's slice; the record keeps the producer, is initialized, and lists each of its outputs once |
| Inputs.InputInitializer.CreateRuntime | RelayBoard/Internals/InputInitializer.cs:109-117 | a fresh runtime over the input's source and queue; its batch holds each callback once; it has callbacks exactly when the input has |
| Inputs.InputInitializer.Dispose | RelayBoard/Internals/InputInitializer.cs:128-137 | the mask, outputs and callbacks are cleared, the record is no longer initialized, and the shared queue is reset |
| Inputs.InputInitializer.HasCallbacks | RelayBoard/Internals/InputInitializer.cs:124 | true exactly when some callback is subscribed |
| Outputs.OutputInitializer.constructor | RelayBoard/Internals/OutputInitializer.cs:22-27 | the record has no callbacks, no inputs and no probe |
| Outputs.OutputInitializer.Subscribe | RelayBoard/Internals/OutputInitializer.cs:29-38 | a null callback gives the empty handle; otherwise the callback is appended; the links are untouched |
| Outputs.OutputInitializer.Unsubscribe | RelayBoard/Internals/OutputInitializer.cs:34-37 | disposing the handle removes the first occurrence of its callback, once only |
| Outputs.OutputInitializer.AddInput | RelayBoard/Internals/OutputInitializer.cs:40-45 | the name joins the input set, so HasInput(name) holds, and a present name changes nothing |
| Outputs.OutputInitializer.HasInput | RelayBoard/Internals/OutputInitializer.cs:47-50 | only a record holding some input answers yes, and a name it answers no to is not in its inputs, so removing it leaves them as they are |
| Outputs.OutputInitializer.RemoveInput | RelayBoard/Internals/OutputInitializer.cs:52-58 | the name leaves the set, so HasInput(name) is false; the record disposes itself, losing its callbacks, exactly when no input is left |
| Outputs.OutputInitializer.Inject | RelayBoard/Internals/OutputInitializer.cs:60-63 | the output holds the given probe |
| Outputs.OutputInitializer.Dispose | RelayBoard/Internals/OutputInitializer.cs:65-70 | the callbacks and inputs are cleared; the index and the probe are kept |
| Runtimes.Batch.constructor | RelayBoard/Internals/InputRuntime.cs:9 | a batch is the callback array the runtime enqueues |
| Runtimes.InputRuntime.constructor | RelayBoard/Internals/InputRuntime.cs:15-27 | the runtime subscribes to its input, and it pulses with callbacks exactly when it has some |
| Runtimes.InputRuntime.Pulse | RelayBoard/Internals/InputRuntime.cs:29-32 | the arena becomes the source's OrInto of it; the source's fields are kept |
| Runtimes.InputRuntime.PulseWithCallbacks | RelayBoard/Internals/InputRuntime.cs:34-42 | the same pulse; the batch is appended to the queue unless the slot at insertIdx already holds it, so the queue holds it once |
| Runtimes.InputRuntime.Handle | RelayBoard/Internals/InputRuntime.cs:24-26 | a notification runs the subscribed handler: a plain pulse, or the pulse with enqueueing when the runtime has callbacks |
| Runtimes.InputRuntime.Dispose | RelayBoard/Internals/InputRuntime.cs:46-49 | the runtime is no longer subscribed to its input |
| Layout.Ceiling | RelayBoard/RelayBoard.cs:242-245 | the least multiple of qo strictly above the value; a multiple gets a whole extra qo |
| Layout.FlagsSize | RelayBoard/RelayBoard.cs:75 | the flag region is a whole number of uints, above the truncated byte count of the outputs |
| Layout.PlanPartition | RelayBoard/RelayBoard.cs:75-104 | sources, flags, masks and probes lie back to back, each of its own size, and the last ends at the total size |
| Layout.MaskSlices | RelayBoard/RelayBoard.cs:176-184 | the mask slices lie in input order inside the mask region and do not overlap |
| Layout.MaskSliceInRegion | RelayBoard/RelayBoard.cs:103-104 | every mask slice, the last included, ends no later than the probe region starts |
| Layout.ProbeSlot | RelayBoard/RelayBoard.cs:154-164 | output idx's probe slot lies in the probe region; its flag byte and the uint that SetOff rewrites lie in the arena |
| Layout.SpansUnique | RelayBoard/Internals/InputInitializer.cs:82-86 | an input's window over its outputs' flags is unique, and at least one byte long |
| Layout.SpanBounds | RelayBoard/Internals/InputInitializer.cs:82-86 | a window over outputs below the output count lies in the flag region, fits a ushort, and fits the four-word staging buffer |
| Layout.PulseSetsConnected | RelayBoard/Internals/PulseSource.cs:43-52 | ORing a staged mask sets flag bit j exactly when it was set already or output j is in the input's set |
| Layout.ProbeOffsetFits | RelayBoard/PulseProbe.cs:97-98 | the offset from a probe back to its flag byte is negative and bounded by the arena size |
| Lazy.ReleaseStep | RelayBoard/Internals/LazyInitializer.cs:19-24 | closing a scope decrements the depth; the rebuild fires, with the depth reset to 0, exactly when no scope is left open |
| Lazy.LazyInitializer.constructor | RelayBoard/Internals/LazyInitializer.cs:11-14 | no scope is open |
| Lazy.LazyInitializer.Initialize | RelayBoard/Internals/LazyInitializer.cs:16-25 | a scope is opened: the depth grows by one, and the handle closes this initializer's scope |
| Lazy.LazyInitializer.Release | RelayBoard/Internals/LazyInitializer.cs:19-24 | the first disposal of a handle closes its scope (ReleaseStep); later disposals change nothing |
| Lazy.LazyInitializer.ForceInitialize | RelayBoard/Internals/LazyInitializer.cs:27-30 | the rebuild always fires |
| Lazy.RunAppend | RelayBoard/Internals/LazyInitializer.cs:16-25 | running two event sequences one after the other adds up their rebuilds |
| Lazy.ScopeRun | RelayBoard/Internals/LazyInitializer.cs:16-25 | a well-nested scope returns to its starting depth and rebuilds once exactly when it is outermost |
| Lazy.ScopesRun | RelayBoard/Internals/LazyInitializer.cs:16-25 | scopes nested inside an open scope never rebuild |
| Lists.NoRepeatsIff | RelayBoard/Internals/InputInitializer.cs:111-112 | the recursive no-repeat test and index-wise distinctness agree |
| Lists.ElementsCount | RelayBoard/Internals/InputInitializer.cs:111-112 | a list has no duplicates exactly when its element set is as large as the list |
| Lists.RemoveFirst | RelayBoard/Internals/InputInitializer.cs:42 | `List.Remove`: without the item the list is unchanged; otherwise one occurrence is gone (multiset difference) |
| Lists.Distinct | RelayBoard/Internals/InputInitializer.cs:111-112 | LINQ `Distinct`: no duplicates, the same members, no longer than the input |
| Lists.Enumerate | RelayBoard/RelayBoard.cs:132 | a dictionary's enumeration lists every key once, in an order left open |
| Metrics.PulseMetrics.constructor | RelayBoard/Internals/PulseMetrics.cs:20-24 | the metrics hold the sender table and no senders |
| Metrics.PulseMetrics.GetLastTicks | RelayBoard/Internals/PulseMetrics.cs:26-32 | the largest tick count of the senders, or MinValue ticks (0) when there is none; it is reached by a sender or is the minimum |
| Metrics.PulseMetrics.AddSender | RelayBoard/Internals/PulseMetrics.cs:34-38 | the sender is stored in the next slot and the count grows by one |
| Probes.MaskCode | RelayBoard/PulseProbe.cs:67-95 | the switch over the mask: a code c < 8 with 2^c == mask, or none for any other mask |
| Probes.MaskCodeComplete | RelayBoard/PulseProbe.cs:67-95 | every single-bit byte mask 2^c has the code c |
| Probes.EncodeRoundTrip | RelayBoard/PulseProbe.cs:100-129 | an encoded word fits 32 bits, and decoding it gives back the mask and the flag address |
| Probes.DecodeEncode | RelayBoard/PulseProbe.cs:118-129 | every word except "minus zero" is the encoding of its own decoded code and offset |
| Probes.MaskOfSingleBit | RelayBoard/PulseProbe.cs:126-129 | GetMask of any word is a single-bit mask whose code is the top three bits |
| Probes.NegativeIsBit28 | RelayBoard/PulseProbe.cs:120 | the sign test on SIGN_OFFSET_MASK is bit 28 of the word |
| Probes.AssembledRoundTrip | RelayBoard/PulseProbe.cs:97-104 | the ORs of lines 100-101 equal the encoding exactly when the offset fits 28 bits; the final check passes exactly then |
| Probes.AssembledMisses | RelayBoard/PulseProbe.cs:97-104 | an offset past 28 bits that the guard admits assembles a word whose mask or flag address is wrong |
| Probes.BitMaskIsPow2 | RelayBoard/RelayBoard.cs:160 | `1 << (idx % 8)` is the single-bit mask 2^(idx % 8) |
| Probes.MaskTestIsBit | RelayBoard/PulseProbe.cs:55-63 | IsOn's test `(mask & flags) == mask` is the flag bit of the probe's code |
| Probes.ClearOnlyBit | RelayBoard/PulseProbe.cs:111-115 | `flags & ~mask` clears the probe's bit and keeps the others |
| Probes.PulseProbe.constructor | RelayBoard/PulseProbe.cs:49-50 | a probe slot at a given address, holding the word 0 |
| Probes.PulseProbe.Initialize | RelayBoard/PulseProbe.cs:65-105 | Pass exactly for a single-bit mask and an offset within 28 bits, with the word decoding back to the mask and flags; ArgumentOutOfRange for a bad mask or an offset of OFFSET_MASK + 4 or more; InvalidData otherwise |
| Probes.PulseProbe.SetOff | RelayBoard/PulseProbe.cs:111-115 | only the probe's flag byte changes, losing only the probe's bit, so the probe is off afterwards |
| Probes.PulseProbe.IsOn | RelayBoard/PulseProbe.cs:55-63 | the probe is on exactly when its own flag bit (the bit of its mask code) is set in its flag byte |
| Probes.PulseProbe.GetFlags | RelayBoard/PulseProbe.cs:117-123 | the flag byte lies within OFFSET_MASK bytes of the probe, and below it only when the sign bit is set |
| Probes.PulseProbe.GetMask | RelayBoard/PulseProbe.cs:125-129 | a single-bit mask, the bit named by the word's top three bits |
| Probes.SetOffClearsOnlyTarget | RelayBoard/PulseProbe.cs:111-115 | SetOff clears the target bit, keeps the other seven, and a second SetOff changes nothing |
| Sources.OrIntoBits | RelayBoard/Internals/PulseSource.cs:43-52 | after a pulse, a flag bit in the window is set exactly when it was set or the mask bit is set |
| Sources.OrIntoNeverClears | RelayBoard/Internals/PulseSource.cs:40-43 | a pulse never clears a bit anywhere in the arena |
| Sources.OrIntoFrame | RelayBoard/Internals/PulseSource.cs:43-52 | a pulse changes only the bytes of its flag window |
| Sources.OrIntoKeepsMask | RelayBoard/Internals/PulseSource.cs:43-52 | a pulse leaves its mask slice as it was |
| Sources.OrIntoIdempotent | RelayBoard/Internals/PulseSource.cs:43-52 | pulsing twice is pulsing once |
| Sources.LoadOr | RelayBoard/Internals/PulseSource.cs:47 | the 64-bit OR of two little-endian words is the bytewise OR |
| Sources.OrWord | RelayBoard/Internals/PulseSource.cs:47 | the 64-bit `|=` ORs the eight mask bytes into the eight flag bytes and leaves the rest |
| Sources.WithMask | RelayBoard/Internals/PulseSource.cs:26-38 | UpdateMask's copy of the staged mask changes only the mask slice |
| Sources.StagedByteBits | RelayBoard/Internals/PulseSource.cs:28-29 | `BitArray.CopyTo` puts mask bit 8i+k at bit k of staged byte i, and zero past the mask |
| Sources.PulseSource.constructor | RelayBoard/Internals/PulseSource.cs:8-13 | a zeroed source record |
| Sources.PulseSource.Initialize | RelayBoard/Internals/PulseSource.cs:15-24 | more than ushort.MaxValue mask bytes fail with ArgumentOutOfRange and change nothing; otherwise the fields are stored, with the length cast to a ushort |
| Sources.PulseSource.UpdateMask | RelayBoard/Internals/PulseSource.cs:26-38 | the arena becomes WithMask of the staged mask over the source's slice |
| Sources.PulseSource.Pulse | RelayBoard/Internals/PulseSource.cs:43-52 | the word loop and the byte loop together give OrInto over the whole mask; the index ends at the mask length |
| Sources.WordStep | RelayBoard/Internals/PulseSource.cs:45-48 | one 64-bit OR at byte j extends the pulse over j bytes to the pulse over j + 8 |
| Sources.ByteStep | RelayBoard/Internals/PulseSource.cs:50-51 | one byte OR at byte j extends the pulse over j bytes to the pulse over j + 1 |
| Sources.WordPass | RelayBoard/Internals/PulseSource.cs:45-48 | one pass of the word loop over the arena: the pulse over j bytes becomes the pulse over j + 8 |
| Sources.BytePass | RelayBoard/Internals/PulseSource.cs:50-51 | one pass of the byte loop over the arena: the pulse over j bytes becomes the pulse over j + 1 |
| Board.DrainedAppend | RelayBoard/RelayBoard.cs:236-238 | draining two runs of batches runs the first, then the second |
| Board.DrainedRuns | RelayBoard/RelayBoard.cs:236-238 | a drained call is a callback of some queued batch, stamped with the Poll time |
| Board.StampedHas | RelayBoard/RelayBoard.cs:238 | one batch's run holds a (callback, time) pair exactly when the time is the Poll time and the callback is in the batch |
| Board.DoubleReleaseAsWritten | RelayBoard/RelayBoard.cs:267-268 | as written, releasing twice frees the same arena twice, so the free log has a duplicate |
| Board.ReleaseOnce | RelayBoard/RelayBoard.cs:261-269 | the corrected release frees an arena once and clears the reference; releasing again changes nothing |
| Board.RoomLeft | RelayBoard/RelayBoard.cs:111 | a queue sized to the runtimes always has a slot for a batch that is not yet in it |
| Board.Alloc | RelayBoard/RelayBoard.cs:90 | a fresh arena of the requested size |
| Board.InstallFlags | RelayBoard/RelayBoard.cs:139-143 | the flag bytes are zeroed and the rest of the arena is kept |
| Board.RelayBoard.constructor | RelayBoard/RelayBoard.cs:23-26 | an empty, uninitialized board with no arena |
| Board.RelayBoard.Initialize | RelayBoard/RelayBoard.cs:59-125 | an initialized board first releases through the kept pointer (Restarted), so an arena already freed is freed again; more than 65535*8 outputs fail with Overflow and leave no live arena; otherwise the arena is planned, and Pass exactly when every probe reaches its flag and every mask fits; Pass leaves the board wired with all flags clear |
| Board.RelayBoard.Relaunch | RelayBoard/RelayBoard.cs:65-112 | Initialize after the release: Overflow past 65535*8 outputs, otherwise the stages; the kept pointer and the free log are untouched |
| Board.RelayBoard.LazyInitialize | RelayBoard/RelayBoard.cs:192-196 | an uninitialized board changes nothing; an initialized one is initialized again, releasing through the kept pointer first (Restarted), and passes exactly when Initialize would |
| Board.RelayBoard.Restart | RelayBoard/RelayBoard.cs:61-63 | an initialized board's runtimes are ended and the arena the kept pointer names is freed (Restarted); the board is marked initialized with no live arena, and the stale-mask condition is kept |
| Board.RelayBoard.DisposeRuntime | RelayBoard/RelayBoard.cs:261-269 | as written: the runtimes are unsubscribed and dropped; the arena the kept pointer names is freed and the pointer kept, so a second call frees it again (ReleaseAsWritten) |
| Board.RelayBoard.EndRuntimes | RelayBoard/RelayBoard.cs:263-265 | the board is uninitialized and every runtime unsubscribed |
| Board.RelayBoard.Build | RelayBoard/RelayBoard.cs:69-112 | the whole of Initialize after the checks: Pass exactly when the probes reach and the masks fit; Pass leaves the board wired and clear |
| Board.RelayBoard.Ready | RelayBoard/RelayBoard.cs:70-107 | indices, plan, zeroed arena and probes: Pass exactly when every probe reaches its flag |
| Board.RelayBoard.Site | RelayBoard/RelayBoard.cs:70-106 | indices, plan and a zeroed arena of the plan's size; the masks are accepted exactly when the stale ones fit |
| Board.RelayBoard.Finish | RelayBoard/RelayBoard.cs:108-112 | a probe failure passes through; otherwise Pass exactly when every mask is accepted, leaving sources, probes and runtimes wired |
| Board.RelayBoard.Lay | RelayBoard/RelayBoard.cs:70-87 | the board is planned, and its masks are accepted exactly when the stale masks fit |
| Board.RelayBoard.PrepareIndices | RelayBoard/RelayBoard.cs:127-137 | the outputs are numbered densely in enumeration order, and every input's window and mask cover its outputs |
| Board.RelayBoard.Measure | RelayBoard/RelayBoard.cs:75-87 | the regions are the plan of the counts and the mask lengths |
| Board.RelayBoard.Arena | RelayBoard/RelayBoard.cs:90-106 | a fresh arena of the total size, with every flag byte zero |
| Board.RelayBoard.InstallProbes | RelayBoard/RelayBoard.cs:107 | Pass exactly when every probe reaches its flag (ArgumentOutOfRange or InvalidData otherwise); Pass leaves every output reading its own bit |
| Board.RelayBoard.Wire | RelayBoard/RelayBoard.cs:108 | Pass exactly when every mask is accepted (ArgumentOutOfRange or Argument otherwise); Pass leaves every source wired with the flags clear |
| Board.RelayBoard.Install | RelayBoard/RelayBoard.cs:169-190 | every input in enumeration order gets its source over its window and mask slice, or the first refused mask fails |
| Board.RelayBoard.Launch | RelayBoard/RelayBoard.cs:110-112 | one runtime per input and an empty queue with one slot per runtime |
| Board.RelayBoard.AssignIndices | RelayBoard/RelayBoard.cs:131-133 | the output listed t-th gets index t |
| Board.RelayBoard.PrepareInputs | RelayBoard/RelayBoard.cs:135-136 | every input is prepared over its outputs' indices, and an input without outputs keeps its mask |
| Board.RelayBoard.MaskLengths | RelayBoard/RelayBoard.cs:85 | the mask lengths of the inputs, in enumeration order |
| Board.RelayBoard.Connect | RelayBoard/RelayBoard.cs:28-46 | a null end gives null and changes nothing; otherwise the named records are found or created; a connector already filed under the key is returned unchanged; a new one records the edge on both ends and is filed when the forced rebuild passes |
| Board.RelayBoard.ConnectNamed | RelayBoard/RelayBoard.cs:32-45 | the same for two names |
| Board.RelayBoard.Register | RelayBoard/RelayBoard.cs:35-39 | the records filed under the two names, each created without links when missing |
| Board.RelayBoard.Hook | RelayBoard/RelayBoard.cs:41-43 | the connector filed under the key is returned, or a new one is attached |
| Board.RelayBoard.Attach | RelayBoard/RelayBoard.cs:43 | a fresh connector records the edge on both ends and is filed when the rebuild passes |
| Board.RelayBoard.Commit | RelayBoard/Internals/RelayConnector.cs:33 | the forced rebuild: an initialized board is initialized again; the connector is filed exactly when that passes |
| Board.RelayBoard.InputFor | RelayBoard/RelayBoard.cs:35-36 | the input record under the name, created without outputs when missing |
| Board.RelayBoard.OutputFor | RelayBoard/RelayBoard.cs:38-39 | the output record under the name, created without inputs when missing |
| Board.RelayBoard.File | RelayBoard/RelayBoard.cs:43 | the connector is filed under its key, and nothing else changes |
| Board.RelayBoard.AddEdge | RelayBoard/Internals/RelayConnector.cs:17-32 | a fresh connector, with the edge recorded on both ends |
| Board.RelayBoard.Poll | RelayBoard/RelayBoard.cs:231-240 | the calls run are the queued batches' callbacks in order, each with the time given; the queue is emptied; an empty queue changes nothing; the wiring is kept |
| Board.RelayBoard.RunQueue | RelayBoard/RelayBoard.cs:236-238 | the outer loop of Poll: the calls run are every queued batch's callbacks, batch after batch in queue order, each with the given time |
| Board.RelayBoard.RunBatch | RelayBoard/RelayBoard.cs:237-238 | the inner loop of Poll: the batch's callbacks run in order, each with the given time |
| Board.RelayBoard.PollRunsSubscribed | RelayBoard/RelayBoard.cs:231-240 | a launched board's queue holds each batch once, and Poll runs only callbacks subscribed on registered inputs |
| Board.RelayBoard.Dispose | RelayBoard/RelayBoard.cs:249-259 | always passes: the records are gone, then the connectors with their subscriptions disposed, and the runtime is released; no connector can fail, the inputs disposed first holding no mask. The log of frees only grows; a live arena is among the freed, each rebuild a connector runs having freed the one before it; when `_globalMemory` was set, at least one free happens and the last one is the block it is left pointing at; a board without connectors frees exactly through the kept pointer (ReleaseAsWritten) |
| Board.RelayBoard.DisposeRegistries | RelayBoard/RelayBoard.cs:251-256 | always passes: the registries of records are empty, then the connectors are gone with their subscriptions dropped; the log of frees only grows and a live arena is either still live or freed; without connectors the arena and the free log are untouched |
| Board.RelayBoard.DisposeRecords | RelayBoard/RelayBoard.cs:251-254 | the input and output registries are empty |
| Board.RelayBoard.DisposeInputs | RelayBoard/RelayBoard.cs:251-252 | every input is disposed and the registry emptied; the outputs are untouched |
| Board.RelayBoard.DisposeOutputs | RelayBoard/RelayBoard.cs:253-254 | every output is disposed and the registry emptied |
| Board.RelayBoard.DropInputs | RelayBoard/RelayBoard.cs:251-252 | every old input is disposed, each unregistering itself; a record that still holds a mask kept it and was not registered; the shared queue is reset |
| Board.RelayBoard.DropInput | RelayBoard/Internals/InputInitializer.cs:128-137 | one input is disposed and unregisters itself |
| Board.RelayBoard.DropOutputs | RelayBoard/RelayBoard.cs:253-254 | every old output loses its inputs and callbacks |
| Board.RelayBoard.InputsBare | RelayBoard/Internals/InputInitializer.cs:128-137 | once the input registry is empty, no input record holds a mask, those at the ends of connectors included: a record leaves the registry only through its Dispose, which empties the mask |
| Board.RelayBoard.DisposeConnectors | RelayBoard/RelayBoard.cs:255-256 | always passes: every connector is disposed and unregistered and every old connector's subscriptions are dropped, as no input left holds a mask; across the rebuilds the log of frees only grows and the arena live at the start is still live or freed; with no connector it touches no arena |
| Board.RelayBoard.DrainOne | RelayBoard/RelayBoard.cs:255 | disposing one more connector passes, keeps the draining invariant and keeps every free logged so far |
| Board.RelayBoard.DropConnector | RelayBoard/Internals/RelayConnector.cs:56-68 | over empty registries the connector always passes, unregisters itself and drops its subscriptions; the rebuild that follows passes too, freeing the live arena if there is one |
| Board.RelayBoard.Rebuild | RelayBoard/RelayBoard.cs:192-196 | the rebuild on a board whose registries are empty passes and keeps the connectors; the log of frees only grows, a live arena is either freed or still live, and a set `_globalMemory` stays set |
| Board.RelayBoard.Disconnect | RelayBoard/Internals/RelayConnector.cs:56-68 | the connector's disposal in its lazy scope over empty registries: it passes and is unregistered, its input holding no mask; the outermost scope fires the rebuild |
| Board.RelayBoard.DisposeConnector | RelayBoard/Internals/RelayConnector.cs:56-68 | disposing a connector on a live board removes its edge from both ends; the output leaves its registry exactly when that input was its last, the input may leave its own, and the connector is unregistered unless its input's mask fails to clear (always when the board is uninitialized and the mask empty); an unrebased clear out of range fails and keeps the connector, its subscriptions and the inputs, and on an uninitialized board it is exactly the ArgumentOutOfRange case; the rebuild then runs, its error wins, and an initialized board that passes is wired with clear flags |
| Board.RelayBoard.Unlink | RelayBoard/Internals/RelayConnector.cs:56-68 | the connector's disposal and the board's callbacks on a live board: the edge leaves both ends, the invariant holds, the call log and the initialized flag are kept, and the rebuild fires; ArgumentOutOfRange exactly when the unrebased clear is out of range, and any failure keeps the connectors, inputs and subscriptions |
| Board.RelayBoard.Detach | RelayBoard/Internals/RelayConnector.cs:58-66 | edge by edge: the output is disposed exactly when the input was its last, each end loses the other, the connector is unregistered exactly on Pass, and an input without a mask always passes; ArgumentOutOfRange exactly when the unrebased clear is out of range, and a failure keeps the inputs and subscriptions |
| Board.RelayBoard.Unlinked | RelayBoard/RelayBoard.cs:47-54 | on a live board, dropping one edge, the ends it leaves bare and the connector keeps the board's invariant |
| Board.RelayBoard.EdgesUnlinked | RelayBoard/RelayBoard.cs:47-51 | removing one edge from both of its ends, and an end left bare from its registry, keeps every edge recorded on both ends |
| Board.RelayBoard.Settle | RelayBoard/RelayBoard.cs:192-196 | the rebuild as a scope closes after an earlier outcome: an uninitialized board keeps that outcome and its runtime; an initialized one passes exactly when the earlier outcome passed and Initialize would, and is then wired with clear flags |
| Board.RelayBoard.Subscribe | RelayBoard/Internals/RelayConnector.cs:36-52 | the callback is appended to the connector's input and the subscription kept, and the board's rebuild runs as the scope closes: an uninitialized board gets no runtime; an initialized one passes exactly when Initialize would, and is then wired with clear flags |
| Board.RelayBoard.Join | RelayBoard/Internals/RelayConnector.cs:38-42 | the connector's half of Subscribe: the new subscription joins the board's footprint, the invariant holds and the rebuild fires |
| Board.RelayBoard.Unsubscribe | RelayBoard/Internals/RelayConnector.cs:43-50 | the first disposal of the handle removes the callback and the subscription, then the board's rebuild runs as the scope closes; a later disposal changes nothing and does not rebuild |
| Board.RelayBoard.Leave | RelayBoard/Internals/RelayConnector.cs:45-49 | the connector's half of Unsubscribe: one occurrence of the subscription and its callback go, the invariant holds, and the rebuild fires only on the first disposal |
| Board.RelayBoard.Resubscribed | RelayBoard/Internals/RelayConnector.cs:36-50 | changing a connector's subscriptions and its input's callbacks, with every scope closed, keeps the board's invariant and the stale-mask condition |
| Board.RelayBoard.SubscribedQueues | RelayBoard/Internals/InputInitializer.cs:111-116 | on a launched board, a callback of a registered input is in the batch of that input's runtime, which queues its batch on a pulse |
| Board.RelayBoard.Deregister | RelayBoard/RelayBoard.cs:48-55 | each self-disposing record leaves its registry, and only those |
| Board.RelayBoard.Clear | RelayBoard/RelayBoard.cs:256-258 | the connectors are cleared and the runtime released through the kept pointer (ReleaseAsWritten), leaving no live arena |
| Board.RelayBoard.GetInputLinks | RelayBoard/RelayBoard.cs:205-212 | the record filed under the input's name, and none for a null input or an unknown name |
| Board.RelayBoard.GetOutputLinks | RelayBoard/RelayBoard.cs:214-221 | the record filed under the output's name, and none for a null output or an unknown name |
| Board.RelayBoard.HasCallback | RelayBoard/RelayBoard.cs:223-229 | true exactly for a named input registered under its key whose record holds some callback |
| Board.RelayBoard.HasCallbackQueues | RelayBoard/RelayBoard.cs:223-229 | on a launched board, an input's runtime enqueues batches exactly when HasCallback holds for it |
| Board.RelayBoard.PulseRaisesOutputs | RelayBoard/Internals/PulseSource.cs:43-52 | on a wired board, notifying an input sets flag bit j exactly when it was set or output j is one of the input's outputs |
| Board.RelayBoard.UnwiredStaysLow | Tests/RelayBoard.Tests/RelayBoardTests.cs:482-487 | on a wired board, notifying an input leaves the flag bit of every output not wired to it as it was: once `c2` is disposed, notifying `I1` no longer raises `O2` |
| Board.ConnectCollides | RelayBoard/RelayBoard.cs:41 | connecting ("a-b", "c") and then ("a", "b-c") returns the first connector again, and no edge a -> b-c exists |
| Board.DisposedTwice | RelayBoard/RelayBoard.cs:249-269 | an initialized board without records, disposed twice: both calls pass and the arena appears twice in the free log |
| Board.InitializedEmpty | RelayBoard/RelayBoard.cs:59-125 | a new board, initialized: it passes, and the live arena is its only one, not yet freed |
| Board.WiredAB | RelayBoard/RelayBoard.cs:35-43 | a new board on which Register and Attach wire input "a-b" to output "c", filed under the key as written |
| Board.PulseMissesUnlinked | RelayBoard/Internals/PulseSource.cs:43-52 | where a pulse raises exactly the flags of the input's outputs, the flag of an index none of them has is kept |
| Board.PulseOfWired | RelayBoard/RelayBoard.cs:176-186 | a source wired by InstallPulseSources raises exactly the flags of its input's outputs |
| Board.InOrder | RelayBoard/RelayBoard.cs:132 | the records of a registry, in the order of its listing |
| Board.Listed | RelayBoard/RelayBoard.cs:132 | a listing holds every record once |
| Board.LaidOut | RelayBoard/RelayBoard.cs:70-87 | every input's window lies in the flag region over its outputs; the masks are accepted exactly when the stale ones fit |
| Board.LaidFromPrepared | RelayBoard/Internals/InputInitializer.cs:68-94 | a prepared input is laid out, and its mask is accepted when it has outputs |
| Board.PrepareListed | RelayBoard/RelayBoard.cs:135-136 | every input is prepared, and those without outputs keep their masks |
| Board.NumberListed | RelayBoard/RelayBoard.cs:131-133 | the outputs are numbered densely in the listing's order |
| Board.Number | RelayBoard/RelayBoard.cs:131-133 | record t gets index t |
| Board.PrepareAll | RelayBoard/RelayBoard.cs:135-136 | every record is prepared |
| Board.PrepareOne | RelayBoard/Internals/InputInitializer.cs:68-94 | one input's window and mask over its outputs' indices |
| Board.IndicesOfAll | RelayBoard/Internals/InputInitializer.cs:76 | the output indices of every input, in order |
| Board.ProbeCode | RelayBoard/PulseProbe.cs:126-129 | a probe whose mask is 2^c holds the code c |
| Board.NewConnector | RelayBoard/Internals/RelayConnector.cs:17-34 | a fresh connector with the edge recorded on both ends and the rest of both records kept |
| Board.ProbeOutputs | RelayBoard/RelayBoard.cs:145-167 | Pass exactly when every probe reaches its flag; then the output listed t-th reads bit t % 8 of flag byte t / 8 |
| Board.WireListed | RelayBoard/RelayBoard.cs:169-190 | the inputs in enumeration order: Pass exactly when every mask is accepted, and every source is then wired over its window and slice |
| Board.WirePooled | RelayBoard/RelayBoard.cs:169-190 | WireSources over records drawn from a pool: the same outcome and wiring, and every record outside the list keeps its source and arena |
| Board.InstallPulseProbes | RelayBoard/RelayBoard.cs:145-167 | the probe in slot t reads bit t % 8 of flag byte t / 8 and is injected into output t; Pass exactly when every probe reaches its flag |
| Board.Renew | RelayBoard/RelayBoard.cs:111-112 | the queue gets a fresh, empty array of the requested capacity |
| Board.CreateRuntimes | RelayBoard/RelayBoard.cs:110 | one fresh runtime per input, over its source and queue, with its callbacks once each; no batch is shared |
| Board.IndicesEmpty | RelayBoard/Internals/InputInitializer.cs:72 | an input has no output indices exactly when it has no outputs |
| Connectors.KeyAsWritten | RelayBoard/RelayBoard.cs:41 | the key `iKey + "-" + oKey`, with the dash right after the input name |
| Connectors.KeyAsWrittenCollides | RelayBoard/RelayBoard.cs:41 | two different name pairs, ("a-b", "c") and ("a", "b-c"), share a key |
| Connectors.Escape | RelayBoard/RelayBoard.cs:41 | escaping never shortens a name and keeps a name without dash or backslash as it is |
| Connectors.SplitKeyRoundTrip | RelayBoard/RelayBoard.cs:41 | the corrected, escaped key splits back into its two names |
| Connectors.KeyInjective | RelayBoard/RelayBoard.cs:41 | two name pairs share a corrected key exactly when they are equal |
| Connectors.RemoveEach | RelayBoard/Internals/RelayConnector.cs:63 | disposing the subscriptions removes each one's callback in turn |
| Connectors.RemoveEachSnoc | RelayBoard/Internals/RelayConnector.cs:63 | disposing one more subscription removes one more callback |
| Connectors.RelayConnector.constructor | RelayBoard/Internals/RelayConnector.cs:17-34 | the edge is recorded on both ends; the rest of both records is kept |
| Connectors.RelayConnector.Subscribe | RelayBoard/Internals/RelayConnector.cs:36-52 | inside a lazy scope: the callback is subscribed on the input and the subscription kept; the rebuild fires exactly when the scope is outermost |
| Connectors.RelayConnector.Unsubscribe | RelayBoard/Internals/RelayConnector.cs:43-50 | inside a lazy scope: the subscription is disposed and forgotten, once only |
| Connectors.RelayConnector.Dispose | RelayBoard/Internals/RelayConnector.cs:56-68 | inside a lazy scope: both ends drop the edge; the input's mask is cleared at the unrebased index (ClearAsWritten), failing with ArgumentOutOfRange exactly when that index is outside a built mask, with the mask kept and no self-disposal; on Pass every subscription is disposed and the list cleared |
| Connectors.RelayConnector.DisposeAll | RelayBoard/Internals/RelayConnector.cs:63-64 | every subscription is disposed in order and the list cleared |
| Connectors.UnsubscribeEach | RelayBoard/Internals/RelayConnector.cs:63 | each subscription is disposed in list order: every one ends with no payload, and the input loses one occurrence of each pending callback (RemoveEach); its wiring is kept |
| Connectors.RemoveFirstKeepsDistinct | RelayBoard/Internals/InputInitializer.cs:42 | removing a callback from a duplicate-free list keeps it duplicate-free and drops that callback |
| Wiring.ListingDistinct | RelayBoard/RelayBoard.cs:132 | a listing of a registry has no duplicates |
| Wiring.DenseIndex | RelayBoard/RelayBoard.cs:131-133 | under dense numbering, an output's index locates it in the listing |
| Wiring.Linked | RelayBoard/Internals/InputInitializer.cs:92-93 | the listing positions of a set of output names |
| Wiring.IndicesLinked | RelayBoard/Internals/InputInitializer.cs:92-93 | under dense numbering, an input's output indices are the listing positions of its outputs |
| Wiring.InstallSource | RelayBoard/RelayBoard.cs:180-186 | one input's source: Pass exactly when its mask is accepted, staging it into the input's slice |
| Wiring.InstallPulseSources | RelayBoard/RelayBoard.cs:169-190 | Pass exactly when every input's mask is accepted; then every slice holds its staged mask |
| Wiring.AllWired | RelayBoard/RelayBoard.cs:169-190 | after installation, every input is wired over its window and slice, and the bytes before the masks are kept |
| Wiring.WireSources | RelayBoard/RelayBoard.cs:169-190 | the whole installation: Pass exactly when every mask is accepted, with every source then wired |
| Tools.AppendedAt | RelayBoard/Tools.cs:16-22 | character 7i+k of the unreversed text is the bit of byte i under the k-th mask the loop reads |
| Tools.SerializeBits | RelayBoard/Tools.cs:11-26 | the reversed text of 7 characters per byte, all '0' or '1', each telling its bit |
| Tools.Bit40Ignored | RelayBoard/Tools.cs:16-22 | bytes that differ only in bit 0x40 serialize the same |
| Tools.AppendedAllAt | RelayBoard/Tools.cs:16-22 | corrected: character 8i+k is bit k of byte i |
| Tools.SerializeAllBits | RelayBoard/Tools.cs:11-26 | the corrected serializer yields the reversed text of all eight bits per byte |
| Tools.AllBitsDetermineBytes | RelayBoard/Tools.cs:11-26 | the corrected text determines the bytes |
| Tools.SerializeBitArray | RelayBoard/Tools.cs:28-34 | one character per bit, '1' exactly for set bits |

## Left out

- `PulseSource` and `PulseProbe` are Dafny objects outside the arena. The arena reserves only
  their sizes (16 and 4 bytes, as in a 64-bit process). Their own bytes are not modelled.
- A `PulseProbe` can never overwrite a neighbour's word, because its word is not in the arena.
- Callbacks (`Action<DateTime>`) are opaque `nat` identities. Running a callback is recorded
  in the board's `calls` log with the time it was given.
- `IRelayInput.Subscribe` is reduced to the runtime's `subscribed` flag. The input's own event
  mechanism is not part of this model.
- `Runtimes.InputRuntime.Handle` stands for the input raising its event.
- Disposables.AnonymousDisposable.Empty: makes a new handle on each call, where the source
  shares one static instance. Every such handle has no action, so they behave alike; only
  reference equality between them is not modelled.
- Closures are modelled as payloads. A disposable hands back its payload and the owner runs the
  body. The lazy rebuild is the `fire` flag that `LazyInitializer.Release`,
  `RelayConnector.Subscribe`, `Unsubscribe` and `Dispose` return.
- Board.RelayBoard.Unsubscribe: takes the connector next to the handle, because the closure
  that captures it is a payload here. It requires that the handle is not one of the board's
  own objects, which holds for every handle `Subscribe` returns.
- Board.RelayBoard.Subscribe: does not restate that the handle carries the callback.
  `Connectors.RelayConnector.Subscribe` states it.
- Board.RelayBoard.DisposeConnector: requires both ends of the connector to be the records
  registered under their names. A connector left filed after a failed disposal can outlive an
  end that was dropped, and disposing it again is not modelled at board level.
- Board.RelayBoard.DisposeConnector: states which registry entries can go, not the exact input
  registry. The input leaves it exactly when its disposal passes with no output left;
  `Connectors.RelayConnector.Dispose` states that.
- The order of `Dictionary` enumeration is left open. `Lists.Enumerate` returns some listing of
  the keys, and every contract holds for every listing.
- `OrderBy(p => p.Target)` in `CreateRuntime` is dropped. The batch holds the distinct
  callbacks in an order left open.
- Inputs.InputInitializer.CreateRuntime: the contract fixes the batch's members, not their order.
- Ticks are an abstract function (`lastTicks`), passed to `Metrics.PulseMetrics.GetLastTicks`.
  `PulseSource` has no `LastTicks` field to read them from.
- `PulseMetrics` is not used by the board. `OutputInitializer.PulseMetricsSize` is not modelled.
- Metrics.PulseMetrics.AddSender: requires a free slot. The engine writes past its table
  without a check.
- `Report()` and the `_reports` text are not modelled. They are diagnostic text only.
- `PulseSource.ToString` and `PulseProbe.ToString` are not modelled. They are diagnostic text
  only, built on `SerializeBits`.
- `IRelayOutput.Inject` is modelled as the output record holding the probe. What the user's
  output does with the probe is not part of this model.
- `IInputLinks.Outputs` (the array of `IRelayOutput`) is modelled as the list of output names.
- Runtimes.InputRuntime.PulseWithCallbacks: requires a free queue slot for a new batch. The
  board guarantees one (`Board.RoomLeft`). The model does not grow the queue there.
- Sources.PulseSource.UpdateMask: requires that the mask fits the staging buffer. The
  `ArgumentException` of `BitArray.CopyTo` is modelled one level up, in
  `Inputs.InputInitializer.PushMask`.
- Board.RelayBoard.DisposeConnectors: disposes the connectors in an order left open.
- Board.RelayBoard.HasCallbackQueues: requires only that the board is launched and listed,
  not fully wired, to keep the proof small.
- The arena is an `array<bv8>`, not an address. Addresses are offsets into it. The 28-bit probe
  offset is checked against these offsets.
- `Marshal.AllocHGlobal` always succeeds. `Marshal.FreeHGlobal` is recorded in the board's
  `freed` log.
- Buffers.ArrayEx.EnsureCapacity: after a failed Add it requires a capacity above 0. From
  capacity 0 the engine's doubling loop never ends.
- `int` overflow of the size sums is not modelled, because the output count is bounded.
- Concurrency is not modelled, and neither is thread safety, which the engine does not offer.

## Findings

| source | as written | input that shows it | evidently intended | confidence | as-written member | corrected member |
|---|---|---|---|---|---|---|
| RelayBoard/RelayBoard.cs:41 | the connector key is `iKey + "-" + oKey` | connect ("a-b", "c"), then ("a", "b-c"): the second call returns the first connector, and no edge a -> b-c is made | one connector per (input, output) pair | not executed | Board.ConnectCollides | Connectors.KeyInjective |
| RelayBoard/Internals/InputInitializer.cs:59 | `mask.Set(output.Index, false)` clears the absolute index in a mask relative to byte FlagsOffset | an input wired only to output 8 (FlagsOffset 1, 8-bit mask) raises ArgumentOutOfRange; an input wired to outputs 8 and 20 keeps output 8's bit | clear bit `output.Index - 8 * FlagsOffset` | not executed | Inputs.ClearAsWrittenCounterexample | Inputs.ClearRelativeRemoves |
| RelayBoard/RelayBoard.cs:267-268 | `_globalMemory` is not reset after `FreeHGlobal` | call Dispose twice on an initialized board: the same arena is freed twice | free once and reset the pointer | not executed | Board.DisposedTwice | Board.ReleaseOnce |
| RelayBoard/Core/ArrayEx.cs:55-65 | when full, the growth loop `while (_capacity < _index)` never runs, so Add writes past the end | `new ArrayEx<int>(1)`, then Add(1) and Add(2): the second Add raises IndexOutOfRange | grow the buffer before writing | not executed | Buffers.FullAddFails | Buffers.ArrayEx.Add |
| RelayBoard/Tools.cs:16-22 | bit 0x40 is never read, so each byte yields 7 characters | bytes [0x00] and [0x40] both serialize to "0000000" | all eight bits of each byte | not executed | Tools.Bit40Ignored | Tools.AllBitsDetermineBytes |
