/**
 * How Initialize wires the inputs into the arena: the numbering of the outputs, the windows
 * PrepareIndices lays out, and InstallPulseSources, which gives every input a pulse source
 * over its window and copies its mask into its slice of the mask region.
 */
module Wiring {
  import opened Wrappers
  import opened Lists
  import opened Bytes
  import opened Sources
  import opened Layout
  import opened Outputs
  import opened Inputs
  /* ---- Enumeration and numbering ---- */

  /**
   * `order` lists each key of `keys` exactly once: a dictionary's enumeration order. As many
   * entries as keys, each key among them, leave no room for a repeated entry (ListingDistinct).
   */
  ghost predicate Listing(order: seq<string>, keys: set<string>)
  {
    |order| == |keys| && Elements(order) == keys
  }

  /** A listing names no key twice. */
  lemma ListingDistinct(order: seq<string>, keys: set<string>)
    requires Listing(order, keys)
    ensures NoDuplicates(order)
  {
    assert Elements(order) == keys;
    ElementsCount(order);
  }

  /** The numbering PrepareIndices gives: the output listed t-th has index t. */
  ghost predicate Dense(outputs: map<string, OutputInitializer>, order: seq<string>)
    reads outputs.Values`index
  {
    && Listing(order, outputs.Keys)
    && forall t | 0 <= t < |order| :: outputs[order[t]].index == t
  }

  /** Under the numbering, an output's index is its position in the listing. */
  lemma DenseIndex(outputs: map<string, OutputInitializer>, order: seq<string>, o: string)
    requires Dense(outputs, order) && o in outputs
    ensures 0 <= outputs[o].index < |order| && order[outputs[o].index] == o
  {
    var t :| 0 <= t < |order| && order[t] == o;
  }

  /** The flags an input wired to the outputs `names` raises: the places of those outputs in the listing. */
  function Linked(names: set<string>, order: seq<string>): (links: set<int>)
    ensures forall j | j in links :: 0 <= j < |order| && order[j] in names
  {
    set t | 0 <= t < |order| && order[t] in names
  }

  /**
   * Under the numbering, the indices of an input's outputs, which are registered outputs, are
   * the flags Linked gives for their names.
   */
  lemma IndicesLinked(links: map<string, OutputInitializer>, outputs: map<string, OutputInitializer>, order: seq<string>)
    requires Dense(outputs, order)
    requires forall o | o in links :: o in outputs && links[o] == outputs[o]
    ensures IndicesOf(links) == Linked(links.Keys, order)
  {
    forall j | j in IndicesOf(links)
      ensures j in Linked(links.Keys, order)
    {
      var o :| o in links && links[o].index as int == j;
      DenseIndex(outputs, order, o);
    }
    forall j | j in Linked(links.Keys, order)
      ensures j in IndicesOf(links)
    {
      assert links[order[j]].index as int == j;
    }
  }

  /* ---- Windows and placement ---- */

  /**
   * What PrepareIndices leaves in an input, on values: the window (fo, ml) lies in the flag
   * region starting at flagsAt and ending by masksAt, holds every flag of links, and when it is
   * not empty the mask is the relative mask of links.
   */
  predicate Staged(links: set<int>, fo: int, ml: int, mask: seq<bool>, flagsAt: int, masksAt: int)
  {
    && 0 <= fo && 0 <= ml && flagsAt + fo + ml <= masksAt
    && InWindow(links, fo, ml)
    && (ml > 0 ==> mask == MaskBits(links, fo, ml))
  }

  /** Staged, for an input and the flags of the outputs it is linked to. */
  ghost predicate Laid(input: InputInitializer, order: seq<string>, flagsAt: int, masksAt: int)
    reads input`outputs, input`flagsOffset, input`maskLength, input`mask
  {
    Staged(Linked(input.outputs.Keys, order), input.flagsOffset, input.maskLength, input.mask, flagsAt, masksAt)
  }

  /** A source record's flag offset, mask offset and mask length. */
  ghost function Fields(src: PulseSource): (int, int, int)
    reads src
  {
    (src.flags, src.maskOffset, src.maskLength)
  }

  /**
   * A source with the fields `at` placed for the window (fo, ml) of links in the arena bytes s:
   * it covers the window in the flag region starting at flagsAt and the mask slice at maskAt,
   * past masksAt, and the slice holds the staged relative mask of links.
   */
  predicate Placed(at: (int, int, int), links: set<int>, fo: int, ml: int, s: seq<bv8>,
                   flagsAt: int, masksAt: int, maskAt: int)
  {
    && at.0 == flagsAt + fo && at.2 == ml && at.0 + at.1 == maskAt
    && 0 <= fo && 0 <= ml && flagsAt + fo + ml <= masksAt <= maskAt && 0 <= maskAt && maskAt + ml <= |s|
    && InWindow(links, fo, ml)
    && forall i | 0 <= i < ml :: s[maskAt + i] == StagedByte(MaskBits(links, fo, ml), i)
  }

  /** An input wired into the arena bytes s through its source record `src`. */
  ghost predicate SourceWired(input: InputInitializer, src: PulseSource, order: seq<string>,
                              s: seq<bv8>, flagsAt: int, masksAt: int, maskAt: int)
    reads input, src
  {
    && input.source == src
    && src.Valid() && src.Fits(|s|)
    && Placed(Fields(src), Linked(input.outputs.Keys, order), input.flagsOffset, input.maskLength, s, flagsAt, masksAt, maskAt)
  }

  /* ---- Installing the pulse sources ---- */

  /** The checks a source and its staging buffer make on an input's mask length and mask. */
  predicate Accepts(maskLength: int, mask: seq<bool>)
  {
    maskLength <= USHORT_MAX && |mask| <= 32 * (maskLength / 4 + 4)
  }

  /** A source installed for an input: the input keeps it and the arena, and it points at `at`. */
  ghost predicate Installed(input: InputInitializer, src: PulseSource, block: array<bv8>, at: (int, int, int))
    reads input`source, input`arena, src
  {
    input.source == src && input.arena == block && src.Valid() && src.Fits(block.Length) && Fields(src) == at
  }

  /**
   * The flag pointer, mask offset and mask length a source gets for the input window w
   * (flag offset, mask length, mask) whose mask slice starts at maskAt: the mask offset is
   * taken from the source's own flag pointer.
   */
  function Slot(plan: Regions, w: (int, int, seq<bool>), maskAt: int): (int, int, int)
  {
    (plan.flags + w.0, maskAt - plan.flags - w.0, w.1)
  }

  /**
   * One step of InstallPulseSources: a fresh source over the input's window w of the flag
   * region and over the mask slice at maskAt, after which the input copies its mask into the
   * slice. The input's links, callbacks and window stay as they are, and so do the windows
   * and layout of the other records.
   */
  method InstallSource(input: InputInitializer, block: array<bv8>, plan: Regions, maskAt: int,
                       ghost w: (int, int, seq<bool>), ghost records: seq<InputInitializer>,
                       ghost windows: seq<(int, int, seq<bool>)>, ghost order: seq<string>)
    returns (r: Outcome, src: PulseSource)
    requires w == (input.flagsOffset, input.maskLength, input.mask)
    requires Windowed(records, windows) && AllLaid(records, order, plan.flags, plan.masks)
    requires 0 <= w.0 && 0 <= w.1
    requires plan.flags + w.0 + w.1 <= plan.masks <= maskAt
    requires maskAt + w.1 <= block.Length
    modifies input`source, input`arena, input`linked, input`isInitialized, block
    ensures fresh(src)
    ensures Windowed(records, windows) && AllLaid(records, order, plan.flags, plan.masks)
    ensures r.Pass? <==> Accepts(w.1, w.2)
    ensures r.Fail? ==>
      && r.error == (if w.1 > USHORT_MAX then ArgumentOutOfRange else Argument)
      && unchanged(input) && unchanged(block)
    ensures r.Pass? ==>
      && Installed(input, src, block, Slot(plan, w, maskAt))
      && block[..] == WithMask(old(block[..]), maskAt, w.1, w.2)
  {
    src := new PulseSource();
    r := src.Initialize(plan.flags + input.flagsOffset, maskAt - plan.flags - input.flagsOffset, input.maskLength);
    if r.Fail? {
      return;
    }
    if |input.mask| > 32 * (src.maskLength / 4 + 4) {
      r := Fail(Argument);
      return;
    }
    input.Initialize(src, block);
  }

  /** The arena bytes s once the masks of the first n windows are copied, the u-th at starts[u]. */
  ghost function MasksCopied(s: seq<bv8>, windows: seq<(int, int, seq<bool>)>, starts: seq<int>, n: nat): (r: seq<bv8>)
    requires n <= |windows| && n <= |starts|
    ensures |r| == |s|
  {
    if n == 0 then s
    else WithMask(MasksCopied(s, windows, starts, n - 1), starts[n - 1], windows[n - 1].1, windows[n - 1].2)
  }

  /**
   * Slice u of the windows starts at starts[u] and ends where slice u + 1 starts, and every
   * slice ends within size bytes.
   */
  ghost predicate Consecutive(starts: seq<int>, windows: seq<(int, int, seq<bool>)>, size: int)
  {
    && |starts| == |windows| + 1
    && forall u | 0 <= u < |windows| ::
      0 <= windows[u].1 && starts[u] + windows[u].1 == starts[u + 1] && starts[u] + windows[u].1 <= size
  }

  /** Consecutive slices never overlap: slice u ends at or before the start of any later one. */
  lemma {:induction false} SlicesGrow(starts: seq<int>, windows: seq<(int, int, seq<bool>)>, size: int, u: nat, w: nat)
    requires Consecutive(starts, windows, size) && u < w <= |windows|
    ensures starts[u] + windows[u].1 <= starts[w]
    decreases w
  {
    if u < w - 1 {
      SlicesGrow(starts, windows, size, u, w - 1);
    }
  }

  /** The ml bytes of s at `at` hold the staged copy of mask. */
  ghost predicate Holds(s: seq<bv8>, at: int, ml: int, mask: seq<bool>)
  {
    0 <= at && at + ml <= |s| && forall j | at <= j < at + ml :: s[j] == StagedByte(mask, j - at)
  }

  /** Once the first n masks are copied, slice u holds the u-th mask. */
  lemma {:induction false} MasksCopiedSlices(s: seq<bv8>, windows: seq<(int, int, seq<bool>)>, starts: seq<int>, n: nat, u: nat,
                                             copied: seq<bv8>)
    requires Consecutive(starts, windows, |s|) && u < n <= |windows| && 0 <= starts[0]
    requires copied == MasksCopied(s, windows, starts, n)
    ensures Holds(copied, starts[u], windows[u].1, windows[u].2)
    decreases n
  {
    if u > 0 {
      SlicesGrow(starts, windows, |s|, 0, u);
    }
    if u < n - 1 {
      MasksCopiedSlices(s, windows, starts, n - 1, u, MasksCopied(s, windows, starts, n - 1));
      SlicesGrow(starts, windows, |s|, u, n - 1);
    }
  }

  /** Copying masks leaves every byte below the first slice as it was. */
  lemma {:induction false} MasksCopiedBelow(s: seq<bv8>, windows: seq<(int, int, seq<bool>)>, starts: seq<int>, n: nat)
    requires Consecutive(starts, windows, |s|) && n <= |windows| && 0 <= starts[0] <= |s|
    ensures MasksCopied(s, windows, starts, n)[..starts[0]] == s[..starts[0]]
    decreases n
  {
    if n > 0 {
      MasksCopiedBelow(s, windows, starts, n - 1);
      if n - 1 > 0 {
        SlicesGrow(starts, windows, |s|, 0, n - 1);
      }
      var prev := MasksCopied(s, windows, starts, n - 1);
      var next := MasksCopied(s, windows, starts, n);
      assert forall i | 0 <= i < starts[0] :: next[i] == prev[i];
      assert next[..starts[0]] == prev[..starts[0]];
    }
  }

  /** The u-th record is numbered u in pos: the records are distinct. */
  ghost predicate Numbered(records: seq<InputInitializer>, pos: map<InputInitializer, int>)
  {
    forall u | 0 <= u < |records| :: records[u] in pos && pos[records[u]] == u
  }

  /** windows holds each record's flag offset, mask length and mask, in the listing. */
  ghost predicate Windowed(records: seq<InputInitializer>, windows: seq<(int, int, seq<bool>)>)
    reads (set i | i in records)`flagsOffset, (set i | i in records)`maskLength, (set i | i in records)`mask
  {
    && |windows| == |records|
    && forall u | 0 <= u < |records| :: windows[u] == (records[u].flagsOffset, records[u].maskLength, records[u].mask)
  }

  /** Every window lies in the flag region starting at flagsAt and ending by masksAt. */
  predicate Fitted(windows: seq<(int, int, seq<bool>)>, flagsAt: int, masksAt: int)
  {
    forall u | 0 <= u < |windows| :: 0 <= windows[u].0 && 0 <= windows[u].1 && flagsAt + windows[u].0 + windows[u].1 <= masksAt
  }

  /** Every listed record is laid out by PrepareIndices over the flags of its outputs. */
  ghost predicate AllLaid(records: seq<InputInitializer>, order: seq<string>, flagsAt: int, masksAt: int)
    reads (set i | i in records)`outputs, (set i | i in records)`flagsOffset, (set i | i in records)`maskLength
    reads (set i | i in records)`mask
  {
    forall u | 0 <= u < |records| :: Laid(records[u], order, flagsAt, masksAt)
  }

  /** The u-th record holds the u-th made source, at the slot of its window and of starts[u]. */
  ghost predicate AllInstalled(records: seq<InputInitializer>, made: seq<PulseSource>, block: array<bv8>, plan: Regions,
                               windows: seq<(int, int, seq<bool>)>, starts: seq<int>)
    reads (set i | i in records), (set s | s in made)
  {
    && |made| == |records| && |records| <= |windows| && |records| <= |starts|
    && forall u | 0 <= u < |records| :: Installed(records[u], made[u], block, Slot(plan, windows[u], starts[u]))
  }

  /** Every record's source, when it has one, is valid and lies inside the record's arena. */
  ghost predicate SourcesFit(records: seq<InputInitializer>)
    reads (set i | i in records)`source, (set i | i in records)`arena
    reads set i | i in records && i.source != null :: i.source
  {
    forall u | 0 <= u < |records| ::
      records[u].source != null ==>
        records[u].arena != null && records[u].source.Valid() && records[u].source.Fits(records[u].arena.Length)
  }

  /** Installed records have sources that fit, in the block. */
  lemma InstalledFit(records: seq<InputInitializer>, made: seq<PulseSource>, block: array<bv8>, plan: Regions,
                     windows: seq<(int, int, seq<bool>)>, starts: seq<int>)
    requires AllInstalled(records, made, block, plan, windows, starts)
    ensures SourcesFit(records)
    ensures forall u | 0 <= u < |records| :: records[u].arena == block
  {
    forall u | 0 <= u < |records|
      ensures records[u].source != null && records[u].arena == block
      ensures records[u].source.Valid() && records[u].source.Fits(records[u].arena.Length)
    {
      assert Installed(records[u], made[u], block, Slot(plan, windows[u], starts[u]));
    }
  }

  /** Every record holds the arena it had, arenas[u], or the new block. */
  ghost predicate ArenasFrom(records: seq<InputInitializer>, arenas: seq<array?<bv8>>, block: array<bv8>)
    reads (set i | i in records)`arena
  {
    |arenas| == |records| && forall u | 0 <= u < |records| :: records[u].arena == arenas[u] || records[u].arena == block
  }

  /** The records still hold the sources srcs and the arenas arenas. */
  ghost predicate Kept(records: seq<InputInitializer>, srcs: seq<PulseSource?>, arenas: seq<array?<bv8>>)
    reads (set i | i in records)`source, (set i | i in records)`arena
  {
    && |srcs| == |records| == |arenas|
    && forall u | 0 <= u < |records| :: records[u].source == srcs[u] && records[u].arena == arenas[u]
  }

  /** Each source of srcs, when there is one, is valid and lies inside the arena beside it. */
  ghost predicate Fit(srcs: seq<PulseSource?>, arenas: seq<array?<bv8>>)
    reads set s | s in srcs && s != null
  {
    && |arenas| == |srcs|
    && forall u | 0 <= u < |srcs| :: srcs[u] != null ==> arenas[u] != null && srcs[u].Valid() && srcs[u].Fits(arenas[u].Length)
  }

  /** The sources and arenas the records hold now. */
  lemma Snapshot(records: seq<InputInitializer>) returns (srcs: seq<PulseSource?>, arenas: seq<array?<bv8>>)
    requires SourcesFit(records)
    ensures Kept(records, srcs, arenas) && Fit(srcs, arenas)
  {
    srcs := seq(|records|, u reads if 0 <= u < |records| then {records[u]} else {} =>
      if 0 <= u < |records| then records[u].source else null);
    arenas := seq(|records|, u reads if 0 <= u < |records| then {records[u]} else {} =>
      if 0 <= u < |records| then records[u].arena else null);
  }

  /** What holds of the records from t on holds of the t-th and of those after it. */
  lemma KeptTail(records: seq<InputInitializer>, srcs: seq<PulseSource?>, arenas: seq<array?<bv8>>, t: nat)
    requires t < |records| == |srcs| == |arenas| && Kept(records[t..], srcs[t..], arenas[t..])
    ensures records[t].source == srcs[t] && records[t].arena == arenas[t]
    ensures Kept(records[t + 1..], srcs[t + 1..], arenas[t + 1..])
  {
    assert records[t..][0] == records[t];
    forall u | t < u < |records|
      ensures records[u].source == srcs[u] && records[u].arena == arenas[u]
    {
      assert records[t..][u - t] == records[u];
    }
  }

  /**
   * When the t-th source is refused, the records before it hold installed sources and the
   * others still hold the sources they had, which fit: all sources fit.
   */
  lemma FitOnFail(records: seq<InputInitializer>, made: seq<PulseSource>, block: array<bv8>, plan: Regions,
                  windows: seq<(int, int, seq<bool>)>, starts: seq<int>, t: nat,
                  srcs: seq<PulseSource?>, arenas: seq<array?<bv8>>)
    requires t < |records| == |srcs| == |arenas| && AllInstalled(records[..t], made, block, plan, windows, starts)
    requires records[t].source == srcs[t] && records[t].arena == arenas[t]
    requires Kept(records[t + 1..], srcs[t + 1..], arenas[t + 1..]) && Fit(srcs, arenas)
    ensures SourcesFit(records) && ArenasFrom(records, arenas, block)
  {
    forall u | 0 <= u < |records|
      ensures records[u].arena == arenas[u] || records[u].arena == block
    {
      if u < t {
        assert records[..t][u] == records[u];
        assert Installed(records[..t][u], made[u], block, Slot(plan, windows[u], starts[u]));
      } else if u > t {
        assert records[t + 1..][u - t - 1] == records[u];
      }
    }
    forall u | 0 <= u < |records| && records[u].source != null
      ensures records[u].arena != null && records[u].source.Valid() && records[u].source.Fits(records[u].arena.Length)
    {
      if u < t {
        assert records[..t][u] == records[u];
        assert Installed(records[..t][u], made[u], block, Slot(plan, windows[u], starts[u]));
      } else if u > t {
        assert records[t + 1..][u - t - 1] == records[u];
      }
    }
  }

  /** Numbered records are distinct: the t-th is none of those after it. */
  lemma NotAfter(records: seq<InputInitializer>, pos: map<InputInitializer, int>, t: nat)
    requires Numbered(records, pos) && t < |records|
    ensures records[t] !in records[t + 1..]
  {
    forall k | t < k < |records|
      ensures records[k] != records[t]
    {
      assert pos[records[k]] == k && pos[records[t]] == t;
    }
  }

  /** Numbered records are distinct: the t-th is none of those before it. */
  lemma NotBefore(records: seq<InputInitializer>, pos: map<InputInitializer, int>, t: nat)
    requires Numbered(records, pos) && t < |records|
    ensures records[t] !in records[..t]
  {
    forall k | 0 <= k < t
      ensures records[..t][k] != records[t]
    {
      assert pos[records[k]] == k && pos[records[t]] == t;
    }
  }

  /** One more installed record extends AllInstalled by one. */
  lemma InstalledOneMore(records: seq<InputInitializer>, made: seq<PulseSource>, block: array<bv8>, plan: Regions,
                         windows: seq<(int, int, seq<bool>)>, starts: seq<int>, t: nat, src: PulseSource)
    requires t < |records| && t < |windows| && t < |starts|
    requires AllInstalled(records[..t], made, block, plan, windows, starts)
    requires Installed(records[t], src, block, Slot(plan, windows[t], starts[t]))
    ensures AllInstalled(records[..t + 1], made + [src], block, plan, windows, starts)
  {
    assert forall u | 0 <= u < t :: records[..t + 1][u] == records[..t][u];
  }

  /**
   * One pass of the loop of InstallPulseSources, for the input listed t-th, whose mask slice
   * starts at maskAt: after the first t inputs are installed and their masks copied, either
   * the t-th input's window is refused, or it is installed and its mask copied too.
   */
  method InstallStep(records: seq<InputInitializer>, block: array<bv8>, plan: Regions, maskAt: int, t: nat,
                     ghost windows: seq<(int, int, seq<bool>)>, ghost starts: seq<int>,
                     ghost pos: map<InputInitializer, int>, ghost initial: seq<bv8>, ghost made: seq<PulseSource>,
                     ghost order: seq<string>, ghost srcs: seq<PulseSource?>, ghost arenas: seq<array?<bv8>>)
    returns (r: Outcome, src: PulseSource)
    requires Numbered(records, pos) && Windowed(records, windows) && Fitted(windows, plan.flags, plan.masks)
    requires AllLaid(records, order, plan.flags, plan.masks)
    requires Consecutive(starts, windows, block.Length) && t < |records|
    requires maskAt == starts[t] && plan.masks <= maskAt
    requires block[..] == MasksCopied(initial, windows, starts, t)
    requires AllInstalled(records[..t], made, block, plan, windows, starts)
    requires |srcs| == |arenas| == |records| && Kept(records[t..], srcs[t..], arenas[t..]) && Fit(srcs, arenas)
    modifies {records[t]}`source, {records[t]}`arena, {records[t]}`linked, {records[t]}`isInitialized, block
    ensures Windowed(records, windows) && AllLaid(records, order, plan.flags, plan.masks)
    ensures r.Fail? ==> records[t].source == srcs[t] && records[t].arena == arenas[t]
    ensures Kept(records[t + 1..], srcs[t + 1..], arenas[t + 1..])
    ensures r.Pass? <==> Accepts(windows[t].1, windows[t].2)
    ensures r.Fail? ==> r == Fail(ArgumentOutOfRange) || r == Fail(Argument)
    ensures r.Pass? ==> block[..] == MasksCopied(initial, windows, starts, t + 1)
    ensures r.Pass? ==> AllInstalled(records[..t + 1], made + [src], block, plan, windows, starts)
  {
    var input := records[t];
    NotBefore(records, pos, t);
    NotAfter(records, pos, t);
    KeptTail(records, srcs, arenas, t);
    ghost var before := block[..];
    r, src := InstallSource(input, block, plan, maskAt, windows[t], records, windows, order);
    if r.Fail? {
      return;
    }
    assert block[..] == WithMask(before, starts[t], windows[t].1, windows[t].2);
    InstalledOneMore(records, made, block, plan, windows, starts, t, src);
  }

  /**
   * How far InstallPulseSources has got after t inputs: the windows and layouts are those
   * PrepareIndices left, the first t windows were accepted, their masks are copied and their
   * sources installed, and the inputs from t on still hold the sources and arenas srcs and
   * arenas, which fit.
   */
  ghost predicate Progress(records: seq<InputInitializer>, block: array<bv8>, plan: Regions,
                           windows: seq<(int, int, seq<bool>)>, starts: seq<int>, initial: seq<bv8>,
                           made: seq<PulseSource>, t: nat, srcs: seq<PulseSource?>, arenas: seq<array?<bv8>>,
                           order: seq<string>)
    reads (set i | i in records), (set s | s in made), block, set s | s in srcs && s != null
  {
    && t <= |records| == |srcs| == |arenas| && t <= |starts|
    && Windowed(records, windows) && AllLaid(records, order, plan.flags, plan.masks) && Fit(srcs, arenas)
    && (forall u | 0 <= u < t :: Accepts(windows[u].1, windows[u].2))
    && block[..] == MasksCopied(initial, windows, starts, t)
    && AllInstalled(records[..t], made, block, plan, windows, starts)
    && Kept(records[t..], srcs[t..], arenas[t..])
  }

  /**
   * One pass of the loop of InstallPulseSources, in the terms of Progress: the t-th input is
   * installed, or it is refused and every input is left with a source that fits.
   */
  method Advance(records: seq<InputInitializer>, block: array<bv8>, plan: Regions, maskAt: int, t: nat,
                 ghost windows: seq<(int, int, seq<bool>)>, ghost starts: seq<int>,
                 ghost pos: map<InputInitializer, int>, ghost initial: seq<bv8>, ghost made: seq<PulseSource>,
                 ghost order: seq<string>, ghost srcs: seq<PulseSource?>, ghost arenas: seq<array?<bv8>>)
    returns (r: Outcome, src: PulseSource)
    requires Numbered(records, pos) && Fitted(windows, plan.flags, plan.masks)
    requires Consecutive(starts, windows, block.Length) && t < |records|
    requires Progress(records, block, plan, windows, starts, initial, made, t, srcs, arenas, order)
    requires maskAt == starts[t] && plan.masks <= maskAt
    modifies {records[t]}`source, {records[t]}`arena, {records[t]}`linked, {records[t]}`isInitialized, block
    ensures r.Pass? <==> Accepts(windows[t].1, windows[t].2)
    ensures r.Fail? ==> r == Fail(ArgumentOutOfRange) || r == Fail(Argument)
    ensures r.Fail? ==> SourcesFit(records) && Windowed(records, windows) && ArenasFrom(records, arenas, block)
    ensures r.Pass? ==> Progress(records, block, plan, windows, starts, initial, made + [src], t + 1, srcs, arenas, order)
  {
    r, src := InstallStep(records, block, plan, maskAt, t, windows, starts, pos, initial, made, order, srcs, arenas);
    if r.Fail? {
      FitOnFail(records, made, block, plan, windows, starts, t, srcs, arenas);
    }
  }

  /**
   * InstallPulseSources: the input listed u-th gets a source over its window of the flag
   * region and over the mask slice at starts[u], the running sum of the mask lengths before
   * it; the input then copies its mask into the slice. A length that does not fit a ushort,
   * or a mask that does not fit the staging buffer of its length, stops the loop.
   */
  method InstallPulseSources(records: seq<InputInitializer>, block: array<bv8>, plan: Regions,
                             ghost windows: seq<(int, int, seq<bool>)>, ghost starts: seq<int>,
                             ghost pos: map<InputInitializer, int>, ghost order: seq<string>)
    returns (r: Outcome, ghost made: seq<PulseSource>)
    requires Numbered(records, pos) && Windowed(records, windows) && Fitted(windows, plan.flags, plan.masks)
    requires AllLaid(records, order, plan.flags, plan.masks)
    requires Consecutive(starts, windows, block.Length) && starts[0] == plan.masks
    requires SourcesFit(records)
    modifies pos.Keys`source, pos.Keys`arena, pos.Keys`linked, pos.Keys`isInitialized, block
    ensures Windowed(records, windows) && (r.Pass? ==> AllLaid(records, order, plan.flags, plan.masks))
    ensures SourcesFit(records)
    ensures forall u | 0 <= u < |records| :: records[u].arena == old(records[u].arena) || records[u].arena == block
    ensures r.Pass? <==> forall u | 0 <= u < |records| :: Accepts(windows[u].1, windows[u].2)
    ensures r.Fail? ==> r == Fail(ArgumentOutOfRange) || r == Fail(Argument)
    ensures r.Pass? ==> |made| == |records| && block[..] == MasksCopied(old(block[..]), windows, starts, |records|)
    ensures r.Pass? ==> AllInstalled(records, made, block, plan, windows, starts)
  {
    ghost var initial := block[..];
    ghost var srcs, arenas := Snapshot(records);
    assert forall u | 0 <= u < |records| :: arenas[u] == old(records[u].arena);
    r, made := Pass, [];
    var maskOffset := 0;
    var t := 0;
    while t < |records|
      invariant 0 <= t <= |records| && |made| == t && r == Pass
      invariant plan.masks + maskOffset == starts[t] && plan.masks <= starts[t]
      invariant Progress(records, block, plan, windows, starts, initial, made, t, srcs, arenas, order)
    {
      var length := records[t].maskLength;
      var src;
      r, src := Advance(records, block, plan, plan.masks + maskOffset, t, windows, starts, pos, initial, made, order,
                        srcs, arenas);
      if r.Fail? {
        return;
      }
      maskOffset := maskOffset + length;
      made := made + [src];
      t := t + 1;
    }
    assert records[..t] == records;
    InstalledFit(records, made, block, plan, windows, starts);
  }

  /** A source pointing at the slot of a laid-out window sees its outputs' bits in the arena bytes s. */
  lemma PlacedFromSlot(at: (int, int, int), links: set<int>, fo: int, ml: int, mask: seq<bool>, s: seq<bv8>,
                       flagsAt: int, masksAt: int, maskAt: int)
    requires Staged(links, fo, ml, mask, flagsAt, masksAt)
    requires at == (flagsAt + fo, maskAt - flagsAt - fo, ml)
    requires masksAt <= maskAt && Holds(s, maskAt, ml, mask)
    ensures Placed(at, links, fo, ml, s, flagsAt, masksAt, maskAt)
  {
    if ml > 0 {
      assert mask == MaskBits(links, fo, ml);
    }
  }

  /**
   * The u-th of the listed inputs, laid out by PrepareIndices, whose source was installed at
   * starts[u], is wired over the arena bytes `copied` once all masks are copied.
   */
  lemma WiredFromInstalled(input: InputInitializer, src: PulseSource, order: seq<string>,
                           block: array<bv8>, plan: Regions,
                           initial: seq<bv8>, windows: seq<(int, int, seq<bool>)>, starts: seq<int>, u: nat, copied: seq<bv8>)
    requires Consecutive(starts, windows, |initial|) && u < |windows| && plan.masks == starts[0] && 0 <= starts[0]
    requires copied == MasksCopied(initial, windows, starts, |windows|) && |copied| == block.Length
    requires Installed(input, src, block, Slot(plan, windows[u], starts[u]))
    requires windows[u] == (input.flagsOffset, input.maskLength, input.mask)
    requires Laid(input, order, plan.flags, plan.masks)
    ensures input.arena == block && input.SourceFits()
    ensures SourceWired(input, src, order, copied, plan.flags, plan.masks, starts[u])
  {
    MasksCopiedSlices(initial, windows, starts, |windows|, u, copied);
    if u > 0 {
      SlicesGrow(starts, windows, |initial|, 0, u);
    }
    PlacedFromSlot(Fields(src), Linked(input.outputs.Keys, order), windows[u].0, windows[u].1, windows[u].2,
                   copied, plan.flags, plan.masks, starts[u]);
  }

  /** Numbers the distinct records by their place in the listing. */
  lemma Positions(records: seq<InputInitializer>) returns (pos: map<InputInitializer, int>)
    requires NoDuplicates(records)
    ensures Numbered(records, pos)
    ensures forall k | k in pos :: 0 <= pos[k] < |records| && records[pos[k]] == k
  {
    pos := map u | 0 <= u < |records| :: records[u] := u;
    forall k | k in pos
      ensures 0 <= pos[k] < |records| && records[pos[k]] == k
    {
      var u :| 0 <= u < |records| && records[u] == k;
    }
  }

  /** The windows of the laid-out records, whose mask lengths are `lengths`. */
  lemma Windows(records: seq<InputInitializer>, lengths: seq<nat>, order: seq<string>,
                flagsAt: int, masksAt: int)
    returns (windows: seq<(int, int, seq<bool>)>)
    requires |lengths| == |records| && forall t | 0 <= t < |records| :: records[t].maskLength == lengths[t]
    requires AllLaid(records, order, flagsAt, masksAt)
    ensures Windowed(records, windows) && Fitted(windows, flagsAt, masksAt)
    ensures forall u | 0 <= u < |records| :: windows[u].1 == lengths[u]
  {
    windows := seq(|records|, t
      requires 0 <= t < |records|
      reads if 0 <= t < |records| then {records[t]} else {}
      => (records[t].flagsOffset, records[t].maskLength, records[t].mask));
    assert forall u | 0 <= u < |records| :: Laid(records[u], order, flagsAt, masksAt);
  }

  /** Where each mask slice starts: slice u at MaskStart, one after the other inside the mask region. */
  lemma Starts(plan: Regions, lengths: seq<nat>, outputs: nat, windows: seq<(int, int, seq<bool>)>)
    returns (starts: seq<int>)
    requires plan == Plan(|lengths|, outputs, Sum(lengths))
    requires |windows| == |lengths| && forall u | 0 <= u < |lengths| :: windows[u].1 == lengths[u]
    ensures Consecutive(starts, windows, plan.total) && starts[0] == plan.masks
    ensures forall u | 0 <= u <= |lengths| :: starts[u] == MaskStart(plan.masks, lengths, u)
  {
    starts := seq(|lengths| + 1, u requires 0 <= u <= |lengths| => MaskStart(plan.masks, lengths, u));
    forall u | 0 <= u < |lengths|
      ensures starts[u] + lengths[u] == starts[u + 1] && starts[u] + lengths[u] <= plan.total
    {
      NextStart(plan, lengths, outputs, u);
    }
  }

  /** Slice u ends where slice u + 1 starts, inside the arena. */
  lemma NextStart(plan: Regions, lengths: seq<nat>, outputs: nat, u: nat)
    requires plan == Plan(|lengths|, outputs, Sum(lengths)) && u < |lengths|
    ensures MaskStart(plan.masks, lengths, u) + lengths[u] == MaskStart(plan.masks, lengths, u + 1)
    ensures MaskStart(plan.masks, lengths, u) + lengths[u] <= plan.total
  {
    assert lengths[..u + 1][..u] == lengths[..u];
    MaskSliceInRegion(|lengths|, outputs, lengths, u);
  }

  /**
   * Once InstallPulseSources has installed every laid-out record and copied every mask, each
   * record's source is wired over the arena bytes, and the bytes below the mask region are
   * the ones the arena held before.
   */
  lemma AllWired(records: seq<InputInitializer>, made: seq<PulseSource>, order: seq<string>,
                 block: array<bv8>, plan: Regions, lengths: seq<nat>,
                 initial: seq<bv8>, windows: seq<(int, int, seq<bool>)>, starts: seq<int>)
    requires |lengths| == |records| && |initial| == block.Length
    requires AllInstalled(records, made, block, plan, windows, starts)
    requires AllLaid(records, order, plan.flags, plan.masks) && Windowed(records, windows)
    requires Consecutive(starts, windows, |initial|) && starts[0] == plan.masks
    requires forall u | 0 <= u <= |records| :: starts[u] == MaskStart(plan.masks, lengths, u)
    requires block[..] == MasksCopied(initial, windows, starts, |records|)
    ensures forall t | 0 <= t < |records| ::
      && records[t].arena == block && records[t].SourceFits()
      && SourceWired(records[t], made[t], order, block[..], plan.flags, plan.masks, MaskStart(plan.masks, lengths, t))
    ensures plan.masks <= |initial| ==> block[..plan.masks] == initial[..plan.masks]
  {
    ghost var final := block[..];
    if plan.masks <= |initial| {
      MasksCopiedBelow(initial, windows, starts, |records|);
    }
    forall u | 0 <= u < |records|
      ensures records[u].arena == block && records[u].SourceFits()
      ensures SourceWired(records[u], made[u], order, final, plan.flags, plan.masks, MaskStart(plan.masks, lengths, u))
    {
      assert Laid(records[u], order, plan.flags, plan.masks);
      WiredFromInstalled(records[u], made[u], order, block, plan, initial, windows, starts, u, final);
    }
  }

  /**
   * InstallPulseSources over the listed records of the board: each record's window is the
   * one PrepareIndices laid out, and on success every record's source is wired, in the terms
   * of SourceWired, over the final arena bytes, which below the mask region are untouched.
   */
  method WireSources(records: seq<InputInitializer>, block: array<bv8>, plan: Regions, lengths: seq<nat>,
                     ghost order: seq<string>)
    returns (r: Outcome, ghost made: seq<PulseSource>)
    requires NoDuplicates(records) && |lengths| == |records|
    requires plan == Plan(|records|, |order|, Sum(lengths)) && block.Length == plan.total
    requires forall t | 0 <= t < |records| :: records[t].maskLength == lengths[t]
    requires AllLaid(records, order, plan.flags, plan.masks) && SourcesFit(records)
    modifies (set i | i in records)`source, (set i | i in records)`arena
    modifies (set i | i in records)`linked, (set i | i in records)`isInitialized, block
    ensures r.Pass? <==> forall t | 0 <= t < |records| :: Accepts(lengths[t], records[t].mask)
    ensures r.Fail? ==> r == Fail(ArgumentOutOfRange) || r == Fail(Argument)
    ensures SourcesFit(records)
    ensures forall t | 0 <= t < |records| :: records[t].arena == old(records[t].arena) || records[t].arena == block
    ensures r.Pass? ==> |made| == |records|
    ensures r.Pass? ==> forall t | 0 <= t < |records| ::
      && records[t].arena == block && records[t].SourceFits()
      && SourceWired(records[t], made[t], order, block[..], plan.flags, plan.masks, MaskStart(plan.masks, lengths, t))
    ensures r.Pass? ==> block[..plan.masks] == old(block[..plan.masks])
  {
    ghost var pos := Positions(records);
    ghost var windows := Windows(records, lengths, order, plan.flags, plan.masks);
    ghost var starts := Starts(plan, lengths, |order|, windows);
    ghost var initial := block[..];
    r, made := InstallPulseSources(records, block, plan, windows, starts, pos, order);
    if r.Fail? {
      return;
    }
    AllWired(records, made, order, block, plan, lengths, initial, windows, starts);
  }
}
