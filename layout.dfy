/**
 * The arena plan of RelayBoard.Initialize: four regions laid back to back (pulse sources,
 * flags, masks, probes), the byte span each input covers in the flag region, and the relative
 * mask it pulses into that span.
 */
module Layout {
  import opened Bytes
  import opened Sources
  import opened UintBits

  /** `sizeof(PulseSource)`: a byte pointer, an int and two ushorts, in a 64-bit process. */
  const SOURCE_SIZE: nat := 16
  /** `sizeof(PulseProbe)`. */
  const PROBE_SIZE: nat := 4
  /** `sizeof(uint)`: the flag region is rounded to whole uints. */
  const UINT_SIZE: nat := 4
  /** `ushort.MaxValue * NB_BITS_PER_BYTE`: the most outputs a board accepts. */
  const MAX_OUTPUTS: nat := 65535 * 8

  /**
   * `Ceiling(value, qo)`: the least multiple of qo strictly above value. A value that is
   * already a multiple still gets a whole extra qo.
   */
  function Ceiling(value: nat, qo: nat): (r: nat)
    requires qo > 0
    ensures r % qo == 0
    ensures value < r <= value + qo
    ensures value % qo == 0 ==> r == value + qo
  {
    var q, m := value / qo, value % qo;
    assert value == q * qo + m;
    assert q * qo + qo == qo * (q + 1) + 0;
    DivModUnique(q * qo + qo, qo, q + 1, 0);
    value / qo * qo + qo
  }

  /** The flag region: one bit per output, rounded up past a whole number of uints. */
  function FlagsSize(outputs: nat): (r: nat)
    ensures r % UINT_SIZE == 0 && outputs / 8 < r
  {
    Ceiling(outputs / 8, UINT_SIZE)
  }

  /** Where the four regions start, and the total size of the arena. */
  datatype Regions = Regions(sources: nat, flags: nat, masks: nat, probes: nat, total: nat)

  /**
   * The plan for `inputs` inputs, `outputs` outputs and masks of `maskSum` bytes altogether:
   * sources first, then flags, masks and probes.
   */
  function Plan(inputs: nat, outputs: nat, maskSum: nat): Regions
  {
    var flagsSize := FlagsSize(outputs);
    var pulseProbeSize := PROBE_SIZE * outputs;
    var pulseSourceSize := SOURCE_SIZE * inputs;
    Regions(0, pulseSourceSize, pulseSourceSize + flagsSize, pulseSourceSize + flagsSize + maskSum,
            flagsSize + pulseProbeSize + pulseSourceSize + maskSum)
  }

  /**
   * The regions partition the arena: each starts where the previous one ends, each has the
   * size of what it holds, and the last ends exactly at the total size.
   */
  lemma PlanPartition(inputs: nat, outputs: nat, maskSum: nat)
    ensures var p := Plan(inputs, outputs, maskSum);
      && p.sources == 0
      && p.flags - p.sources == SOURCE_SIZE * inputs
      && p.masks - p.flags == FlagsSize(outputs)
      && p.probes - p.masks == maskSum
      && p.total - p.probes == PROBE_SIZE * outputs
  {
  }

  function Sum(xs: seq<nat>): nat
  {
    if |xs| == 0 then 0 else Sum(xs[..|xs| - 1]) + xs[|xs| - 1]
  }

  lemma {:induction false} SumPrefix(xs: seq<nat>, i: nat, j: nat)
    requires i <= j <= |xs|
    ensures Sum(xs[..i]) <= Sum(xs[..j])
    ensures i < j ==> Sum(xs[..i]) + xs[i] <= Sum(xs[..j])
    decreases j
  {
    if i < j {
      assert xs[..j][..j - 1] == xs[..j - 1];
      SumPrefix(xs, i, j - 1);
      if i == j - 1 {
        assert xs[..j] == xs[..j - 1] + [xs[j - 1]];
      }
    } else {
      assert xs[..i] == xs[..j];
    }
  }

  /** Input k's mask slice starts after the slices of the inputs before it. */
  function MaskStart(masks: nat, lengths: seq<nat>, k: nat): nat
    requires k <= |lengths|
  {
    masks + Sum(lengths[..k])
  }

  /**
   * The mask slices lie inside the mask region in input order, one after the other: slice k
   * ends no later than slice k + 1 starts, and the last ends where the probe region starts.
   */
  lemma MaskSlices(inputs: nat, outputs: nat, lengths: seq<nat>, k: nat, l: nat)
    requires |lengths| == inputs && k < l < inputs
    ensures var p := Plan(inputs, outputs, Sum(lengths));
      && p.masks <= MaskStart(p.masks, lengths, k)
      && MaskStart(p.masks, lengths, k) + lengths[k] <= MaskStart(p.masks, lengths, l)
      && MaskStart(p.masks, lengths, l) + lengths[l] <= p.probes
  {
    SumPrefix(lengths, k, l);
    SumPrefix(lengths, l, |lengths|);
    assert lengths[..|lengths|] == lengths;
  }

  /** Every mask slice, the last included, lies inside the mask region. */
  lemma MaskSliceInRegion(inputs: nat, outputs: nat, lengths: seq<nat>, k: nat)
    requires |lengths| == inputs && k < inputs
    ensures var p := Plan(inputs, outputs, Sum(lengths));
      p.masks <= MaskStart(p.masks, lengths, k) && MaskStart(p.masks, lengths, k) + lengths[k] <= p.probes
  {
    SumPrefix(lengths, k, |lengths|);
    assert lengths[..|lengths|] == lengths;
  }

  /**
   * Output idx's probe and flag: the probe at slot idx of the probe region lies inside it, and
   * its flag byte idx/8 lies in the flag region, with the uint SetOff rewrites inside the arena.
   */
  lemma ProbeSlot(inputs: nat, outputs: nat, maskSum: nat, idx: nat)
    requires idx < outputs
    ensures var p := Plan(inputs, outputs, maskSum);
      && p.probes <= p.probes + PROBE_SIZE * idx && p.probes + PROBE_SIZE * idx + PROBE_SIZE <= p.total
      && p.flags <= p.flags + idx / 8 < p.masks
      && p.flags + idx / 8 + UINT_SIZE <= p.total
  {
  }

  /* ---- The span of one input ---- */

  /** Every index of ix lies in the ml bytes of flags starting at byte fo. */
  predicate InWindow(ix: set<int>, fo: int, ml: int)
  {
    forall j | j in ix :: 8 * fo <= j < 8 * (fo + ml)
  }

  /** The window is the smallest: its first and its last byte each hold an index of ix. */
  predicate Spans(ix: set<int>, fo: int, ml: int)
  {
    && InWindow(ix, fo, ml)
    && (exists j | j in ix :: j / 8 == fo)
    && (exists j | j in ix :: j / 8 == fo + ml - 1)
  }

  /** The relative mask: bit b is set iff index b + 8*fo is in ix. */
  function MaskBits(ix: set<int>, fo: int, ml: nat): (m: seq<bool>)
    ensures |m| == 8 * ml
  {
    seq(8 * ml, b => b + 8 * fo in ix)
  }

  /**
   * A window is determined by its indices: it starts at the byte of the smallest and ends at
   * the byte of the largest, so one at least one byte long.
   */
  lemma SpansUnique(ix: set<int>, fo: int, ml: int, fo': int, ml': int)
    requires Spans(ix, fo, ml) && Spans(ix, fo', ml')
    ensures fo == fo' && ml == ml' && ml >= 1
  {
    var a :| a in ix && a / 8 == fo;
    var b :| b in ix && b / 8 == fo + ml - 1;
    var a' :| a' in ix && a' / 8 == fo';
    var b' :| b' in ix && b' / 8 == fo' + ml' - 1;
    assert 8 * fo' <= a < 8 * (fo' + ml') && 8 * fo <= a' < 8 * (fo + ml);
    assert 8 * fo' <= b < 8 * (fo' + ml') && 8 * fo <= b' < 8 * (fo + ml);
  }

  /**
   * A span over indices below `outputs` fits the flag region and a ushort mask length, and
   * its relative mask fits the staging buffer PulseSource.UpdateMask copies it through.
   */
  lemma SpanBounds(ix: set<int>, fo: int, ml: int, outputs: nat)
    requires Spans(ix, fo, ml)
    requires forall j | j in ix :: 0 <= j < outputs
    requires outputs <= MAX_OUTPUTS
    ensures 0 <= fo && 1 <= ml && fo + ml <= FlagsSize(outputs)
    ensures ml <= USHORT_MAX
    ensures 8 * ml <= 32 * (ml / 4 + 4)
  {
    var a :| a in ix && a / 8 == fo;
    var b :| b in ix && b / 8 == fo + ml - 1;
    assert 0 <= a && b < outputs;
    assert (outputs - 1) / 8 <= 65534;
  }

  /**
   * The end-to-end meaning of one pulse: when the mask slice at `maskAt` holds the staged
   * relative mask of ix and the flag slice starts at byte fo of the flag region, pulsing sets
   * bit j%8 of flag byte j/8 exactly when it was set already or output j is in ix, for every
   * output j.
   */
  lemma PulseSetsConnected(s: seq<bv8>, flagsAt: nat, fo: int, ml: nat, maskAt: nat, ix: set<int>, j: nat)
    requires 0 <= flagsAt + fo && flagsAt + fo + ml <= maskAt && maskAt + ml <= |s|
    requires InWindow(ix, fo, ml)
    requires forall i | 0 <= i < ml :: s[maskAt + i] == StagedByte(MaskBits(ix, fo, ml), i)
    requires flagsAt + j / 8 < |s|
    ensures BitSet(OrInto(s, flagsAt + fo, maskAt, ml)[flagsAt + j / 8], j % 8)
        <==> BitSet(s[flagsAt + j / 8], j % 8) || j in ix
  {
    var r := OrInto(s, flagsAt + fo, maskAt, ml);
    var byte, k := j / 8, j % 8;
    if fo <= byte < fo + ml {
      var i := byte - fo;
      OrIntoBits(s, flagsAt + fo, maskAt, ml, i, k);
      assert flagsAt + fo + i == flagsAt + byte;
      StagedByteBits(MaskBits(ix, fo, ml), i, k);
      assert 8 * i + k + 8 * fo == j;
    } else {
      assert r[flagsAt + byte] == s[flagsAt + byte];
      assert j !in ix;
    }
  }

  /** Probe offsets fit 28 bits when the whole arena does. */
  lemma ProbeOffsetFits(inputs: nat, outputs: nat, maskSum: nat, idx: nat, limit: nat)
    requires idx < outputs && Plan(inputs, outputs, maskSum).total <= limit
    ensures var p := Plan(inputs, outputs, maskSum);
      -(limit as int) <= (p.flags + idx / 8) as int - (p.probes + PROBE_SIZE * idx) < 0
  {
  }
}
