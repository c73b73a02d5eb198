/**
 * PulseSource: the per-input record in the arena. Pulsing an input ORs its mask slice into the
 * flag bytes it covers, eight bytes at a time and then byte by byte.
 */
module Sources {
  import opened Wrappers
  import opened Bytes

  /** `ushort.MaxValue`: the largest mask length, in bytes. */
  const USHORT_MAX: int := 65535

  /** The n-byte ranges at a and at b do not overlap. */
  predicate Disjoint(a: int, b: int, n: int)
  {
    a + n <= b || b + n <= a
  }

  /**
   * The reference meaning of a pulse: s with each of the n bytes at dst OR-ed with the byte at
   * the same position of the n bytes at src.
   */
  function OrInto(s: seq<bv8>, dst: int, src: int, n: nat): seq<bv8>
    requires 0 <= dst && dst + n <= |s| && 0 <= src && src + n <= |s|
  {
    seq(|s|, i requires 0 <= i < |s| => if dst <= i < dst + n then s[i] | s[src + i - dst] else s[i])
  }

  /** Bit k of flag byte i after a pulse is set iff it was set before or is set in the mask. */
  lemma OrIntoBits(s: seq<bv8>, dst: int, src: int, n: nat, i: nat, k: nat)
    requires 0 <= dst && dst + n <= |s| && 0 <= src && src + n <= |s|
    requires i < n && k < 8
    ensures BitSet(OrInto(s, dst, src, n)[dst + i], k) <==> BitSet(s[dst + i], k) || BitSet(s[src + i], k)
  {
    var m := BitMask(k);
    assert (s[dst + i] | s[src + i]) & m == (s[dst + i] & m) | (s[src + i] & m);
  }

  /** A pulse never clears a bit anywhere in the arena. */
  lemma OrIntoNeverClears(s: seq<bv8>, dst: int, src: int, n: nat)
    requires 0 <= dst && dst + n <= |s| && 0 <= src && src + n <= |s|
    ensures forall i, k | 0 <= i < |s| && 0 <= k < 8 :: BitSet(s[i], k) ==> BitSet(OrInto(s, dst, src, n)[i], k)
  {
    var r := OrInto(s, dst, src, n);
    forall i, k | 0 <= i < |s| && 0 <= k < 8 && BitSet(s[i], k)
      ensures BitSet(r[i], k)
    {
      if dst <= i < dst + n {
        OrIntoBits(s, dst, src, n, i - dst, k);
      }
    }
  }

  /** A pulse writes only the flag range: the bytes before dst and from dst + n on stay. */
  lemma OrIntoFrame(s: seq<bv8>, dst: int, src: int, n: nat)
    requires 0 <= dst && dst + n <= |s| && 0 <= src && src + n <= |s|
    ensures |OrInto(s, dst, src, n)| == |s|
    ensures OrInto(s, dst, src, n)[..dst] == s[..dst]
    ensures OrInto(s, dst, src, n)[dst + n..] == s[dst + n..]
  {
  }

  /** When the ranges do not overlap, a pulse leaves the mask bytes as they were. */
  lemma OrIntoKeepsMask(s: seq<bv8>, dst: int, src: int, n: nat)
    requires 0 <= dst && dst + n <= |s| && 0 <= src && src + n <= |s| && Disjoint(dst, src, n)
    ensures OrInto(s, dst, src, n)[src..src + n] == s[src..src + n]
  {
  }

  /** Pulsing twice is pulsing once. */
  lemma OrIntoIdempotent(s: seq<bv8>, dst: int, src: int, n: nat)
    requires 0 <= dst && dst + n <= |s| && 0 <= src && src + n <= |s| && Disjoint(dst, src, n)
    ensures OrInto(OrInto(s, dst, src, n), dst, src, n) == OrInto(s, dst, src, n)
  {
    var r := OrInto(s, dst, src, n);
    var rr := OrInto(r, dst, src, n);
    forall i | 0 <= i < |s|
      ensures rr[i] == r[i]
    {
      if dst <= i < dst + n {
        assert r[src + i - dst] == s[src + i - dst];
        assert (s[i] | s[src + i - dst]) | s[src + i - dst] == s[i] | s[src + i - dst];
      }
    }
  }

  /**
   * `*(ulong*)(a + dst) | *(ulong*)(a + src)`: the 64-bit OR of the words at dst and at src,
   * whose bytes are the ORs of the bytes at the same positions.
   */
  method LoadOr(s: seq<bv8>, dst: int, src: int) returns (w: bv64)
    requires 0 <= dst && dst + 8 <= |s| && 0 <= src && src + 8 <= |s|
    ensures Bytes64(w) == seq(8, k requires 0 <= k < 8 => s[dst + k] | s[src + k])
  {
    w := Load64(s, dst) | Load64(s, src);
    OrOfLoads(s, dst, src);
    EightEqual(Bytes64(w), seq(8, k requires 0 <= k < 8 => s[dst + k] | s[src + k]));
  }

  /**
   * `*(ulong*)(a + dst) |= *(ulong*)(a + src)`: one 64-bit read-modify-write, which amounts to
   * OR-ing each of the eight bytes at src into the byte at the same position at dst.
   */
  method OrWord(a: array<bv8>, dst: int, src: int)
    requires 0 <= dst && dst + 8 <= a.Length && 0 <= src && src + 8 <= a.Length
    modifies a
    ensures forall i | 0 <= i < a.Length ::
      a[i] == if dst <= i < dst + 8 then old(a[i]) | old(a[src + i - dst]) else old(a[i])
  {
    var w := LoadOr(a[..], dst, src);
    Store64(a, dst, w);
  }

  /** One pass of the word loop at byte j extends the pulse from j bytes to j + 8 bytes. */
  lemma WordStep(s0: seq<bv8>, cur: seq<bv8>, next: seq<bv8>, dst: int, src: int, n: nat, j: nat)
    requires 0 <= dst && dst + n <= |s0| && 0 <= src && src + n <= |s0| && Disjoint(dst, src, n)
    requires j + 8 <= n
    requires cur == OrInto(s0, dst, src, j)
    requires |next| == |cur|
    requires forall i {:trigger next[i]} | 0 <= i < |cur| ::
      next[i] == if dst + j <= i < dst + j + 8 then cur[i] | cur[src + i - dst] else cur[i]
    ensures next == OrInto(s0, dst, src, j + 8)
  {
    var r := OrInto(s0, dst, src, j + 8);
    forall i | 0 <= i < |next|
      ensures next[i] == r[i]
    {
      if dst + j <= i < dst + j + 8 {
        var m := src + i - dst;
        assert src <= m < src + n;
        assert !(dst <= m < dst + j);
        assert cur[m] == s0[m];
        assert cur[i] == s0[i];
        assert next[i] == cur[i] | cur[m];
        assert r[i] == s0[i] | s0[m];
      } else {
        assert next[i] == cur[i];
      }
    }
  }

  /** One pass of the byte loop at byte j extends the pulse from j bytes to j + 1 bytes. */
  lemma ByteStep(s0: seq<bv8>, cur: seq<bv8>, dst: int, src: int, n: nat, j: nat)
    requires 0 <= dst && dst + n <= |s0| && 0 <= src && src + n <= |s0| && Disjoint(dst, src, n)
    requires j < n
    requires cur == OrInto(s0, dst, src, j)
    ensures cur[dst + j := cur[dst + j] | cur[src + j]] == OrInto(s0, dst, src, j + 1)
  {
    var next := cur[dst + j := cur[dst + j] | cur[src + j]];
    var r := OrInto(s0, dst, src, j + 1);
    forall i | 0 <= i < |next|
      ensures next[i] == r[i]
    {
      if i == dst + j {
        assert cur[src + j] == s0[src + j];
      }
    }
  }

  /** One pass of the word loop: the pulse over the first j bytes becomes the pulse over j + 8. */
  method WordPass(arena: array<bv8>, ghost s0: seq<bv8>, dst: int, src: int, n: nat, j: nat)
    requires 0 <= dst && dst + n <= |s0| && 0 <= src && src + n <= |s0| && Disjoint(dst, src, n)
    requires j + 8 <= n && arena[..] == OrInto(s0, dst, src, j)
    modifies arena
    ensures arena[..] == OrInto(s0, dst, src, j + 8)
  {
    ghost var cur := arena[..];
    OrWord(arena, dst + j, src + j);
    WordStep(s0, cur, arena[..], dst, src, n, j);
  }

  /** One pass of the byte loop: the pulse over the first j bytes becomes the pulse over j + 1. */
  method BytePass(arena: array<bv8>, ghost s0: seq<bv8>, dst: int, src: int, n: nat, j: nat)
    requires 0 <= dst && dst + n <= |s0| && 0 <= src && src + n <= |s0| && Disjoint(dst, src, n)
    requires j < n && arena[..] == OrInto(s0, dst, src, j)
    modifies arena
    ensures arena[..] == OrInto(s0, dst, src, j + 1)
  {
    ghost var cur := arena[..];
    ByteStep(s0, cur, dst, src, n, j);
    arena[dst + j] := arena[dst + j] | arena[src + j];
    assert arena[..] == cur[dst + j := cur[dst + j] | cur[src + j]];
  }

  /** Bit j of the BitArray as a byte: 1 when it exists and is set, else 0. */
  function BitAt(bits: seq<bool>, j: int): bv8
  {
    if 0 <= j < |bits| && bits[j] then 1 else 0
  }

  /**
   * Byte i of the staging buffer: `a.CopyTo(int[], 0)` stores bit j of the BitArray as bit j%32
   * of int j/32, so on a little-endian machine byte i holds bits 8i..8i+7, and bytes past the
   * BitArray's end stay 0.
   */
  function StagedByte(bits: seq<bool>, i: nat): bv8
  {
    BitAt(bits, 8 * i) | (BitAt(bits, 8 * i + 1) << 1) | (BitAt(bits, 8 * i + 2) << 2)
    | (BitAt(bits, 8 * i + 3) << 3) | (BitAt(bits, 8 * i + 4) << 4) | (BitAt(bits, 8 * i + 5) << 5)
    | (BitAt(bits, 8 * i + 6) << 6) | (BitAt(bits, 8 * i + 7) << 7)
  }

  /** `tmp` after `a.CopyTo(tmp, 0)`, seen as bytes: the int array holds `ints` ints. */
  function Staging(bits: seq<bool>, ints: nat): (t: seq<bv8>)
    requires |bits| <= 32 * ints
  {
    seq(4 * ints, i requires 0 <= i < 4 * ints => StagedByte(bits, i))
  }

  /** The bytes s with the n bytes at `at` replaced by the staged bytes of bits. */
  function WithMask(s: seq<bv8>, at: int, n: int, bits: seq<bool>): (r: seq<bv8>)
    ensures |r| == |s|
  {
    seq(|s|, i requires 0 <= i < |s| => if at <= i < at + n then StagedByte(bits, i - at) else s[i])
  }

  /** Bit k of staged byte i is BitArray bit 8i + k. */
  lemma StagedByteBits(bits: seq<bool>, i: nat, k: nat)
    requires k < 8
    ensures BitSet(StagedByte(bits, i), k) <==> 8 * i + k < |bits| && bits[8 * i + k]
  {
    var b0, b1, b2, b3 := BitAt(bits, 8 * i), BitAt(bits, 8 * i + 1), BitAt(bits, 8 * i + 2), BitAt(bits, 8 * i + 3);
    var b4, b5, b6, b7 := BitAt(bits, 8 * i + 4), BitAt(bits, 8 * i + 5), BitAt(bits, 8 * i + 6), BitAt(bits, 8 * i + 7);
    assert b0 <= 1 && b1 <= 1 && b2 <= 1 && b3 <= 1 && b4 <= 1 && b5 <= 1 && b6 <= 1 && b7 <= 1;
    assert BitAt(bits, 8 * i + k) == 1 <==> 8 * i + k < |bits| && bits[8 * i + k];
  }

  class PulseSource {
    /** `_flags`: the arena address of the first flag byte this input covers. */
    var flags: int
    /** `_maskOffset`: where the mask slice starts, relative to `flags`. */
    var maskOffset: int
    /** `_maskLength`: the length of both slices, in bytes (a ushort). */
    var maskLength: int
    /** `_index`: the loop counter of Pulse (a ushort). */
    var index: int

    /** The ushort fields hold ushort values. */
    ghost predicate Valid()
      reads this
    {
      0 <= maskLength <= USHORT_MAX && 0 <= index <= USHORT_MAX
    }

    /** Both slices lie in an arena of `size` bytes and do not overlap. */
    predicate Fits(size: int)
      reads this
    {
      0 <= flags && flags + maskLength <= size
      && 0 <= flags + maskOffset && flags + maskOffset + maskLength <= size
      && Disjoint(flags, flags + maskOffset, maskLength)
    }

    constructor ()
      ensures Valid()
      ensures flags == 0 && maskOffset == 0 && maskLength == 0 && index == 0
    {
      flags, maskOffset, maskLength, index := 0, 0, 0, 0;
    }

    /**
     * Stores where the input's flags and mask are. A mask longer than a ushort can count is
     * rejected before anything is stored; a negative length wraps as the ushort cast does.
     */
    method Initialize(flags: int, maskOffset: int, maskLength: int) returns (r: Outcome)
      requires Valid()
      modifies this
      ensures Valid()
      ensures maskLength > USHORT_MAX ==> r == Fail(ArgumentOutOfRange) && unchanged(this)
      ensures maskLength <= USHORT_MAX ==>
        && r == Pass
        && this.flags == flags && this.maskOffset == maskOffset
        && this.maskLength == maskLength % (USHORT_MAX + 1) && index == 0
    {
      if maskLength > USHORT_MAX {
        return Fail(ArgumentOutOfRange);
      }
      this.flags := flags;
      this.maskOffset := maskOffset;
      this.maskLength := maskLength % (USHORT_MAX + 1);
      index := 0;
      r := Pass;
    }

    /**
     * Copies the BitArray into the mask slice: byte i of the slice gets bits 8i..8i+7. The
     * BitArray must fit the `maskLength / 4 + 4` ints of the staging buffer.
     */
    method UpdateMask(arena: array<bv8>, bits: seq<bool>)
      requires Valid()
      requires 0 <= flags + maskOffset && flags + maskOffset + maskLength <= arena.Length
      requires |bits| <= 32 * (maskLength / 4 + 4)
      modifies arena
      ensures arena[..] == WithMask(old(arena[..]), flags + maskOffset, maskLength, bits)
    {
      var tmp := Staging(bits, maskLength / 4 + 4);
      var p := flags + maskOffset;
      var i := 0;
      while i < maskLength
        invariant 0 <= i <= maskLength
        invariant forall j | 0 <= j < arena.Length ::
          arena[j] == if p <= j < p + i then StagedByte(bits, j - p) else old(arena[j])
      {
        arena[p + i] := tmp[i];
        i := i + 1;
      }
      assert forall j | 0 <= j < arena.Length :: arena[..][j] == WithMask(old(arena[..]), p, maskLength, bits)[j];
    }

    /**
     * ORs the mask slice into the flag slice: eight bytes at a time while more than eight remain,
     * then one byte at a time. The result is the bytewise OR, whatever the length.
     */
    method Pulse(arena: array<bv8>)
      requires Valid() && Fits(arena.Length)
      modifies this, arena
      ensures Valid()
      ensures flags == old(flags) && maskOffset == old(maskOffset) && maskLength == old(maskLength)
      ensures index == maskLength
      ensures arena[..] == OrInto(old(arena[..]), flags, flags + maskOffset, maskLength)
    {
      ghost var s0 := arena[..];
      var dst, src, n := flags, flags + maskOffset, maskLength;
      index := 0;
      while index < n - 8
        invariant Valid() && 0 <= index <= n
        invariant flags == dst && maskOffset == src - dst && maskLength == n
        invariant arena[..] == OrInto(s0, dst, src, index)
      {
        WordPass(arena, s0, dst, src, n, index);
        index := index + 8;
      }
      while index < n
        invariant Valid() && 0 <= index <= n
        invariant flags == dst && maskOffset == src - dst && maskLength == n
        invariant arena[..] == OrInto(s0, dst, src, index)
      {
        BytePass(arena, s0, dst, src, n, index);
        index := index + 1;
      }
    }
  }
}
