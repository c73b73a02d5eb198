/**
 * PulseProbe: the 4-byte record an output reads its flag through. Its word packs, from the top,
 * a 3-bit bit index (bits 29-31), a sign bit (bit 28) and a 28-bit magnitude: the flag byte lies
 * at the probe's own address plus or minus the magnitude, and the flag is bit `index` of it.
 */
module Probes {
  import opened Wrappers
  import opened Bytes
  import opened UintBits

  const SHIFT_MASK: nat := 29
  const SHIFT_SIGN_OFFSET: nat := 28
  const SIGN_OFFSET_MASK: int := 0x1000_0000
  const OFFSET_MASK: int := 0x0FFF_FFFF
  /** `sizeof(PulseProbe)`. */
  const PROBE_SIZE: int := 4

  /** The bit index of a single-bit byte mask; None for any other value. */
  function MaskCode(mask: int): (c: Option<nat>)
    ensures c.Some? ==> c.value < 8 && Pow2(c.value) == mask
  {
    if mask == 0x1 then Some(0) else if mask == 0x2 then Some(1) else if mask == 0x4 then Some(2)
    else if mask == 0x8 then Some(3) else if mask == 0x10 then Some(4) else if mask == 0x20 then Some(5)
    else if mask == 0x40 then Some(6) else if mask == 0x80 then Some(7) else None
  }

  /** The accepted masks are exactly the powers of two 2^0 .. 2^7. */
  lemma MaskCodeComplete(c: nat)
    requires c < 8
    ensures MaskCode(Pow2(c)) == Some(c)
  {
    if c == 0 {} else if c == 1 {} else if c == 2 {} else if c == 3 {}
    else if c == 4 {} else if c == 5 {} else if c == 6 {} else {
      assert Pow2(7) == 128;
    }
  }

  function Abs(x: int): nat
  {
    if x < 0 then -x else x
  }

  /** GetMask: `1u << (int)(w >> SHIFT_MASK)`. */
  function MaskOf(w: u32): nat
  {
    Pow2(w / 0x2000_0000)
  }

  /** `(w & SIGN_OFFSET_MASK) == SIGN_OFFSET_MASK`: the flag byte lies below the probe. */
  predicate Negative(w: u32)
  {
    (w / 0x1000_0000) % 2 == 1
  }

  /** `w & OFFSET_MASK`: the distance between the probe and its flag byte. */
  function Magnitude(w: u32): nat
  {
    w % 0x1000_0000
  }

  /** GetFlags for a probe at address `self`. */
  function FlagsOf(w: u32, self: int): int
  {
    if Negative(w) then self - Magnitude(w) else self + Magnitude(w)
  }

  /** The documented layout: bit index in bits 29-31, sign in bit 28, |offset| below. */
  function Encode(code: nat, offset: int): int
  {
    code * 0x2000_0000 + (if offset < 0 then 0x1000_0000 else 0) + Abs(offset)
  }

  /** What the three assignments of Initialize leave in the word: the bit index, then `|=` the
      sign, then `|=` the magnitude truncated to a uint. */
  function Assembled(code: nat, offset: int): nat
  {
    BitOr(BitOr(code * 0x2000_0000, (if offset < 0 then 1 else 0) * 0x1000_0000), Abs(offset) % 0x1_0000_0000)
  }

  /** Decoding inverts encoding for every bit index and every offset of at most 28 bits. */
  lemma EncodeRoundTrip(code: nat, offset: int, self: int)
    requires code < 8 && -OFFSET_MASK <= offset <= OFFSET_MASK
    ensures 0 <= Encode(code, offset) < 0x1_0000_0000
    ensures MaskOf(Encode(code, offset)) == Pow2(code)
    ensures FlagsOf(Encode(code, offset), self) == self + offset
  {
    var w := Encode(code, offset);
    var s := if offset < 0 then 1 else 0;
    assert w == 0x2000_0000 * code + (0x1000_0000 * s + Abs(offset));
    DivModUnique(w, 0x2000_0000, code, 0x1000_0000 * s + Abs(offset));
    DivModUnique(w, 0x1000_0000, 2 * code + s, Abs(offset));
    DivModUnique(2 * code + s, 2, code, s);
    assert Negative(w) <==> s == 1;
    assert Magnitude(w) == Abs(offset);
  }

  /**
   * Every word except "minus zero" (sign set, magnitude 0) is the encoding of what it decodes
   * to, so the decoding loses nothing.
   */
  lemma DecodeEncode(w: u32)
    requires !(Negative(w) && Magnitude(w) == 0)
    ensures Encode(w / 0x2000_0000, FlagsOf(w, 0)) == w
  {
    var c, s, m := w / 0x2000_0000, (w / 0x1000_0000) % 2, w % 0x1000_0000;
    assert w / 0x1000_0000 == 2 * c + s;
  }

  /** GetMask always yields a single bit 1 << k with k <= 7. */
  lemma MaskOfSingleBit(w: u32)
    ensures w / 0x2000_0000 < 8
    ensures MaskCode(MaskOf(w)) == Some(w / 0x2000_0000)
  {
    MaskCodeComplete(w / 0x2000_0000);
  }

  /** The sign bit is bit 28 of the word. */
  lemma NegativeIsBit28(w: u32)
    ensures Negative(w) <==> Bit(w, SHIFT_SIGN_OFFSET)
  {
    Pow2Values();
  }

  /** The bit index and the sign occupy disjoint bits, so OR-ing them adds them. */
  lemma OrHigh(code: nat, sign: nat)
    requires code < 8 && sign <= 1
    ensures BitOr(code * 0x2000_0000, sign * 0x1000_0000) == code * 0x2000_0000 + sign * 0x1000_0000
  {
    Pow2Values();
    DivModUnique(code * 0x2000_0000, 0x2000_0000, code, 0);
    BitOrDisjoint(code * 0x2000_0000, sign * 0x1000_0000, 29);
  }

  /** OR-ing a value below 2^28 into a word with clear low 28 bits adds it. */
  lemma OrLowFits(w: nat, a: nat)
    requires w % 0x1000_0000 == 0 && a < 0x1000_0000
    ensures BitOr(w, a) == w + a
  {
    Pow2Values();
    BitOrDisjoint(w, a, 28);
  }

  /** OR-ing any value into a word with clear low 28 bits leaves the value's low 28 bits there. */
  lemma OrLowMagnitude(w: nat, a: nat)
    requires w % 0x1000_0000 == 0
    ensures BitOr(w, a) % 0x1000_0000 == a % 0x1000_0000
  {
    Pow2Values();
    BitOrLow(w, a, 28);
    BitOrZero(a % Pow2(28));
  }

  /** Bit 28 of `w | a` is set iff it is set in w or in a. */
  lemma OrSignBit(w: nat, a: nat)
    ensures (BitOr(w, a) / 0x1000_0000) % 2 == 1 <==> (w / 0x1000_0000) % 2 == 1 || (a / 0x1000_0000) % 2 == 1
  {
    Pow2Values();
    BitOrBit(w, a, 28);
  }

  /** `|` keeps uint values uints. */
  lemma OrBound32(x: nat, y: nat)
    requires x < 0x1_0000_0000 && y < 0x1_0000_0000
    ensures BitOr(x, y) < 0x1_0000_0000
  {
    Pow2Values();
    BitOrBound(x, y, 32);
  }

  /**
   * The word Initialize assembles is a uint, and it decodes back to the mask and to the flags
   * address exactly when the offset fits 28 bits; for any larger offset the guard lets through,
   * the sign bit is corrupted or the magnitude is truncated, and GetFlags misses.
   */
  lemma AssembledRoundTrip(code: nat, offset: int, self: int)
    requires code < 8 && offset < OFFSET_MASK + PROBE_SIZE
    ensures Assembled(code, offset) < 0x1_0000_0000
    ensures -OFFSET_MASK <= offset <= OFFSET_MASK ==> Assembled(code, offset) == Encode(code, offset)
    ensures (MaskOf(Assembled(code, offset)) == Pow2(code) && FlagsOf(Assembled(code, offset), self) == self + offset)
            <==> -OFFSET_MASK <= offset <= OFFSET_MASK
  {
    var s := if offset < 0 then 1 else 0;
    var a := Abs(offset) % 0x1_0000_0000;
    var w2 := code * 0x2000_0000 + s * 0x1000_0000;
    OrHigh(code, s);
    DivModUnique(w2, 0x1000_0000, 2 * code + s, 0);
    OrBound32(w2, a);
    var w := BitOr(w2, a);
    assert w == Assembled(code, offset);
    if -OFFSET_MASK <= offset <= OFFSET_MASK {
      DivModUnique(Abs(offset), 0x1_0000_0000, 0, Abs(offset));
      OrLowFits(w2, a);
      EncodeRoundTrip(code, offset, self);
    } else {
      AssembledMisses(code, offset, self);
    }
  }

  /** An offset past 28 bits that the guard lets through gives a word that misses its mask or its flags. */
  lemma AssembledMisses(code: nat, offset: int, self: int)
    requires code < 8 && offset < OFFSET_MASK + PROBE_SIZE && !(-OFFSET_MASK <= offset <= OFFSET_MASK)
    ensures Assembled(code, offset) < 0x1_0000_0000
    ensures !(MaskOf(Assembled(code, offset)) == Pow2(code) && FlagsOf(Assembled(code, offset), self) == self + offset)
  {
    var s := if offset < 0 then 1 else 0;
    var a := Abs(offset) % 0x1_0000_0000;
    var w2 := code * 0x2000_0000 + s * 0x1000_0000;
    OrHigh(code, s);
    DivModUnique(w2, 0x1000_0000, 2 * code + s, 0);
    OrBound32(w2, a);
    var w := BitOr(w2, a);
    assert w == Assembled(code, offset);
    OrLowMagnitude(w2, a);
    OrSignBit(w2, a);
    if offset < 0 {
      DivModUnique(2 * code + 1, 2, code, 1);
      var q, q2, r := Abs(offset) / 0x1_0000_0000, a / 0x1000_0000, a % 0x1000_0000;
      assert Abs(offset) == 0x1_0000_0000 * q + a;
      assert a == 0x1000_0000 * q2 + r;
      assert Abs(offset) == 0x1000_0000 * (16 * q + q2) + r;
      DivModUnique(Abs(offset), 0x1000_0000, 16 * q + q2, r);
      assert Magnitude(w) == r < Abs(offset);
    } else {
      DivModUnique(Abs(offset), 0x1_0000_0000, 0, offset);
      DivModUnique(a, 0x1000_0000, 1, offset - 0x1000_0000);
    }
    assert Negative(w);
  }

  /** The byte mask of bit c is 2^c. */
  lemma BitMaskIsPow2(c: nat)
    requires c < 8
    ensures BitMask(c) as int == Pow2(c)
  {
    if c == 0 {} else if c == 1 {} else if c == 2 {} else if c == 3 {}
    else if c == 4 {} else if c == 5 {} else if c == 6 {} else {
      assert Pow2(7) == 128;
    }
  }

  /** `(mask & b) == mask` for a single-bit mask tests that one bit. */
  lemma MaskTestIsBit(b: bv8, c: nat)
    requires c < 8
    ensures (b & BitMask(c) == BitMask(c)) <==> BitSet(b, c)
  {
    if c == 0 {} else if c == 1 {} else if c == 2 {} else if c == 3 {}
    else if c == 4 {} else if c == 5 {} else if c == 6 {} else {}
  }

  /** Clearing bit c of a byte changes that bit only. */
  lemma ClearOnlyBit(b: bv8, c: nat, k: nat)
    requires c < 8 && k < 8
    ensures BitSet(b & !BitMask(c), k) <==> k != c && BitSet(b, k)
  {
    if c == 0 {} else if c == 1 {} else if c == 2 {} else if c == 3 {}
    else if c == 4 {} else if c == 5 {} else if c == 6 {} else {}
  }

  class PulseProbe {
    /** `Unsafe.AsPointer(ref this)`: the probe's own arena address. */
    var addr: int
    /** `_maskAndOffset`. */
    var word: u32

    constructor (addr: int)
      ensures this.addr == addr && word == 0
    {
      this.addr := addr;
      word := 0;
    }

    /** The bit index the word holds. */
    function Code(): nat
      reads this
    {
      word / 0x2000_0000
    }

    /** The byte mask of the probe's bit: a single bit, the one the code names. */
    function GetMask(): (m: nat)
      reads this
      ensures Code() < 8 && MaskCode(m) == Some(Code())
    {
      MaskOfSingleBit(word);
      MaskOf(word)
    }

    /** The flag byte: within OFFSET_MASK bytes of the probe, and below it only when the sign bit is set. */
    function GetFlags(): (f: int)
      reads this
      ensures addr - OFFSET_MASK <= f <= addr + OFFSET_MASK
      ensures f < addr ==> Negative(word)
    {
      FlagsOf(word, addr)
    }

    /** IsOn: the masked bits of the flag byte are all set, that is, the probe's flag bit is set. */
    function IsOn(arena: array<bv8>): (on: bool)
      reads this, arena
      requires 0 <= GetFlags() < arena.Length
      ensures on <==> BitSet(arena[GetFlags()], Code())
    {
      MaskOfSingleBit(word);
      MaskTestIsBit(arena[GetFlags()], Code());
      arena[GetFlags()] & BitMask(Code()) == BitMask(Code())
    }

    /**
     * Points the probe at bit `mask` of the byte at `flags`. A mask other than a single bit of
     * a byte, or a flags address at least `OFFSET_MASK + PROBE_SIZE` above the probe, is out of
     * range; any other offset that does not fit 28 bits fails the round-trip check.
     */
    method Initialize(flags: int, mask: int) returns (r: Outcome)
      modifies this
      ensures addr == old(addr)
      ensures r == Pass <==> MaskCode(mask).Some? && -OFFSET_MASK <= flags - addr <= OFFSET_MASK
      ensures r == Fail(ArgumentOutOfRange) <==> MaskCode(mask).None? || flags - addr >= OFFSET_MASK + PROBE_SIZE
      ensures r.Pass? || r == Fail(ArgumentOutOfRange) || r == Fail(InvalidData)
      ensures r == Pass ==> word == Encode(MaskCode(mask).value, flags - addr)
      ensures r == Pass ==> GetMask() == mask && GetFlags() == flags
      ensures MaskCode(mask).None? ==> word == old(word)
    {
      var known := MaskCode(mask);
      if known.None? {
        return Fail(ArgumentOutOfRange);
      }
      var code := known.value;
      word := code * 0x2000_0000;
      var offset := flags - addr;
      if offset >= OFFSET_MASK + PROBE_SIZE {
        return Fail(ArgumentOutOfRange);
      }
      AssembledRoundTrip(code, offset, addr);
      Pow2Values();
      BitOrBound(word, (if offset < 0 then 1 else 0) * 0x1000_0000, 32);
      word := BitOr(word, (if offset < 0 then 1 else 0) * 0x1000_0000);
      word := BitOr(word, Abs(offset) % 0x1_0000_0000);
      if mask != GetMask() || flags != GetFlags() {
        return Fail(InvalidData);
      }
      r := Pass;
    }

    /**
     * SetOff: rewrites the uint at the flag byte with the mask bit cleared. Only that bit of
     * that byte changes; the other three bytes are written back as they were read.
     */
    method SetOff(arena: array<bv8>)
      requires 0 <= GetFlags() && GetFlags() + 4 <= arena.Length
      modifies arena
      ensures Code() < 8
      ensures arena[..] == old(arena[..])[GetFlags() := old(arena[GetFlags()]) & !BitMask(Code())]
      ensures !IsOn(arena)
    {
      MaskOfSingleBit(word);
      var f := GetFlags();
      ghost var s := arena[..];
      ClearWord(arena, f, BitMask(Code()));
      MaskTestIsBit(arena[f], Code());
      ClearOnlyBit(s[f], Code(), Code());
    }
  }

  /** After SetOff, IsOn is false and every other flag bit of the byte is as before. */
  lemma SetOffClearsOnlyTarget(before: bv8, c: nat)
    requires c < 8
    ensures !BitSet(before & !BitMask(c), c)
    ensures forall k | 0 <= k < 8 && k != c :: BitSet(before & !BitMask(c), k) == BitSet(before, k)
    ensures (before & !BitMask(c)) & !BitMask(c) == before & !BitMask(c)
  {
    forall k | 0 <= k < 8
      ensures BitSet(before & !BitMask(c), k) <==> k != c && BitSet(before, k)
    {
      ClearOnlyBit(before, c, k);
    }
  }
}
