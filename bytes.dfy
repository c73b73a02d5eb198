/**
 * Byte-level views of machine words. The engine reads and writes `ulong` (8 bytes) and `uint`
 * (4 bytes) values at arbitrary byte addresses of the arena; on the little-endian machines the
 * engine targets, byte k of such a word is bits 8k..8k+7 of its value.
 */
module Bytes {

  /** `w >> (8 * k)` with a literal shift amount for each k. */
  function Shr64(w: bv64, k: nat): bv64
    requires k < 8
  {
    if k == 0 then w else if k == 1 then w >> 8 else if k == 2 then w >> 16
    else if k == 3 then w >> 24 else if k == 4 then w >> 32 else if k == 5 then w >> 40
    else if k == 6 then w >> 48 else w >> 56
  }

  /** Byte k (least significant first) of a 64-bit word. */
  function ByteOf64(w: bv64, k: nat): bv8
    requires k < 8
  {
    (Shr64(w, k) & 0xFF) as bv8
  }

  /** The `ulong` stored little-endian in s[p..p+8]. */
  function Load64(s: seq<bv8>, p: int): bv64
    requires 0 <= p && p + 8 <= |s|
  {
    (s[p] as bv64) | ((s[p + 1] as bv64) << 8) | ((s[p + 2] as bv64) << 16)
    | ((s[p + 3] as bv64) << 24) | ((s[p + 4] as bv64) << 32) | ((s[p + 5] as bv64) << 40)
    | ((s[p + 6] as bv64) << 48) | ((s[p + 7] as bv64) << 56)
  }

  /** Byte by byte, the OR of the words loaded at a and at b is the OR of the bytes at a and at b. */
  lemma OrOfLoads(s: seq<bv8>, a: int, b: int)
    requires 0 <= a && a + 8 <= |s| && 0 <= b && b + 8 <= |s|
    ensures var w := Load64(s, a) | Load64(s, b);
      && ByteOf64(w, 0) == s[a] | s[b] && ByteOf64(w, 1) == s[a + 1] | s[b + 1]
      && ByteOf64(w, 2) == s[a + 2] | s[b + 2] && ByteOf64(w, 3) == s[a + 3] | s[b + 3]
      && ByteOf64(w, 4) == s[a + 4] | s[b + 4] && ByteOf64(w, 5) == s[a + 5] | s[b + 5]
      && ByteOf64(w, 6) == s[a + 6] | s[b + 6] && ByteOf64(w, 7) == s[a + 7] | s[b + 7]
  {
  }

  /** Two sequences of eight elements that agree at each position are equal. */
  lemma EightEqual<T>(r: seq<T>, u: seq<T>)
    requires |r| == |u| == 8
    requires r[0] == u[0] && r[1] == u[1] && r[2] == u[2] && r[3] == u[3]
    requires r[4] == u[4] && r[5] == u[5] && r[6] == u[6] && r[7] == u[7]
    ensures r == u
  {
    forall k | 0 <= k < 8
      ensures r[k] == u[k]
    {
      if k == 0 {} else if k == 1 {} else if k == 2 {} else if k == 3 {}
      else if k == 4 {} else if k == 5 {} else if k == 6 {} else {}
    }
  }

  /** `w >> (8 * k)` for a 32-bit word. */
  function Shr32(w: bv32, k: nat): bv32
    requires k < 4
  {
    if k == 0 then w else if k == 1 then w >> 8 else if k == 2 then w >> 16 else w >> 24
  }

  /** Byte k (least significant first) of a 32-bit word. */
  function ByteOf32(w: bv32, k: nat): bv8
    requires k < 4
  {
    (Shr32(w, k) & 0xFF) as bv8
  }

  /** The `uint` stored little-endian in s[p..p+4]. */
  function Load32(s: seq<bv8>, p: int): bv32
    requires 0 <= p && p + 4 <= |s|
  {
    (s[p] as bv32) | ((s[p + 1] as bv32) << 8) | ((s[p + 2] as bv32) << 16) | ((s[p + 3] as bv32) << 24)
  }

  /** The byte mask `1 << k`, for a bit position 0..7. */
  function BitMask(k: nat): (m: bv8)
    requires k < 8
  {
    if k == 0 then 0x01 else if k == 1 then 0x02 else if k == 2 then 0x04 else if k == 3 then 0x08
    else if k == 4 then 0x10 else if k == 5 then 0x20 else if k == 6 then 0x40 else 0x80
  }

  /** Whether bit k of byte b is 1. */
  predicate BitSet(b: bv8, k: nat)
    requires k < 8
  {
    b & BitMask(k) != 0
  }

  /** Two bytes are equal exactly when they agree on each of their eight bits. */
  lemma BytesEqualByBits(a: bv8, b: bv8)
    requires forall k | 0 <= k < 8 :: BitSet(a, k) == BitSet(b, k)
    ensures a == b
  {
    assert BitSet(a, 0) == BitSet(b, 0) && BitSet(a, 1) == BitSet(b, 1);
    assert BitSet(a, 2) == BitSet(b, 2) && BitSet(a, 3) == BitSet(b, 3);
    assert BitSet(a, 4) == BitSet(b, 4) && BitSet(a, 5) == BitSet(b, 5);
    assert BitSet(a, 6) == BitSet(b, 6) && BitSet(a, 7) == BitSet(b, 7);
  }

  /** Reading a 32-bit word back byte by byte gives the bytes it was loaded from. */
  lemma ByteOfLoad32(s: seq<bv8>, p: int, k: nat)
    requires 0 <= p && p + 4 <= |s| && k < 4
    ensures ByteOf32(Load32(s, p), k) == s[p + k]
  {
    if k == 0 {} else if k == 1 {} else if k == 2 {} else {}
  }

  /** Clearing the bits of a byte mask in a 32-bit word changes its byte 0 only. */
  lemma ByteOfClearWord(x: bv32, m: bv8, k: nat)
    requires k < 4
    ensures ByteOf32(x & !(m as bv32), k) == if k == 0 then ByteOf32(x, 0) & !m else ByteOf32(x, k)
  {
    if k == 0 {} else if k == 1 {} else if k == 2 {} else {}
  }

  /**
   * Clearing the bits of a byte mask in a 32-bit word loaded from s[p..p+4] changes byte 0 only,
   * and clears exactly those bits there.
   */
  lemma ByteOfClear32(s: seq<bv8>, p: int, m: bv8, k: nat)
    requires 0 <= p && p + 4 <= |s| && k < 4
    ensures ByteOf32(Load32(s, p) & !(m as bv32), k) == if k == 0 then s[p] & !m else s[p + k]
  {
    ByteOfClearWord(Load32(s, p), m, k);
    ByteOfLoad32(s, p, 0);
    ByteOfLoad32(s, p, k);
  }

  /** The eight bytes of a 64-bit word, least significant first. */
  function Bytes64(w: bv64): (r: seq<bv8>)
    ensures |r| == 8
  {
    seq(8, k requires 0 <= k < 8 => ByteOf64(w, k))
  }

  /** The four bytes of a 32-bit word, least significant first. */
  function Bytes32(w: bv32): (r: seq<bv8>)
    ensures |r| == 4
  {
    [ByteOf32(w, 0), ByteOf32(w, 1), ByteOf32(w, 2), ByteOf32(w, 3)]
  }

  /** `*(ulong*)(a + p) = w`: writes the eight bytes of w, least significant first. */
  method Store64(a: array<bv8>, p: int, w: bv64)
    requires 0 <= p && p + 8 <= a.Length
    modifies a
    ensures forall i | 0 <= i < a.Length :: a[i] == if p <= i < p + 8 then Bytes64(w)[i - p] else old(a[i])
  {
    a[p] := ByteOf64(w, 0);
    a[p + 1] := ByteOf64(w, 1);
    a[p + 2] := ByteOf64(w, 2);
    a[p + 3] := ByteOf64(w, 3);
    a[p + 4] := ByteOf64(w, 4);
    a[p + 5] := ByteOf64(w, 5);
    a[p + 6] := ByteOf64(w, 6);
    a[p + 7] := ByteOf64(w, 7);
  }

  /** `*(uint*)(a + p) = w`: writes the four bytes of w, least significant first. */
  method Store32(a: array<bv8>, p: int, w: bv32)
    requires 0 <= p && p + 4 <= a.Length
    modifies a
    ensures forall i | 0 <= i < a.Length :: a[i] == if p <= i < p + 4 then Bytes32(w)[i - p] else old(a[i])
  {
    a[p] := ByteOf32(w, 0);
    a[p + 1] := ByteOf32(w, 1);
    a[p + 2] := ByteOf32(w, 2);
    a[p + 3] := ByteOf32(w, 3);
  }

  /** The bytes of a loaded word with the bits of m cleared: byte 0 loses them, the rest stay. */
  lemma ClearedBytes(s: seq<bv8>, p: int, m: bv8)
    requires 0 <= p && p + 4 <= |s|
    ensures Bytes32(Load32(s, p) & !(m as bv32)) == [s[p] & !m, s[p + 1], s[p + 2], s[p + 3]]
  {
    var w := Load32(s, p) & !(m as bv32);
    ByteOfClear32(s, p, m, 0);
    ByteOfClear32(s, p, m, 1);
    ByteOfClear32(s, p, m, 2);
    ByteOfClear32(s, p, m, 3);
  }

  /** `*(uint*)(s + p) & ~m`, described by its four bytes. */
  method LoadCleared32(s: seq<bv8>, p: int, m: bv8) returns (w: bv32)
    requires 0 <= p && p + 4 <= |s|
    ensures Bytes32(w) == [s[p] & !m, s[p + 1], s[p + 2], s[p + 3]]
  {
    w := Load32(s, p) & !(m as bv32);
    ClearedBytes(s, p, m);
  }

  /**
   * `*(uint*)(a + p) = *(uint*)(a + p) & ~m`: one 32-bit read-modify-write that clears the bits
   * of the byte mask m in the byte at p and writes the next three bytes back unchanged.
   */
  method ClearWord(a: array<bv8>, p: int, m: bv8)
    requires 0 <= p && p + 4 <= a.Length
    modifies a
    ensures a[..] == old(a[..])[p := old(a[p]) & !m]
  {
    ghost var s := a[..];
    var w := LoadCleared32(a[..], p, m);
    Store32(a, p, w);
    assert a[..] == s[p := s[p] & !m];
  }
}
