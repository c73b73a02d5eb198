/** Bit helpers: the bits-per-byte constant and the two debug serialisers. */
module Tools {
  import opened Bytes

  const NB_BITS_PER_BYTE: int := 8

  /** The masks SerializeBits(byte*, int) tests in each byte, in the order it tests them;
      0x40 is not among them. */
  const ReadMasks: seq<bv8> := [0x01, 0x02, 0x04, 0x08, 0x10, 0x20, 0x80]

  /** '1' when every bit of m is set in b, else '0'. */
  function BitChar(b: bv8, m: bv8): char
  {
    if b & m == m then '1' else '0'
  }

  /** The seven characters appended for one byte. */
  function ByteChars(b: bv8): string
  {
    seq(7, k requires 0 <= k < 7 => BitChar(b, ReadMasks[k]))
  }

  lemma ByteCharsUnfold(b: bv8)
    ensures ByteChars(b) == [BitChar(b, 0x01), BitChar(b, 0x02), BitChar(b, 0x04), BitChar(b, 0x08),
                             BitChar(b, 0x10), BitChar(b, 0x20), BitChar(b, 0x80)]
  {
  }

  /** What the StringBuilder holds after the loop over `bytes`, before reversal. */
  function Appended(bytes: seq<bv8>): string
  {
    if |bytes| == 0 then "" else Appended(bytes[..|bytes| - 1]) + ByteChars(bytes[|bytes| - 1])
  }

  function Reversed(s: string): (r: string)
    ensures |r| == |s|
    ensures forall i | 0 <= i < |s| :: r[i] == s[|s| - 1 - i]
  {
    seq(|s|, i requires 0 <= i < |s| => s[|s| - 1 - i])
  }

  /** Character 7i+k of the appended text tests mask ReadMasks[k] of byte i. */
  lemma {:induction false} AppendedAt(bytes: seq<bv8>, i: nat, k: nat)
    requires i < |bytes| && k < 7
    ensures |Appended(bytes)| == 7 * |bytes|
    ensures Appended(bytes)[7 * i + k] == BitChar(bytes[i], ReadMasks[k])
  {
    var n := |bytes|;
    var init := bytes[..n - 1];
    if n == 1 {
      assert init == [];
    } else if i < n - 1 {
      AppendedAt(init, i, k);
    } else {
      AppendedAt(init, 0, 0);
    }
  }

  /** Appended text has 7 characters per byte. */
  lemma {:induction false} AppendedLength(bytes: seq<bv8>)
    ensures |Appended(bytes)| == 7 * |bytes|
  {
    if |bytes| > 0 {
      AppendedLength(bytes[..|bytes| - 1]);
    }
  }

  /** Every character of the reversed text is the test of one read mask of one byte. */
  lemma SerializedChars(bytes: seq<bv8>)
    ensures |Reversed(Appended(bytes))| == 7 * |bytes|
    ensures forall j | 0 <= j < 7 * |bytes| ::
      Reversed(Appended(bytes))[j] == BitChar(bytes[(7 * |bytes| - 1 - j) / 7], ReadMasks[(7 * |bytes| - 1 - j) % 7])
  {
    var n := |bytes|;
    AppendedLength(bytes);
    forall j | 0 <= j < 7 * n
      ensures Reversed(Appended(bytes))[j] == BitChar(bytes[(7 * n - 1 - j) / 7], ReadMasks[(7 * n - 1 - j) % 7])
    {
      var t := 7 * n - 1 - j;
      assert 0 <= t / 7 < n;
      AppendedAt(bytes, t / 7, t % 7);
      assert 7 * (t / 7) + t % 7 == t;
    }
  }

  /**
   * SerializeBits(byte* p, int length) over the `length` bytes at p: seven characters per byte,
   * '1' for a set bit, and the whole text reversed.
   */
  method SerializeBits(bytes: seq<bv8>) returns (r: string)
    ensures r == Reversed(Appended(bytes))
    ensures |r| == 7 * |bytes|
    ensures forall j | 0 <= j < |r| :: r[j] in "01"
    ensures forall j | 0 <= j < |r| ::
      r[j] == BitChar(bytes[(7 * |bytes| - 1 - j) / 7], ReadMasks[(7 * |bytes| - 1 - j) % 7])
  {
    var sb := "";
    var i := 0;
    while i < |bytes|
      invariant 0 <= i <= |bytes|
      invariant sb == Appended(bytes[..i])
    {
      var b := bytes[i];
      // the seven Append calls, in order
      sb := sb + [BitChar(b, 0x01), BitChar(b, 0x02), BitChar(b, 0x04), BitChar(b, 0x08),
                  BitChar(b, 0x10), BitChar(b, 0x20), BitChar(b, 0x80)];
      ByteCharsUnfold(b);
      assert bytes[..i + 1][..i] == bytes[..i];
      i := i + 1;
    }
    assert bytes[..i] == bytes;
    r := Reversed(sb);
    SerializedChars(bytes);
    assert forall j | 0 <= j < |r| :: r[j] == BitChar(bytes[(7 * |bytes| - 1 - j) / 7], ReadMasks[(7 * |bytes| - 1 - j) % 7]);
  }

  /** Bit 0x40 never reaches the text: bytes that differ only in that bit serialise alike. */
  lemma {:induction false} Bit40Ignored(a: seq<bv8>, b: seq<bv8>)
    requires |a| == |b|
    requires forall i | 0 <= i < |a| :: a[i] | 0x40 == b[i] | 0x40
    ensures Appended(a) == Appended(b)
  {
    if |a| > 0 {
      var n := |a|;
      Bit40Ignored(a[..n - 1], b[..n - 1]);
      var x, y := a[n - 1], b[n - 1];
      assert x | 0x40 == y | 0x40;
      assert forall k | 0 <= k < 7 :: BitChar(x, ReadMasks[k]) == BitChar(y, ReadMasks[k]);
      assert ByteChars(x) == ByteChars(y);
    }
  }

  /** The eight characters a byte evidently should give: bit k read k-th, 0x40 included. */
  function ByteCharsAll(b: bv8): string
  {
    seq(8, k requires 0 <= k < 8 => BitChar(b, BitMask(k)))
  }

  /** The text before reversal with every bit read: eight characters per byte. */
  function AppendedAll(bytes: seq<bv8>): string
  {
    if |bytes| == 0 then "" else AppendedAll(bytes[..|bytes| - 1]) + ByteCharsAll(bytes[|bytes| - 1])
  }

  /** Character 8i+k of the corrected text tests bit k of byte i. */
  lemma {:induction false} AppendedAllAt(bytes: seq<bv8>, i: nat, k: nat)
    requires i < |bytes| && k < 8
    ensures |AppendedAll(bytes)| == 8 * |bytes|
    ensures AppendedAll(bytes)[8 * i + k] == BitChar(bytes[i], BitMask(k))
  {
    var n := |bytes|;
    var init := bytes[..n - 1];
    if n == 1 {
      assert init == [];
    } else if i < n - 1 {
      AppendedAllAt(init, i, k);
    } else {
      AppendedAllAt(init, 0, 0);
    }
  }

  /** The character of a single-bit mask is '1' exactly when that bit is set. */
  lemma BitCharIsBit(b: bv8, k: nat)
    requires k < 8
    ensures BitChar(b, BitMask(k)) == '1' <==> BitSet(b, k)
  {
  }

  /**
   * SerializeBits with every bit read: eight characters per byte, '1' for a set bit, and
   * the whole text reversed.
   */
  method SerializeAllBits(bytes: seq<bv8>) returns (r: string)
    ensures r == Reversed(AppendedAll(bytes))
  {
    var sb := "";
    var i := 0;
    while i < |bytes|
      invariant 0 <= i <= |bytes|
      invariant sb == AppendedAll(bytes[..i])
    {
      sb := sb + ByteCharsAll(bytes[i]);
      assert bytes[..i + 1][..i] == bytes[..i];
      i := i + 1;
    }
    assert bytes[..i] == bytes;
    r := Reversed(sb);
  }

  /** With every bit read the text determines the bytes: equal texts come from equal bytes. */
  lemma {:induction false} AllBitsDetermineBytes(a: seq<bv8>, b: seq<bv8>)
    requires Reversed(AppendedAll(a)) == Reversed(AppendedAll(b))
    ensures a == b
  {
    var x, y := AppendedAll(a), AppendedAll(b);
    if |a| > 0 {
      AppendedAllAt(a, 0, 0);
    }
    if |b| > 0 {
      AppendedAllAt(b, 0, 0);
    }
    assert |x| == 8 * |a| && |y| == 8 * |b|;
    assert |a| == |b|;
    forall j | 0 <= j < |x|
      ensures x[j] == y[j]
    {
      assert Reversed(x)[|x| - 1 - j] == Reversed(y)[|y| - 1 - j];
    }
    forall i | 0 <= i < |a|
      ensures a[i] == b[i]
    {
      forall k | 0 <= k < 8
        ensures BitSet(a[i], k) == BitSet(b[i], k)
      {
        AppendedAllAt(a, i, k);
        AppendedAllAt(b, i, k);
        assert x[8 * i + k] == y[8 * i + k];
        BitCharIsBit(a[i], k);
        BitCharIsBit(b[i], k);
      }
      BytesEqualByBits(a[i], b[i]);
    }
  }

  /** SerializeBits(BitArray): one character per bit, in bit order, '1' for a true bit. */
  method SerializeBitArray(a: seq<bool>) returns (r: string)
    ensures |r| == |a|
    ensures forall i | 0 <= i < |a| :: (r[i] == '1') == a[i] && (r[i] == '0') == !a[i]
  {
    r := "";
    var i := 0;
    while i < |a|
      invariant 0 <= i <= |a|
      invariant |r| == i
      invariant forall j | 0 <= j < i :: r[j] == (if a[j] then '1' else '0')
    {
      r := r + [if a[i] then '1' else '0'];
      i := i + 1;
    }
  }
}
