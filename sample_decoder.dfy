/** The raw-PCM to float conversion that feeds the Dirac engine: `intToFloat` of the FMOD
    example. Raw buffers are byte sequences laid out as on a little-endian host; the
    integer reassembly is exact, and each float is modelled as the exact real product of
    that integer and the scale constant the source multiplies by. */
module SampleDecoder {
  import opened Buffers

  /** One byte of a raw PCM buffer. */
  type Byte = x: int | 0 <= x < 256

  /** The scale constants, as the decimal literals the source writes (the 16- and 32-bit
      ones are truncated approximations of 2^-15 and 2^-31). */
  const Div8: real := 0.0078125
  const Div16: real := 0.00003051757812
  const Div32: real := 0.00000000046566

  /** The word lengths that have a decoding branch; any other leaves the destination alone. */
  predicate IsSupportedWidth(wordlength: int)
  {
    wordlength == 8 || wordlength == 16 || wordlength == 24 || wordlength == 32
  }

  /** Bytes per sample of a supported word length, `wordlength / 8`. */
  function Width(wordlength: int): nat
    requires IsSupportedWidth(wordlength)
  {
    if wordlength == 8 then 1 else if wordlength == 16 then 2 else if wordlength == 24 then 3 else 4
  }

  /** The number of complete words in `n` bytes, `n / (wordlength / 8)`, written with a
      literal divisor per width. */
  function WordCount(n: nat, wordlength: int): nat
    requires IsSupportedWidth(wordlength)
  {
    if wordlength == 8 then n else if wordlength == 16 then n / 2 else if wordlength == 24 then n / 3 else n / 4
  }

  /** The `signed char` a byte reads as. */
  function SignedByte(b: Byte): int
  {
    if b < 0x80 then b else b - 0x100
  }

  /** The `signed short` two bytes read as, low byte first. */
  function Int16LE(lo: Byte, hi: Byte): int
  {
    var u := lo + 0x100 * hi;
    if u < 0x8000 then u else u - 0x1_0000
  }

  /** The `int32_t` four bytes read as, lowest byte first. */
  function Int32LE(b0: Byte, b1: Byte, b2: Byte, b3: Byte): int
  {
    var u := b0 + 0x100 * b1 + 0x1_0000 * b2 + 0x100_0000 * b3;
    if u < 0x8000_0000 then u else u - 0x1_0000_0000
  }

  /** Reference meaning of a packed 24-bit sample: the two's-complement value of three
      bytes, lowest first. */
  function Signed24(b0: Byte, b1: Byte, b2: Byte): int
  {
    var u := b0 + 0x100 * b1 + 0x1_0000 * b2;
    if u < 0x80_0000 then u else u - 0x100_0000
  }

  /** The integer sample `i` of a raw buffer holds, before scaling. The 24-bit case is the
      source's reassembly: a zero low byte and the three input bytes above it. */
  function SampleInt(bytes: seq<Byte>, wordlength: int, i: nat): (v: int)
    requires IsSupportedWidth(wordlength) && i < WordCount(|bytes|, wordlength)
    ensures -0x8000_0000 <= v < 0x8000_0000
  {
    if wordlength == 8 then SignedByte(bytes[i])
    else if wordlength == 16 then Int16LE(bytes[2 * i], bytes[2 * i + 1])
    else if wordlength == 24 then Int32LE(0, bytes[3 * i], bytes[3 * i + 1], bytes[3 * i + 2])
    else Int32LE(bytes[4 * i], bytes[4 * i + 1], bytes[4 * i + 2], bytes[4 * i + 3])
  }

  /** What the reassembled integers mean: each width's two's-complement range, and for 24-bit
      words the true signed 24-bit value shifted up by 8 bits. The sign of a 24-bit sample is
      therefore carried, through the top byte of the int32. */
  lemma SampleIntMeaning(bytes: seq<Byte>, wordlength: int, i: nat)
    requires IsSupportedWidth(wordlength) && i < WordCount(|bytes|, wordlength)
    ensures wordlength == 8 ==> -0x80 <= SampleInt(bytes, wordlength, i) < 0x80
    ensures wordlength == 16 ==> -0x8000 <= SampleInt(bytes, wordlength, i) < 0x8000
    ensures wordlength == 24 ==>
              SampleInt(bytes, wordlength, i) == Signed24(bytes[3 * i], bytes[3 * i + 1], bytes[3 * i + 2]) * 0x100
    ensures wordlength == 24 || wordlength == 32 ==> -0x8000_0000 <= SampleInt(bytes, wordlength, i) < 0x8000_0000
  {
  }

  /** The scale constant each branch multiplies by (the 24-bit branch uses div32, since its
      integer occupies the upper three bytes of an int32). */
  function Scale(wordlength: int): real
    requires IsSupportedWidth(wordlength)
  {
    if wordlength == 8 then Div8 else if wordlength == 16 then Div16 else Div32
  }

  /** Sample `i` of a raw buffer as the float the source stores: its integer times the scale. */
  function DecodedSample(bytes: seq<Byte>, wordlength: int, i: nat): real
    requires IsSupportedWidth(wordlength) && i < WordCount(|bytes|, wordlength)
  {
    (SampleInt(bytes, wordlength, i) as real) * Scale(wordlength)
  }

  /** The first `n` samples of a raw buffer. */
  function DecodePrefix(bytes: seq<Byte>, wordlength: int, n: nat): (r: seq<real>)
    requires IsSupportedWidth(wordlength) && n <= WordCount(|bytes|, wordlength)
    ensures |r| == n
  {
    if n == 0 then [] else DecodePrefix(bytes, wordlength, n - 1) + [DecodedSample(bytes, wordlength, n - 1)]
  }

  /** The samples a whole raw buffer decodes to: one per complete word, none at all for an
      unsupported word length. */
  function Decode(bytes: seq<Byte>, wordlength: int): (r: seq<real>)
    ensures |r| == if IsSupportedWidth(wordlength) then WordCount(|bytes|, wordlength) else 0
  {
    if IsSupportedWidth(wordlength) then DecodePrefix(bytes, wordlength, WordCount(|bytes|, wordlength)) else []
  }

  /** DecodePrefix holds exactly the first `n` samples, in order. */
  lemma {:induction false} DecodePrefixAt(bytes: seq<Byte>, wordlength: int, n: nat)
    requires IsSupportedWidth(wordlength) && n <= WordCount(|bytes|, wordlength)
    ensures |DecodePrefix(bytes, wordlength, n)| == n
    ensures forall i :: 0 <= i < n ==> DecodePrefix(bytes, wordlength, n)[i] == DecodedSample(bytes, wordlength, i)
  {
    if n > 0 {
      DecodePrefixAt(bytes, wordlength, n - 1);
    }
  }

  /** Decode writes one sample per complete word, and sample i is the i-th word's value. */
  lemma DecodeAt(bytes: seq<Byte>, wordlength: int)
    ensures |Decode(bytes, wordlength)| == if IsSupportedWidth(wordlength) then WordCount(|bytes|, wordlength) else 0
    ensures IsSupportedWidth(wordlength) ==>
              forall i :: 0 <= i < |Decode(bytes, wordlength)| ==> Decode(bytes, wordlength)[i] == DecodedSample(bytes, wordlength, i)
  {
    if IsSupportedWidth(wordlength) {
      DecodePrefixAt(bytes, wordlength, WordCount(|bytes|, wordlength));
    }
  }

  /** The destination a conversion needs room for: the number of elements it writes. */
  function ElementCount(size: nat, wordlength: int): nat
  {
    if IsSupportedWidth(wordlength) then WordCount(size, wordlength) else 0
  }

  /** intToFloat: writes sample i of the raw buffer `src` (its `size` bytes) to
      dest[destOff + i] for each complete word, selecting the branch once per call; an
      unsupported word length writes nothing. `wordlength / 8` must not be zero, since the
      source divides by it. */
  method IntToFloat(dest: array<real>, destOff: nat, src: seq<Byte>, wordlength: int)
    requires wordlength <= -8 || 8 <= wordlength
    requires destOff + ElementCount(|src|, wordlength) <= dest.Length
    modifies dest
    ensures dest[..] == Overwrite(old(dest[..]), destOff, Decode(src, wordlength))
  {
    var size := |src|;
    var wordlengthInBytes := wordlength / 8;
    var numElementsInBuffer := size / wordlengthInBytes;
    if wordlength == 8 {
      Convert8(dest, destOff, src, numElementsInBuffer);
    } else if wordlength == 16 {
      Convert16(dest, destOff, src, numElementsInBuffer);
    } else if wordlength == 24 {
      Convert24(dest, destOff, src, numElementsInBuffer);
    } else if wordlength == 32 {
      Convert32(dest, destOff, src, numElementsInBuffer);
    } else {
      assert dest[..] == Overwrite(old(dest[..]), destOff, []);
    }
  }

  /** Shared ending of the four conversion loops: a destination holding sample k at
      destOff + k for every word, and its old contents elsewhere, is the overwritten buffer. */
  lemma ConvertedIsOverwrite(after: seq<real>, before: seq<real>, destOff: nat, src: seq<Byte>, wordlength: int)
    requires IsSupportedWidth(wordlength)
    requires |after| == |before| && destOff + WordCount(|src|, wordlength) <= |after|
    requires forall k :: 0 <= k < WordCount(|src|, wordlength) ==> after[destOff + k] == DecodedSample(src, wordlength, k)
    requires forall k :: 0 <= k < |after| && !(destOff <= k < destOff + WordCount(|src|, wordlength)) ==> after[k] == before[k]
    ensures after == Overwrite(before, destOff, Decode(src, wordlength))
  {
    DecodeAt(src, wordlength);
    var expected := Overwrite(before, destOff, Decode(src, wordlength));
    forall k | 0 <= k < |after|
      ensures after[k] == expected[k]
    {
      if destOff <= k < destOff + WordCount(|src|, wordlength) {
        assert expected[destOff..destOff + WordCount(|src|, wordlength)][k - destOff] == expected[k];
      }
    }
  }

  /** The 8-bit case of IntToFloat. */
  method Convert8(dest: array<real>, destOff: nat, src: seq<Byte>, numElementsInBuffer: int)
    requires numElementsInBuffer == |src| / 1
    requires destOff + numElementsInBuffer <= dest.Length
    modifies dest
    ensures dest[..] == Overwrite(old(dest[..]), destOff, Decode(src, 8))
  {
    for i := 0 to numElementsInBuffer
      invariant forall k :: 0 <= k < i ==> dest[destOff + k] == DecodedSample(src, 8, k)
      invariant forall k :: 0 <= k < dest.Length && !(destOff <= k < destOff + i) ==> dest[k] == old(dest[k])
    {
      dest[destOff + i] := (SignedByte(src[i]) as real) * Div8;
    }
    ConvertedIsOverwrite(dest[..], old(dest[..]), destOff, src, 8);
  }

  /** The 16-bit case of IntToFloat. */
  method Convert16(dest: array<real>, destOff: nat, src: seq<Byte>, numElementsInBuffer: int)
    requires numElementsInBuffer == |src| / 2
    requires destOff + numElementsInBuffer <= dest.Length
    modifies dest
    ensures dest[..] == Overwrite(old(dest[..]), destOff, Decode(src, 16))
  {
    for i := 0 to numElementsInBuffer
      invariant forall k :: 0 <= k < i ==> dest[destOff + k] == DecodedSample(src, 16, k)
      invariant forall k :: 0 <= k < dest.Length && !(destOff <= k < destOff + i) ==> dest[k] == old(dest[k])
    {
      dest[destOff + i] := (Int16LE(src[2 * i], src[2 * i + 1]) as real) * Div16;
    }
    ConvertedIsOverwrite(dest[..], old(dest[..]), destOff, src, 16);
  }

  /** The 24-bit case of IntToFloat. */
  method Convert24(dest: array<real>, destOff: nat, src: seq<Byte>, numElementsInBuffer: int)
    requires numElementsInBuffer == |src| / 3
    requires destOff + numElementsInBuffer <= dest.Length
    modifies dest
    ensures dest[..] == Overwrite(old(dest[..]), destOff, Decode(src, 24))
  {
    var c := 0;
    for i := 0 to numElementsInBuffer
      invariant c == 3 * i
      invariant forall k :: 0 <= k < i ==> dest[destOff + k] == DecodedSample(src, 24, k)
      invariant forall k :: 0 <= k < dest.Length && !(destOff <= k < destOff + i) ==> dest[k] == old(dest[k])
    {
      // bytes 1, 2 and 3 of the int32, low byte left zero
      var byte1 := src[c];
      c := c + 1;
      var byte2 := src[c];
      c := c + 1;
      var byte3 := src[c];
      c := c + 1;
      var value := Int32LE(0, byte1, byte2, byte3);
      dest[destOff + i] := (value as real) * Div32;
    }
    ConvertedIsOverwrite(dest[..], old(dest[..]), destOff, src, 24);
  }

  /** The 32-bit case of IntToFloat. */
  method Convert32(dest: array<real>, destOff: nat, src: seq<Byte>, numElementsInBuffer: int)
    requires numElementsInBuffer == |src| / 4
    requires destOff + numElementsInBuffer <= dest.Length
    modifies dest
    ensures dest[..] == Overwrite(old(dest[..]), destOff, Decode(src, 32))
  {
    for i := 0 to numElementsInBuffer
      invariant forall k :: 0 <= k < i ==> dest[destOff + k] == DecodedSample(src, 32, k)
      invariant forall k :: 0 <= k < dest.Length && !(destOff <= k < destOff + i) ==> dest[k] == old(dest[k])
    {
      dest[destOff + i] := (Int32LE(src[4 * i], src[4 * i + 1], src[4 * i + 2], src[4 * i + 3]) as real) * Div32;
    }
    ConvertedIsOverwrite(dest[..], old(dest[..]), destOff, src, 32);
  }

  /** Every decoded sample is normalised: 8-bit samples lie in [-1, 127/128]; as exact
      products, 16-, 24- and 32-bit ones lie strictly inside (-1, 1), because the truncated
      div16 and div32 are slightly below 2^-15 and 2^-31 (stored in a float, the smallest
      16-bit product rounds to -1.0). */
  lemma DecodedRange(bytes: seq<Byte>, wordlength: int, i: nat)
    requires i < |Decode(bytes, wordlength)|
    ensures wordlength == 8 ==> -1.0 <= Decode(bytes, wordlength)[i] <= 127.0 / 128.0
    ensures wordlength != 8 ==> -1.0 < Decode(bytes, wordlength)[i] < 1.0
  {
    DecodeAt(bytes, wordlength);
    DecodedSampleRange(bytes, wordlength, i);
  }

  /** DecodedRange for one sample, before it is placed in the decoded sequence. */
  lemma DecodedSampleRange(bytes: seq<Byte>, wordlength: int, i: nat)
    requires IsSupportedWidth(wordlength) && i < WordCount(|bytes|, wordlength)
    ensures wordlength == 8 ==> -1.0 <= DecodedSample(bytes, wordlength, i) <= 127.0 / 128.0
    ensures wordlength != 8 ==> -1.0 < DecodedSample(bytes, wordlength, i) < 1.0
  {
    SampleIntMeaning(bytes, wordlength, i);
    ScaledRange(SampleInt(bytes, wordlength, i), wordlength);
  }

  /** The exact scaled value of an integer in a width's range. */
  lemma ScaledRange(v: int, wordlength: int)
    requires IsSupportedWidth(wordlength)
    requires wordlength == 8 ==> -0x80 <= v < 0x80
    requires wordlength == 16 ==> -0x8000 <= v < 0x8000
    requires -0x8000_0000 <= v < 0x8000_0000
    ensures wordlength == 8 ==> -1.0 <= (v as real) * Scale(wordlength) <= 127.0 / 128.0
    ensures wordlength != 8 ==> -1.0 < (v as real) * Scale(wordlength) < 1.0
  {
    var x := v as real;
    if wordlength == 8 {
      assert -128.0 <= x <= 127.0;
      assert x * Div8 == x / 128.0;
    } else if wordlength == 16 {
      assert -32768.0 <= x <= 32767.0;
    } else {
      assert -2147483648.0 <= x <= 2147483647.0;
    }
  }

  /** A silent (all-zero) buffer decodes to silence, for every word length. */
  lemma SilenceDecodesToSilence(bytes: seq<Byte>, wordlength: int)
    requires forall k :: 0 <= k < |bytes| ==> bytes[k] == 0
    ensures forall i :: 0 <= i < |Decode(bytes, wordlength)| ==> Decode(bytes, wordlength)[i] == 0.0
  {
    DecodeAt(bytes, wordlength);
    forall i | 0 <= i < |Decode(bytes, wordlength)|
      ensures DecodedSample(bytes, wordlength, i) == 0.0
    {
      SilentSample(bytes, wordlength, i);
    }
  }

  /** One word of zero bytes decodes to 0.0. */
  lemma SilentSample(bytes: seq<Byte>, wordlength: int, i: nat)
    requires IsSupportedWidth(wordlength) && i < WordCount(|bytes|, wordlength)
    requires forall k :: 0 <= k < |bytes| ==> bytes[k] == 0
    ensures DecodedSample(bytes, wordlength, i) == 0.0
  {
    if wordlength == 8 {
      assert bytes[i] == 0;
    } else if wordlength == 16 {
      assert bytes[2 * i] == bytes[2 * i + 1] == 0;
    } else if wordlength == 24 {
      assert bytes[3 * i] == bytes[3 * i + 1] == bytes[3 * i + 2] == 0;
    } else {
      assert bytes[4 * i] == bytes[4 * i + 1] == bytes[4 * i + 2] == bytes[4 * i + 3] == 0;
    }
  }

  /** Decoding is word by word: the bytes of words [a, b) decode to exactly samples [a, b)
      of the whole buffer. This is what lets a reader lock and decode any frame-aligned
      window of a sound. */
  lemma DecodeSlice(bytes: seq<Byte>, wordlength: int, a: nat, b: nat)
    requires IsSupportedWidth(wordlength)
    requires a <= b <= WordCount(|bytes|, wordlength)
    ensures Width(wordlength) * b <= |bytes|
    ensures Decode(bytes[Width(wordlength) * a..Width(wordlength) * b], wordlength)
         == Decode(bytes, wordlength)[a..b]
  {
    var w := Width(wordlength);
    var sub := bytes[w * a..w * b];
    assert WordCount(|sub|, wordlength) == b - a by {
      if wordlength == 8 {} else if wordlength == 16 {} else if wordlength == 24 {} else {}
    }
    DecodeAt(sub, wordlength);
    DecodeAt(bytes, wordlength);
    forall i | 0 <= i < b - a
      ensures DecodedSample(sub, wordlength, i) == DecodedSample(bytes, wordlength, a + i)
    {
      SampleOfSlice(bytes, wordlength, a, b, i);
    }
  }

  /** One sample of a word-aligned slice is the corresponding sample of the whole buffer. */
  lemma SampleOfSlice(bytes: seq<Byte>, wordlength: int, a: nat, b: nat, i: nat)
    requires IsSupportedWidth(wordlength)
    requires a <= b <= WordCount(|bytes|, wordlength) && i < b - a
    ensures Width(wordlength) * b <= |bytes|
    ensures WordCount(Width(wordlength) * (b - a), wordlength) == b - a
    ensures SampleInt(bytes[Width(wordlength) * a..Width(wordlength) * b], wordlength, i)
         == SampleInt(bytes, wordlength, a + i)
  {
    if wordlength == 8 {
      var sub := bytes[a..b];
      assert sub[i] == bytes[a + i];
    } else if wordlength == 16 {
      var sub := bytes[2 * a..2 * b];
      assert sub[2 * i] == bytes[2 * (a + i)];
      assert sub[2 * i + 1] == bytes[2 * (a + i) + 1];
    } else if wordlength == 24 {
      var sub := bytes[3 * a..3 * b];
      assert sub[3 * i] == bytes[3 * (a + i)];
      assert sub[3 * i + 1] == bytes[3 * (a + i) + 1];
      assert sub[3 * i + 2] == bytes[3 * (a + i) + 2];
    } else {
      var sub := bytes[4 * a..4 * b];
      assert sub[4 * i] == bytes[4 * (a + i)];
      assert sub[4 * i + 1] == bytes[4 * (a + i) + 1];
      assert sub[4 * i + 2] == bytes[4 * (a + i) + 2];
      assert sub[4 * i + 3] == bytes[4 * (a + i) + 3];
    }
  }
}
