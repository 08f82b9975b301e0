// Bit-level access to byte buffers, most significant bit first, and the packing
// of jump symbols into the bytes of a jump node.
module Bits {
  import opened Arithmetic
  import opened Keys

  type Bit = bool

  function Digit(b: Bit): nat { if b then 1 else 0 }

  // ------------------------------------------------------------------
  // Bit strings and the numbers they stand for
  // ------------------------------------------------------------------

  function Value(bits: seq<Bit>): nat
  {
    if |bits| == 0 then 0 else 2 * Value(bits[..|bits| - 1]) + Digit(bits[|bits| - 1])
  }

  function BitsOf(v: nat, n: nat): (bits: seq<Bit>)
    ensures |bits| == n
  {
    if n == 0 then [] else BitsOf(v / 2, n - 1) + [v % 2 == 1]
  }

  lemma {:induction false} ValueBound(bits: seq<Bit>)
    ensures Value(bits) < PowerOfTwo(|bits|)
  {
    if |bits| > 0 {
      ValueBound(bits[..|bits| - 1]);
    }
  }

  lemma {:induction false} ValueConcat(x: seq<Bit>, y: seq<Bit>)
    ensures Value(x + y) == Value(x) * PowerOfTwo(|y|) + Value(y)
  {
    if |y| == 0 {
      assert x + y == x;
    } else {
      var y' := y[..|y| - 1];
      ValueConcat(x, y');
      assert (x + y)[..|x + y| - 1] == x + y';
      assert Value(x) * (2 * PowerOfTwo(|y'|)) == 2 * (Value(x) * PowerOfTwo(|y'|));
    }
  }

  lemma {:induction false} BitsOfValue(bits: seq<Bit>)
    ensures BitsOf(Value(bits), |bits|) == bits
  {
    if |bits| > 0 {
      BitsOfValue(bits[..|bits| - 1]);
      assert Value(bits) / 2 == Value(bits[..|bits| - 1]) && Value(bits) % 2 == Digit(bits[|bits| - 1]);
    }
  }

  lemma {:induction false} ValueOfBits(v: nat, n: nat)
    requires v < PowerOfTwo(n)
    ensures Value(BitsOf(v, n)) == v
  {
    if n > 0 {
      ValueOfBits(v / 2, n - 1);
      assert BitsOf(v, n)[..n - 1] == BitsOf(v / 2, n - 1);
    }
  }

  lemma {:induction false} ValueInjective(x: seq<Bit>, y: seq<Bit>)
    requires |x| == |y| && Value(x) == Value(y)
    ensures x == y
  {
    BitsOfValue(x);
    BitsOfValue(y);
  }

  // Shifting right by |y| and masking |w| bits of x + w + y leaves w.
  lemma {:induction false} FieldOf(x: seq<Bit>, w: seq<Bit>, y: seq<Bit>)
    ensures Value(x + w + y) / PowerOfTwo(|y|) % PowerOfTwo(|w|) == Value(w)
  {
    hide Value, PowerOfTwo;
    HighAndLow(x + w, y);
    HighAndLow(x, w);
  }

  lemma {:induction false} HighAndLow(x: seq<Bit>, y: seq<Bit>)
    ensures Value(x + y) / PowerOfTwo(|y|) == Value(x) && Value(x + y) % PowerOfTwo(|y|) == Value(y)
  {
    hide Value, PowerOfTwo;
    ValueConcat(x, y);
    ValueBound(y);
    assert PowerOfTwo(|y|) * Value(x) == Value(x) * PowerOfTwo(|y|);
    DivideExactly(Value(x + y), PowerOfTwo(|y|), Value(x), Value(y));
  }

  lemma {:induction false} FieldDifference(x: seq<Bit>, w: seq<Bit>, w': seq<Bit>, y: seq<Bit>)
    requires |w| == |w'|
    ensures Value(x + w + y) - Value(x + w' + y) == (Value(w) - Value(w')) * PowerOfTwo(|y|)
  {
    if |y| == 0 {
      assert x + w + y == x + w && x + w' + y == x + w';
      ValueConcat(x, w);
      ValueConcat(x, w');
    } else {
      var y' := y[..|y| - 1];
      FieldDifference(x, w, w', y');
      assert (x + w + y)[..|x + w + y| - 1] == x + w + y';
      assert (x + w' + y)[..|x + w' + y| - 1] == x + w' + y';
      var d := Value(w) - Value(w');
      assert 2 * (d * PowerOfTwo(|y'|)) == d * (2 * PowerOfTwo(|y'|));
    }
  }

  // A number whose field of value `field`, `offset` bits from the right, is
  // cleared and replaced by v.
  function WithField(number: nat, field: nat, offset: nat, v: nat): int
  {
    number - field * PowerOfTwo(offset) + v * PowerOfTwo(offset)
  }

  // Clearing the field w of x + w + y and adding v there puts v in its place.
  lemma {:induction false} ReplaceField(x: seq<Bit>, w: seq<Bit>, y: seq<Bit>, v: nat)
    requires v < PowerOfTwo(|w|)
    ensures WithField(Value(x + w + y), Value(w), |y|, v) == Value(x + BitsOf(v, |w|) + y)
  {
    ValueOfBits(v, |w|);
    FieldDifference(x, w, BitsOf(v, |w|), y);
    Distribute(Value(w), Value(BitsOf(v, |w|)), v, PowerOfTwo(|y|));
  }

  lemma {:induction false} Distribute(a: nat, b: nat, b': nat, p: nat)
    requires b == b'
    ensures (a - b) * p == a * p - b' * p
  {
  }

  // ------------------------------------------------------------------
  // Byte buffers as bit strings
  // ------------------------------------------------------------------

  function BytesBits(bytes: seq<Byte>): (bits: seq<Bit>)
    ensures |bits| == 8 * |bytes|
  {
    if |bytes| == 0 then [] else BytesBits(bytes[..|bytes| - 1]) + BitsOf(bytes[|bytes| - 1], 8)
  }

  function BigEndian(bytes: seq<Byte>): nat
  {
    if |bytes| == 0 then 0 else 256 * BigEndian(bytes[..|bytes| - 1]) + bytes[|bytes| - 1]
  }

  lemma {:induction false} ByteValue(b: Byte)
    ensures Value(BitsOf(b, 8)) == b
  {
    assert PowerOfTwo(8) == 256;
    ValueOfBits(b, 8);
  }

  lemma {:induction false} BytesBitsConcat(x: seq<Byte>, y: seq<Byte>)
    ensures BytesBits(x + y) == BytesBits(x) + BytesBits(y)
  {
    if |y| == 0 {
      assert x + y == x;
    } else {
      BytesBitsConcat(x, y[..|y| - 1]);
      assert (x + y)[..|x + y| - 1] == x + y[..|y| - 1];
    }
  }

  lemma {:induction false} BytesBitsSlice(bytes: seq<Byte>, i: nat, j: nat)
    requires i <= j <= |bytes|
    ensures BytesBits(bytes[i..j]) == BytesBits(bytes)[8 * i..8 * j]
  {
    BytesBitsConcat(bytes[..i], bytes[i..j]);
    BytesBitsConcat(bytes[..j], bytes[j..]);
    assert bytes[..i] + bytes[i..j] == bytes[..j];
    assert bytes[..j] + bytes[j..] == bytes;
  }

  lemma {:induction false} OneByte(b: Byte)
    ensures BytesBits([b]) == BitsOf(b, 8)
  {
    assert [b][..0] == [];
  }

  lemma {:induction false} ByteBits(bytes: seq<Byte>, i: nat)
    requires i < |bytes|
    ensures BytesBits(bytes)[8 * i..8 * i + 8] == BitsOf(bytes[i], 8)
  {
    BytesBitsSlice(bytes, i, i + 1);
    assert bytes[i..i + 1] == [bytes[i]];
    OneByte(bytes[i]);
  }

  // x with the elements from position i on replaced by w.
  function Splice<T>(x: seq<T>, i: nat, w: seq<T>): seq<T>
    requires i + |w| <= |x|
  {
    x[..i] + w + x[i + |w|..]
  }

  lemma {:induction false} BytesBitsThree(x: seq<Byte>, y: seq<Byte>, z: seq<Byte>)
    ensures BytesBits(x + y + z) == BytesBits(x) + BytesBits(y) + BytesBits(z)
  {
    BytesBitsConcat(x, y);
    BytesBitsConcat(x + y, z);
  }

  lemma {:induction false} BigEndianValue(bytes: seq<Byte>)
    ensures BigEndian(bytes) == Value(BytesBits(bytes))
  {
    hide BitsOf;
    if |bytes| > 0 {
      BigEndianValue(bytes[..|bytes| - 1]);
      ValueConcat(BytesBits(bytes[..|bytes| - 1]), BitsOf(bytes[|bytes| - 1], 8));
      ByteValue(bytes[|bytes| - 1]);
      assert PowerOfTwo(8) == 256;
    }
  }

  // ------------------------------------------------------------------
  // extract_bits and put_bits
  // ------------------------------------------------------------------

  // The byte at which the big-endian double word that covers the field starts.
  function DwordStart(startBit: nat, numBits: nat): nat
    requires numBits >= 1
  {
    var lastBit := startBit + numBits - 1;
    if lastBit / 8 < 3 then 0 else lastBit / 8 - 3
  }

  function FieldShift(startBit: nat, numBits: nat): int
    requires numBits >= 1
  {
    32 - startBit + DwordStart(startBit, numBits) * 8 - numBits
  }

  ghost predicate FieldFits(length: nat, startBit: nat, numBits: nat)
  {
    1 <= numBits <= 24 && startBit + numBits <= 8 * length && length >= 4
  }

  lemma {:induction false} FieldInDword(length: nat, startBit: nat, numBits: nat)
    requires FieldFits(length, startBit, numBits)
    ensures 8 * DwordStart(startBit, numBits) <= startBit
    ensures DwordStart(startBit, numBits) + 4 <= length
    ensures FieldShift(startBit, numBits) >= 0
  {
  }

  function ExtractBits(bytes: seq<Byte>, startBit: nat, numBits: nat): nat
    requires FieldFits(|bytes|, startBit, numBits)
  {
    FieldInDword(|bytes|, startBit, numBits);
    var start := DwordStart(startBit, numBits);
    BigEndian(bytes[start..start + 4]) / PowerOfTwo(FieldShift(startBit, numBits)) % PowerOfTwo(numBits)
  }

  // The bit string of the covering double word, cut at the field.
  lemma {:induction false} DwordSplit(bytes: seq<Byte>, startBit: nat, numBits: nat)
      returns (x: seq<Bit>, w: seq<Bit>, y: seq<Bit>)
    requires FieldFits(|bytes|, startBit, numBits)
    ensures DwordStart(startBit, numBits) + 4 <= |bytes|
    ensures BytesBits(bytes[DwordStart(startBit, numBits)..DwordStart(startBit, numBits) + 4]) == x + w + y
    ensures w == BytesBits(bytes)[startBit..startBit + numBits]
    ensures |x| == startBit - 8 * DwordStart(startBit, numBits) && |y| == FieldShift(startBit, numBits)
  {
    hide BytesBits;
    FieldInDword(|bytes|, startBit, numBits);
    var start := DwordStart(startBit, numBits);
    var all := BytesBits(bytes);
    BytesBitsSlice(bytes, start, start + 4);
    x := all[8 * start..startBit];
    w := all[startBit..startBit + numBits];
    y := all[startBit + numBits..8 * start + 32];
    CutThree(all, 8 * start, startBit, startBit + numBits, 8 * start + 32);
  }

  lemma {:induction false} CutThree<T>(s: seq<T>, a: nat, i: nat, j: nat, b: nat)
    requires a <= i <= j <= b <= |s|
    ensures s[a..b] == s[a..i] + s[i..j] + s[j..b]
  {
  }

  lemma {:induction false} ExtractMeaning(bytes: seq<Byte>, startBit: nat, numBits: nat)
    requires FieldFits(|bytes|, startBit, numBits)
    ensures ExtractBits(bytes, startBit, numBits) == Value(BytesBits(bytes)[startBit..startBit + numBits])
  {
    var x, w, y := DwordSplit(bytes, startBit, numBits);
    var start := DwordStart(startBit, numBits);
    BigEndianValue(bytes[start..start + 4]);
    FieldOf(x, w, y);
  }

  // The four bytes of a double word, most significant first.
  function DwordBytes(v: nat): seq<Byte>
  {
    [v / 0x100_0000 % 256, v / 0x1_0000 % 256, v / 0x100 % 256, v % 256]
  }

  lemma {:induction false} DwordBytesValue(v: nat)
    requires v < 0x1_0000_0000
    ensures BigEndian(DwordBytes(v)) == v
  {
    var b := DwordBytes(v);
    FourBytes(b[0], b[1], b[2], b[3]);
    assert v / 0x100 == v / 0x1_0000 * 256 + b[2];
    assert v / 0x1_0000 == v / 0x100_0000 * 256 + b[1];
  }

  lemma {:induction false} FourBytes(b0: Byte, b1: Byte, b2: Byte, b3: Byte)
    ensures BigEndian([b0, b1, b2, b3]) == b0 * 0x100_0000 + b1 * 0x1_0000 + b2 * 0x100 + b3
  {
    assert [b0, b1, b2, b3][..3] == [b0, b1, b2];
    assert [b0, b1, b2][..2] == [b0, b1];
    assert [b0, b1][..1] == [b0];
    assert [b0][..0] == [];
    assert BigEndian([b0]) == b0;
    assert BigEndian([b0, b1]) == 256 * BigEndian([b0]) + b1;
    assert BigEndian([b0, b1, b2]) == 256 * BigEndian([b0, b1]) + b2;
  }

  lemma {:induction false} PowersOfTwo()
    ensures PowerOfTwo(1) == 2 && PowerOfTwo(5) == 32 && PowerOfTwo(8) == 256
    ensures PowerOfTwo(32) == 0x1_0000_0000
  {
    assert PowerOfTwo(2) == 4 && PowerOfTwo(4) == 16;
    assert PowerOfTwo(12) == 4096;
    assert PowerOfTwo(16) == 65536;
    assert PowerOfTwo(20) == 1048576;
    assert PowerOfTwo(24) == 16777216;
    assert PowerOfTwo(28) == 268435456;
  }

  // Writes the low numBits of `bits` at bit startBit and keeps every other bit.
  method PutBits(bytes: array<Byte>, startBit: nat, numBits: nat, bits: nat)
    requires FieldFits(bytes.Length, startBit, numBits)
    requires bits < PowerOfTwo(numBits)
    modifies bytes
    ensures BytesBits(bytes[..]) == Splice(old(BytesBits(bytes[..])), startBit, BitsOf(bits, numBits))
  {
    FieldInDword(bytes.Length, startBit, numBits);
    ghost var before := bytes[..];
    var start := DwordStart(startBit, numBits);
    var out := NewDwordBytes(bytes[..], startBit, numBits, bits);
    bytes[start], bytes[start + 1], bytes[start + 2], bytes[start + 3] := out[0], out[1], out[2], out[3];
    assert bytes[..] == before[..start] + out + before[start + 4..];
    NewDword(before, startBit, numBits, bits);
  }

  // The four bytes that PutBits writes back: the field in the covering double
  // word is cleared and refilled.
  function NewDwordBytes(bytes: seq<Byte>, startBit: nat, numBits: nat, bits: nat): (out: seq<Byte>)
    requires FieldFits(|bytes|, startBit, numBits) && bits < PowerOfTwo(numBits)
    ensures |out| == 4
  {
    FieldInDword(|bytes|, startBit, numBits);
    var start := DwordStart(startBit, numBits);
    var offset := FieldShift(startBit, numBits);
    var dword := BigEndian(bytes[start..start + 4]);
    var field := dword / PowerOfTwo(offset) % PowerOfTwo(numBits);
    UpdatedDword(bytes, startBit, numBits, bits);
    DwordBytes(WithField(dword, field, offset, bits))
  }

  lemma {:induction false} UpdatedDword(bytes: seq<Byte>, startBit: nat, numBits: nat, bits: nat)
    requires FieldFits(|bytes|, startBit, numBits) && bits < PowerOfTwo(numBits)
    ensures var start := DwordStart(startBit, numBits);
            var offset := FieldShift(startBit, numBits);
            && start + 4 <= |bytes| && offset >= 0
            && var dword := BigEndian(bytes[start..start + 4]);
               WithField(dword, dword / PowerOfTwo(offset) % PowerOfTwo(numBits), offset, bits) >= 0
  {
    FieldInDword(|bytes|, startBit, numBits);
    var start := DwordStart(startBit, numBits);
    var x, w, y := DwordSplit(bytes, startBit, numBits);
    UpdatedField(bytes[start..start + 4], x, w, y, bits);
  }

  // Writing those bytes back changes exactly the bits of the field.
  lemma {:induction false} NewDword(before: seq<Byte>, startBit: nat, numBits: nat, bits: nat)
    requires FieldFits(|before|, startBit, numBits) && bits < PowerOfTwo(numBits)
    ensures var start := DwordStart(startBit, numBits);
            && start + 4 <= |before|
            && BytesBits(before[..start] + NewDwordBytes(before, startBit, numBits, bits) + before[start + 4..])
               == Splice(BytesBits(before), startBit, BitsOf(bits, numBits))
  {
    hide PowerOfTwo, BytesBits;
    FieldInDword(|before|, startBit, numBits);
    var start := DwordStart(startBit, numBits);
    var x, w, y := DwordSplit(before, startBit, numBits);
    var newBits := x + BitsOf(bits, numBits) + y;
    UpdatedField(before[start..start + 4], x, w, y, bits);
    DwordBytesBits(newBits);
    var p, m, q := before[..start], before[start..start + 4], before[start + 4..];
    assert before == p + m + q;
    BytesBitsThree(p, m, q);
    BytesBitsThree(p, DwordBytes(Value(newBits)), q);
    hide BytesBits, BitsOf, Value, DwordBytes, Splice;
    SpliceInner(BytesBits(p), x, w, y, BytesBits(q), BitsOf(bits, numBits));
  }

  lemma {:induction false} SpliceInner<T>(p: seq<T>, x: seq<T>, w: seq<T>, y: seq<T>, q: seq<T>, w': seq<T>)
    requires |w| == |w'|
    ensures Splice(p + (x + w + y) + q, |p| + |x|, w') == p + (x + w' + y) + q
  {
  }

  lemma {:induction false} UpdatedField(dwordBytes: seq<Byte>, x: seq<Bit>, w: seq<Bit>, y: seq<Bit>, bits: nat)
    requires BytesBits(dwordBytes) == x + w + y && bits < PowerOfTwo(|w|)
    ensures var dword := BigEndian(dwordBytes);
            WithField(dword, dword / PowerOfTwo(|y|) % PowerOfTwo(|w|), |y|, bits)
            == Value(x + BitsOf(bits, |w|) + y)
  {
    BigEndianValue(dwordBytes);
    FieldOf(x, w, y);
    ReplaceField(x, w, y, bits);
  }

  lemma {:induction false} DwordBytesBits(bits: seq<Bit>)
    requires |bits| == 32
    ensures BytesBits(DwordBytes(Value(bits))) == bits
  {
    ValueBound(bits);
    PowersOfTwo();
    DwordBytesValue(Value(bits));
    BigEndianValue(DwordBytes(Value(bits)));
    ValueInjective(BytesBits(DwordBytes(Value(bits))), bits);
  }

  // Copies numBits bits of src, starting at srcOffset, to the start of dest. The
  // loop runs once more than numBits needs, so whole bytes up to the one that
  // holds bit numBits are written.
  method CopyBits(dest: array<Byte>, src: seq<Byte>, srcOffset: nat, numBits: nat)
    requires |src| >= 4 && srcOffset + 8 * (numBits / 8) + 8 <= 8 * |src|
    requires numBits / 8 < dest.Length
    modifies dest
    ensures forall t: nat :: t < numBits ==> BytesBits(dest[..])[t] == BytesBits(src)[srcOffset + t]
    ensures forall k: nat :: numBits / 8 < k < dest.Length ==> dest[k] == old(dest[k])
  {
    hide BytesBits, ExtractByte;
    var pos, dstPos := 0, 0;
    while pos <= numBits
      invariant pos == 8 * dstPos && dstPos <= numBits / 8 + 1
      invariant BytesBits(dest[..])[..pos] == BytesBits(src)[srcOffset..srcOffset + pos]
      invariant forall k: nat :: dstPos <= k < dest.Length ==> dest[k] == old(dest[k])
      decreases numBits + 8 - pos
    {
      ghost var before := dest[..];
      dest[dstPos] := ExtractByte(src, srcOffset + pos);
      CopiedByte(before, dest[..], src, srcOffset, dstPos);
      pos := pos + 8;
      dstPos := dstPos + 1;
    }
    forall t: nat | t < numBits
      ensures BytesBits(dest[..])[t] == BytesBits(src)[srcOffset + t]
    {
      assert BytesBits(dest[..])[..pos][t] == BytesBits(src)[srcOffset..srcOffset + pos][t];
    }
  }

  function ExtractByte(src: seq<Byte>, startBit: nat): Byte
    requires |src| >= 4 && startBit + 8 <= 8 * |src|
  {
    ExtractMeaning(src, startBit, 8);
    ValueBound(BytesBits(src)[startBit..startBit + 8]);
    assert PowerOfTwo(8) == 256;
    ExtractBits(src, startBit, 8)
  }

  lemma {:induction false} CopiedByte(before: seq<Byte>, after: seq<Byte>, src: seq<Byte>, srcOffset: nat, k: nat)
    requires k < |before| && |src| >= 4 && srcOffset + 8 * k + 8 <= 8 * |src|
    requires after == before[k := ExtractByte(src, srcOffset + 8 * k)]
    requires BytesBits(before)[..8 * k] == BytesBits(src)[srcOffset..srcOffset + 8 * k]
    ensures BytesBits(after)[..8 * (k + 1)] == BytesBits(src)[srcOffset..srcOffset + 8 * (k + 1)]
  {
    ByteExtracted(src, srcOffset + 8 * k);
    CopiedBits(before, after, ExtractByte(src, srcOffset + 8 * k), BytesBits(src), srcOffset, k);
  }

  lemma {:induction false} ByteExtracted(src: seq<Byte>, s: nat)
    requires |src| >= 4 && s + 8 <= 8 * |src|
    ensures BitsOf(ExtractByte(src, s), 8) == BytesBits(src)[s..s + 8]
  {
    ExtractMeaning(src, s, 8);
    BitsOfValue(BytesBits(src)[s..s + 8]);
  }

  lemma {:induction false} CopiedBits(before: seq<Byte>, after: seq<Byte>, byte: Byte, y: seq<Bit>, j: nat, k: nat)
    requires k < |before| && after == before[k := byte] && j + 8 * k + 8 <= |y|
    requires BytesBits(before)[..8 * k] == y[j..j + 8 * k] && BitsOf(byte, 8) == y[j + 8 * k..j + 8 * k + 8]
    ensures BytesBits(after)[..8 * (k + 1)] == y[j..j + 8 * (k + 1)]
  {
    hide BytesBits, BitsOf;
    var p, m, q := before[..k], before[k], before[k + 1..];
    CutAround(before, byte, k);
    BytesBitsThree(p, [m], q);
    BytesBitsThree(p, [byte], q);
    OneByte(byte);
    ExtendMatch(BytesBits(p), BitsOf(byte, 8), BytesBits(q), BytesBits([m]), y, j);
  }

  lemma {:induction false} CutAround<T>(s: seq<T>, v: T, k: nat)
    requires k < |s|
    ensures s == s[..k] + [s[k]] + s[k + 1..] && s[k := v] == s[..k] + [v] + s[k + 1..]
  {
  }

  lemma {:induction false} ExtendMatch<T>(p: seq<T>, w: seq<T>, q: seq<T>, m: seq<T>, y: seq<T>, j: nat)
    requires j + |p| + |w| <= |y|
    requires (p + m + q)[..|p|] == y[j..j + |p|] && w == y[j + |p|..j + |p| + |w|]
    ensures (p + w + q)[..|p| + |w|] == y[j..j + |p| + |w|]
  {
    assert (p + m + q)[..|p|] == p;
    assert (p + w + q)[..|p| + |w|] == p + w;
  }

  // ------------------------------------------------------------------
  // Single bits
  // ------------------------------------------------------------------

  lemma {:induction false} BitOfNumber(v: nat, n: nat, i: nat)
    requires i < n
    ensures BitsOf(v, n)[i] <==> v / PowerOfTwo(n - 1 - i) % 2 == 1
  {
    if i < n - 1 {
      BitOfNumber(v / 2, n - 1, i);
      HalveThenDivide(v, PowerOfTwo(n - 2 - i));
    }
  }

  function GetBit(bytes: seq<Byte>, bit: nat): bool
    requires bit < 8 * |bytes|
  {
    bytes[bit / 8] / PowerOfTwo(7 - bit % 8) % 2 != 0
  }

  lemma {:induction false} GetBitMeaning(bytes: seq<Byte>, bit: nat)
    requires bit < 8 * |bytes|
    ensures GetBit(bytes, bit) <==> BytesBits(bytes)[bit]
  {
    ByteBits(bytes, bit / 8);
    BitOfNumber(bytes[bit / 8], 8, bit % 8);
    assert BytesBits(bytes)[bit] == BytesBits(bytes)[8 * (bit / 8)..8 * (bit / 8) + 8][bit % 8];
  }

  // Sets or clears one bit and keeps all others.
  method SetBit(bytes: array<Byte>, bit: nat, value: Bit)
    requires bit < 8 * bytes.Length
    modifies bytes
    ensures BytesBits(bytes[..]) == old(BytesBits(bytes[..]))[bit := value]
  {
    ghost var before := bytes[..];
    var k, i := bit / 8, bit % 8;
    var b: nat := bytes[k];
    SetBitInByte(bytes[k], i, value);
    bytes[k] := WithField(b, b / PowerOfTwo(7 - i) % 2, 7 - i, Digit(value));
    SetByteBits(before, bytes[..], k, i, value);
  }

  lemma {:induction false} SetByteBits(before: seq<Byte>, after: seq<Byte>, k: nat, i: nat, value: Bit)
    requires k < |before| && i < 8 && |after| == |before| && after == before[k := after[k]]
    requires BitsOf(after[k], 8) == BitsOf(before[k], 8)[i := value]
    ensures BytesBits(after) == BytesBits(before)[8 * k + i := value]
  {
    var p, q := before[..k], before[k + 1..];
    assert before == p + [before[k]] + q && after == p + [after[k]] + q;
    BytesBitsThree(p, [before[k]], q);
    BytesBitsThree(p, [after[k]], q);
    OneByte(before[k]);
    OneByte(after[k]);
    UpdateMiddle(BytesBits(p), BitsOf(before[k], 8), BytesBits(q), i, value);
  }

  lemma {:induction false} UpdateMiddle<T>(p: seq<T>, m: seq<T>, q: seq<T>, i: nat, v: T)
    requires i < |m|
    ensures (p + m + q)[|p| + i := v] == p + m[i := v] + q
  {
  }

  lemma {:induction false} SetBitInByte(b: Byte, i: nat, value: Bit)
    requires i < 8
    ensures var updated := WithField(b, b / PowerOfTwo(7 - i) % 2, 7 - i, Digit(value));
            0 <= updated < 256 && BitsOf(updated, 8) == BitsOf(b, 8)[i := value]
  {
    var bits := BitsOf(b, 8);
    var x, y := bits[..i], bits[i + 1..];
    ByteValue(b);
    CutAt(bits, i, value);
    SetMiddleBit(x, bits[i], y, value, b, 7 - i);
    BitsInByte(x + [value] + y);
  }

  lemma {:induction false} CutAt<T>(s: seq<T>, i: nat, v: T)
    requires i < |s|
    ensures s == s[..i] + [s[i]] + s[i + 1..] && s[i := v] == s[..i] + [v] + s[i + 1..]
  {
  }

  lemma {:induction false} BitsInByte(bits: seq<Bit>)
    requires |bits| == 8
    ensures Value(bits) < 256 && BitsOf(Value(bits), 8) == bits
  {
    PowersOfTwo();
    ValueBound(bits);
    BitsOfValue(bits);
  }

  lemma {:induction false} SetMiddleBit(x: seq<Bit>, bit: Bit, y: seq<Bit>, value: Bit, number: nat, offset: nat)
    requires number == Value(x + [bit] + y) && offset == |y|
    ensures WithField(number, number / PowerOfTwo(offset) % 2, offset, Digit(value)) == Value(x + [value] + y)
  {
    OneBit(bit);
    OneBit(value);
    FieldOf(x, [bit], y);
    ReplaceField(x, [bit], y, Digit(value));
  }

  lemma {:induction false} OneBit(bit: Bit)
    ensures Value([bit]) == Digit(bit) && BitsOf(Digit(bit), 1) == [bit] && PowerOfTwo(1) == 2
  {
    assert [bit][..0] == [];
    assert BitsOf(Digit(bit) / 2, 0) == [];
  }

  // ------------------------------------------------------------------
  // last_bit_before
  // ------------------------------------------------------------------

  // The largest set bit below `end` in the first 64 bits, or -1 if there is none.
  method LastBitBefore(bytes: seq<Byte>, end: nat) returns (r: int)
    requires |bytes| >= 8 && end < 64
    ensures -1 <= r < end
    ensures r >= 0 ==> GetBit(bytes, r)
    ensures forall t: nat :: r < t < end ==> !GetBit(bytes, t)
  {
    var kept := BigEndian(bytes[..8]) - BigEndian(bytes[..8]) % PowerOfTwo(64 - end);
    ghost var bits := MaskedBits(bytes, end);
    if kept == 0 {
      ZeroValue(bits);
      return -1;
    }
    TrailingZeros(kept, bits);
    r := 63 - CountTrailingZeros(kept);
  }

  // The zero bits to the right of the last set bit are counted.
  lemma {:induction false} TrailingZeros(v: nat, bits: seq<Bit>)
    requires v > 0 && v == Value(bits)
    ensures var n := CountTrailingZeros(v);
            && n < |bits| && bits[|bits| - 1 - n]
            && forall t: nat :: |bits| - n <= t < |bits| ==> !bits[t]
  {
    LastDigit(bits);
    if v % 2 == 0 {
      TrailingZeros(v / 2, bits[..|bits| - 1]);
    }
  }

  lemma {:induction false} LastDigit(bits: seq<Bit>)
    requires Value(bits) > 0
    ensures |bits| > 0 && Value(bits[..|bits| - 1]) == Value(bits) / 2
    ensures bits[|bits| - 1] <==> Value(bits) % 2 == 1
    ensures Value(bits) % 2 == 0 ==> |bits| > 1
  {
  }

  // Masking off all but the first `end` of 64 bits leaves those bits and zeros.
  lemma {:induction false} MaskedBits(bytes: seq<Byte>, end: nat) returns (bits: seq<Bit>)
    requires |bytes| >= 8 && end < 64
    ensures |bits| == 64
    ensures Value(bits) == BigEndian(bytes[..8]) - BigEndian(bytes[..8]) % PowerOfTwo(64 - end)
    ensures forall t: nat :: t < 64 ==> (bits[t] <==> t < end && GetBit(bytes, t))
  {
    var all := BytesBits(bytes);
    BytesBitsSlice(bytes, 0, 8);
    BigEndianValue(bytes[..8]);
    assert bytes[0..8] == bytes[..8];
    var high, low := all[..end], all[end..64];
    assert all[0..64] == high + low;
    KeptBits(high, low);
    var zeros: seq<Bit> := seq(64 - end, (i: nat) => false);
    ZeroBits(64 - end);
    ValueConcat(high, zeros);
    bits := high + zeros;
    forall t: nat | t < 64
      ensures bits[t] <==> t < end && GetBit(bytes, t)
    {
      if t < end {
        GetBitMeaning(bytes, t);
      }
    }
  }

  lemma {:induction false} ZeroValue(bits: seq<Bit>)
    requires Value(bits) == 0
    ensures forall t: nat :: t < |bits| ==> !bits[t]
  {
    if |bits| > 0 {
      ZeroValue(bits[..|bits| - 1]);
      assert forall t: nat :: t < |bits| - 1 ==> bits[t] == bits[..|bits| - 1][t];
    }
  }

  lemma {:induction false} ZeroBits(n: nat)
    ensures Value(seq(n, (i: nat) => false)) == 0
  {
    if n > 0 {
      var z: seq<Bit> := seq(n, (i: nat) => false);
      ZeroBits(n - 1);
      assert z[..n - 1] == seq(n - 1, (i: nat) => false);
    }
  }

  lemma {:induction false} KeptBits(high: seq<Bit>, low: seq<Bit>)
    ensures Value(high + low) - Value(high + low) % PowerOfTwo(|low|) == Value(high) * PowerOfTwo(|low|)
  {
    ValueConcat(high, low);
    ValueBound(low);
    assert PowerOfTwo(|low|) * Value(high) == Value(high) * PowerOfTwo(|low|);
    DivideExactly(Value(high + low), PowerOfTwo(|low|), Value(high), Value(low));
  }

  // ------------------------------------------------------------------
  // Jump nodes: up to MAX_JUMP_SYMBOLS five-bit symbols packed from the top
  // ------------------------------------------------------------------

  // The packed symbols take up this many bytes; what follows belongs to other fields.
  const PACKED_BYTES := 5

  // The i'th packed symbol, read through a 64-bit big-endian load.
  function GetJumpSymbol(jumpBits: seq<Byte>, i: nat): nat
    requires |jumpBits| >= 8 && i < MAX_JUMP_SYMBOLS
  {
    BigEndian(jumpBits[..8]) / PowerOfTwo(59 - 5 * i) % 32 + 1
  }

  lemma {:induction false} JumpSymbolMeaning(jumpBits: seq<Byte>, i: nat)
    requires |jumpBits| >= 8 && i < MAX_JUMP_SYMBOLS
    ensures GetJumpSymbol(jumpBits, i) == Value(BytesBits(jumpBits)[5 * i..5 * i + 5]) + 1
    ensures 1 <= GetJumpSymbol(jumpBits, i) <= FANOUT
  {
    var all := BytesBits(jumpBits);
    BytesBitsSlice(jumpBits, 0, 8);
    BigEndianValue(jumpBits[..8]);
    assert jumpBits[0..8] == jumpBits[..8];
    var x, w, y := all[..5 * i], all[5 * i..5 * i + 5], all[5 * i + 5..64];
    assert all[0..64] == x + w + y;
    FieldOf(x, w, y);
    assert PowerOfTwo(5) == 32;
  }

  lemma {:induction false} AppendedSymbol(before: seq<Byte>, after: seq<Byte>, n: nat, symbol: Symbol)
    requires |before| == |after| && |before| >= 8 && n < MAX_JUMP_SYMBOLS && symbol != SYMBOL_END
    requires BytesBits(after) == Splice(BytesBits(before), 5 * n, BitsOf(symbol - 1, 5))
    ensures forall i: nat :: i < n ==> GetJumpSymbol(after, i) == GetJumpSymbol(before, i)
    ensures GetJumpSymbol(after, n) == symbol
  {
    hide BytesBits, Splice, BigEndian, PowerOfTwo;
    forall i: nat | i < n
      ensures GetJumpSymbol(after, i) == GetJumpSymbol(before, i)
    {
      JumpSymbolMeaning(before, i);
      JumpSymbolMeaning(after, i);
      SplicedSlice(BytesBits(before), 5 * n, BitsOf(symbol - 1, 5), 5 * i, 5 * i + 5);
    }
    JumpSymbolMeaning(after, n);
    SplicedSlice(BytesBits(before), 5 * n, BitsOf(symbol - 1, 5), 5 * n, 5 * n + 5);
    PowersOfTwo();
    ValueOfBits(symbol - 1, 5);
  }

  lemma {:induction false} SplicedSlice<T>(x: seq<T>, i: nat, w: seq<T>, a: nat, b: nat)
    requires i + |w| <= |x| && a <= b <= |x|
    ensures b <= i ==> Splice(x, i, w)[a..b] == x[a..b]
    ensures a == i && b == i + |w| ==> Splice(x, i, w)[a..b] == w
  {
  }

  lemma {:induction false} CopiedSymbols(dst: seq<Byte>, src: seq<Byte>, skip: nat, num: nat)
    requires |dst| >= 8 && |src| >= 8 && skip + num <= MAX_JUMP_SYMBOLS
    requires forall t: nat :: t < 5 * num ==> BytesBits(dst)[t] == BytesBits(src)[5 * skip + t]
    ensures forall i: nat :: i < num ==> GetJumpSymbol(dst, i) == GetJumpSymbol(src, skip + i)
  {
    hide BytesBits;
    forall i: nat | i < num
      ensures GetJumpSymbol(dst, i) == GetJumpSymbol(src, skip + i)
    {
      JumpSymbolMeaning(dst, i);
      JumpSymbolMeaning(src, skip + i);
      assert BytesBits(dst)[5 * i..5 * i + 5] == BytesBits(src)[5 * (skip + i)..5 * (skip + i) + 5];
    }
  }

  // Bytes outside the field that was written are as before.
  lemma {:induction false} SplicedBytes(before: seq<Byte>, after: seq<Byte>, i: nat, w: seq<Bit>)
    requires |before| == |after| && i + |w| <= 8 * |before| && BytesBits(after) == Splice(BytesBits(before), i, w)
    ensures forall k: nat :: k < |before| && i + |w| <= 8 * k ==> after[k] == before[k]
  {
    forall k: nat | k < |before| && i + |w| <= 8 * k
      ensures after[k] == before[k]
    {
      ByteBits(before, k);
      ByteBits(after, k);
      SplicedBeyond(BytesBits(before), i, w, 8 * k, 8 * k + 8);
      ByteValue(before[k]);
      ByteValue(after[k]);
    }
  }

  lemma {:induction false} SplicedBeyond<T>(x: seq<T>, i: nat, w: seq<T>, a: nat, b: nat)
    requires i + |w| <= a <= b <= |x|
    ensures Splice(x, i, w)[a..b] == x[a..b]
  {
  }

  class JumpNode {
    const jumpBits: array<Byte>
    var jumpSize: nat

    constructor ()
      ensures Valid() && fresh(jumpBits) && JumpSymbols() == []
    {
      jumpBits := new Byte[12];
      jumpSize := 0;
    }

    ghost predicate Valid()
      reads this, jumpBits
    {
      jumpBits.Length >= 8 && jumpSize <= MAX_JUMP_SYMBOLS
    }

    function JumpSymbols(): (path: Path)
      reads this, jumpBits
      requires Valid()
      ensures |path| == jumpSize
      ensures forall i :: 0 <= i < jumpSize ==> path[i] == GetJumpSymbol(jumpBits[..], i) && path[i] != SYMBOL_END
    {
      seq(jumpSize, (i: nat) requires i < jumpSize && Valid() reads this, jumpBits =>
        JumpSymbolMeaning(jumpBits[..], i);
        GetJumpSymbol(jumpBits[..], i))
    }

    // Appends one symbol.
    method ExtendJumpNode(symbol: Symbol)
      requires Valid() && jumpSize < MAX_JUMP_SYMBOLS && symbol != SYMBOL_END
      modifies this, jumpBits
      ensures Valid() && JumpSymbols() == old(JumpSymbols()) + [symbol]
      ensures forall k :: PACKED_BYTES <= k < jumpBits.Length ==> jumpBits[k] == old(jumpBits[k])
    {
      ghost var before := jumpBits[..];
      assert symbol - 1 < PowerOfTwo(5) by { PowersOfTwo(); }
      PutBits(jumpBits, jumpSize * BITS_PER_SYMBOL, BITS_PER_SYMBOL, symbol - 1);
      AppendedSymbol(before, jumpBits[..], jumpSize, symbol);
      SplicedBytes(before, jumpBits[..], 5 * jumpSize, BitsOf(symbol - 1, 5));
      jumpSize := jumpSize + 1;
    }

    // Keeps the first `size` symbols.
    method SetJumpSize(size: nat)
      requires Valid() && size <= jumpSize
      modifies `jumpSize
      ensures Valid() && JumpSymbols() == old(JumpSymbols())[..size]
    {
      jumpSize := size;
    }

    // Makes this node hold the symbols of `from` that follow the first `skip`.
    method CopyTail(from: JumpNode, skip: nat)
      requires Valid() && from.Valid() && skip < from.jumpSize
      requires from.jumpBits.Length >= 12
      requires from != this && from.jumpBits != jumpBits
      modifies this, jumpBits
      ensures Valid() && from.Valid() && JumpSymbols() == from.JumpSymbols()[skip..]
      ensures forall k :: 5 * jumpSize / 8 < k < jumpBits.Length ==> jumpBits[k] == old(jumpBits[k])
    {
      var num := from.jumpSize - skip;
      ghost var src := from.jumpBits[..];
      CopyBits(jumpBits, from.jumpBits[..], skip * BITS_PER_SYMBOL, num * BITS_PER_SYMBOL);
      jumpSize := num;
      CopiedSymbols(jumpBits[..], src, skip, num);
      hide BytesBits, GetJumpSymbol;
    }
  }

  // Splitting a packed jump at position `depth`: the head keeps `depth` symbols,
  // one symbol moves to the bitmap, and the tail gets the rest. Concatenated they
  // are the original jump.
  method SplitPacked(head: JumpNode, tail: JumpNode, depth: nat) returns (splitSymbol: Symbol)
    requires head.Valid() && tail.Valid() && depth + 1 < head.jumpSize && head.jumpBits.Length >= 12
    requires head != tail && head.jumpBits != tail.jumpBits
    modifies head`jumpSize, tail, tail.jumpBits
    ensures head.Valid() && tail.Valid()
    ensures head.JumpSymbols() == old(head.JumpSymbols())[..depth] && splitSymbol == old(head.JumpSymbols())[depth]
    ensures tail.JumpSymbols() == old(head.JumpSymbols())[depth + 1..]
    ensures head.JumpSymbols() + [splitSymbol] + tail.JumpSymbols() == old(head.JumpSymbols())
    ensures forall k :: PACKED_BYTES <= k < tail.jumpBits.Length ==> tail.jumpBits[k] == old(tail.jumpBits[k])
  {
    ghost var original := head.JumpSymbols();
    splitSymbol := head.JumpSymbols()[depth];
    tail.CopyTail(head, depth + 1);
    head.SetJumpSize(depth);
    assert original == original[..depth] + [original[depth]] + original[depth + 1..];
  }
}
