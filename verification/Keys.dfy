// Byte-string keys, their reference order, and their encoding as 5-bit symbols
// followed by an END marker.
module Keys {
  import opened Arithmetic

  const BITS_PER_SYMBOL := 5
  const FANOUT := 32
  const SYMBOL_END := 0
  // How many symbols fit in one jump node.
  const MAX_JUMP_SYMBOLS := 8

  type Byte = b: int | 0 <= b < 256
  type Key = seq<Byte>

  // A symbol is SYMBOL_END or one of 1..FANOUT. A path is a sequence of symbols.
  type Symbol = s: nat | s <= FANOUT
  type Path = seq<Symbol>

  // ------------------------------------------------------------------
  // The reference order on keys: memcmp on the common length, then length.
  // ------------------------------------------------------------------

  function Memcmp(a: Key, b: Key): int
    requires |a| == |b|
  {
    if |a| == 0 then 0
    else if a[0] != b[0] then a[0] as int - b[0] as int
    else Memcmp(a[1..], b[1..])
  }

  function KeyCompare(a: Key, b: Key): int
  {
    var minSize := if |a| < |b| then |a| else |b|;
    var result := Memcmp(a[..minSize], b[..minSize]);
    if result != 0 then result else |a| - |b|
  }

  // ------------------------------------------------------------------
  // Symbols of a key
  // ------------------------------------------------------------------

  // The i'th byte, with zeros past the end of the key.
  function ByteAt(key: Key, i: nat): Byte
  {
    if i < |key| then key[i] else 0
  }

  // 2 ** (11 - offset): the divisor of a right shift by 16 - BITS_PER_SYMBOL - offset.
  function ShiftDivisor(offset: nat): nat
    requires offset < 8
  {
    if offset == 0 then 2048 else if offset == 1 then 1024
    else if offset == 2 then 512 else if offset == 3 then 256
    else if offset == 4 then 128 else if offset == 5 then 64
    else if offset == 6 then 32 else 16
  }

  // The five bits that start at bit 5 * i, zero-filled past the end of the key.
  function SymbolBits(key: Key, i: nat): (v: nat)
    ensures v < FANOUT
  {
    var first := 5 * i / 8;
    var word := ByteAt(key, first) * 256 + ByteAt(key, first + 1);
    word / ShiftDivisor(5 * i % 8) % FANOUT
  }

  // 2 ** (7 - offset).
  function BitDivisor(offset: nat): nat
    requires offset < 8
  {
    if offset == 0 then 128 else if offset == 1 then 64 else if offset == 2 then 32 else if offset == 3 then 16
    else if offset == 4 then 8 else if offset == 5 then 4 else if offset == 6 then 2 else 1
  }

  // Bit k of the key, counted from the most significant bit of its first byte, with zeros
  // past its end.
  function BitAt(key: Key, k: nat): nat {
    ByteAt(key, k / 8) / BitDivisor(k % 8) % 2
  }

  lemma {:induction false} LowFive(v: nat)
    ensures v % 32 == 16 * (v / 16 % 2) + 8 * (v / 8 % 2) + 4 * (v / 4 % 2) + 2 * (v / 2 % 2) + v % 2
  {
    var v1, v2, v3, v4 := v / 2, v / 4, v / 8, v / 16;
    assert v2 == v1 / 2 && v3 == v2 / 2 && v4 == v3 / 2;
    var low := 16 * (v4 % 2) + 8 * (v3 % 2) + 4 * (v2 % 2) + 2 * (v1 % 2) + v % 2;
    assert v == 32 * (v4 / 2) + low;
    DivideExactly(v, 32, v4 / 2, low);
  }

  // Bit n of two bytes.
  function WordBit(a: nat, b: nat, n: nat): nat
    requires n < 16
  {
    if n < 8 then a / BitDivisor(n) % 2 else b / BitDivisor(n - 8) % 2
  }

  lemma {:induction false} BitOfWord(a: nat, b: nat, n: nat, d: nat)
    requires b < 256 && n < 16 && d == (if n < 8 then 256 * BitDivisor(n) else BitDivisor(n - 8))
    ensures (256 * a + b) / d % 2 == WordBit(a, b, n)
  {
    if n < 8 {
      DivideTwice(256 * a + b, 256, BitDivisor(n));
      DivideExactly(256 * a + b, 256, a, b);
    } else {
      var k := BitDivisor(15 - n);
      assert d * (2 * k) == 256;
      hide BitDivisor;
      LowPart(a, b, d, k);
    }
  }

  // Dividing by half a byte's weight or less, the upper byte adds an even number.
  lemma {:induction false} LowPart(a: nat, b: nat, d: nat, k: nat)
    requires d > 0 && d * (2 * k) == 256
    ensures (256 * a + b) / d % 2 == b / d % 2
  {
    var e := 2 * k;
    EvenMultiple(a, d, e);
    DivideExactly(256 * a + b, d, e * a + b / d, b % d);
    assert e * a == 2 * (k * a);
    AddEven(k * a, b / d);
  }

  lemma {:induction false} EvenMultiple(a: nat, d: nat, e: nat)
    requires d * e == 256
    ensures 256 * a == d * (e * a)
  {
  }

  lemma {:induction false} AddEven(x: nat, y: nat)
    ensures (2 * x + y) % 2 == y % 2
  {
  }

  // Shifting further brings down the bits before.
  lemma {:induction false} ShiftedBit(a: nat, b: nat, offset: nat, j: nat, m: nat)
    requires b < 256 && offset < 8 && j < 5
    requires m == if j == 0 then 16 else if j == 1 then 8 else if j == 2 then 4 else if j == 3 then 2 else 1
    ensures (256 * a + b) / ShiftDivisor(offset) / m % 2 == WordBit(a, b, offset + j)
  {
    DivideTwice(256 * a + b, ShiftDivisor(offset), m);
    BitOfWord(a, b, offset + j, ShiftDivisor(offset) * m);
  }

  lemma {:induction false} FiveBits(a: nat, b: nat, offset: nat)
    requires b < 256 && offset < 8
    ensures (256 * a + b) / ShiftDivisor(offset) % 32 ==
            16 * WordBit(a, b, offset) + 8 * WordBit(a, b, offset + 1) + 4 * WordBit(a, b, offset + 2)
            + 2 * WordBit(a, b, offset + 3) + WordBit(a, b, offset + 4)
  {
    LowFive((256 * a + b) / ShiftDivisor(offset));
    ShiftedBit(a, b, offset, 0, 16);
    ShiftedBit(a, b, offset, 1, 8);
    ShiftedBit(a, b, offset, 2, 4);
    ShiftedBit(a, b, offset, 3, 2);
    ShiftedBit(a, b, offset, 4, 1);
    hide WordBit, ShiftDivisor;
  }

  lemma {:induction false} KeyBit(key: Key, first: nat, n: nat)
    requires n < 16
    ensures BitAt(key, 8 * first + n) == WordBit(ByteAt(key, first), ByteAt(key, first + 1), n)
  {
    assert (8 * first + n) / 8 == first + n / 8 && (8 * first + n) % 8 == n % 8;
  }

  // They are the bits 5 * i to 5 * i + 4 of the key.
  lemma {:induction false} SymbolIsBits(key: Key, i: nat)
    ensures SymbolBits(key, i) == 16 * BitAt(key, 5 * i) + 8 * BitAt(key, 5 * i + 1) + 4 * BitAt(key, 5 * i + 2)
                                  + 2 * BitAt(key, 5 * i + 3) + BitAt(key, 5 * i + 4)
  {
    hide WordBit, ShiftDivisor, BitAt, ByteAt;
    var first, offset := 5 * i / 8, 5 * i % 8;
    FiveBits(ByteAt(key, first), ByteAt(key, first + 1), offset);
    assert 5 * i == 8 * first + offset;
    KeyBit(key, first, offset);
    KeyBit(key, first, offset + 1);
    KeyBit(key, first, offset + 2);
    KeyBit(key, first, offset + 3);
    KeyBit(key, first, offset + 4);
  }

  // The i'th symbol of the key; the caller never asks beyond the END symbol.
  function GetStringSymbol(key: Key, i: nat): Symbol
    requires 5 * i < 8 * |key| + 5
  {
    if 5 * i / 8 >= |key| then SYMBOL_END else SymbolBits(key, i) + 1
  }

  // Number of symbols that carry key bits, i.e. without END.
  function NumDataSymbols(size: nat): nat
  {
    (size * 8 + BITS_PER_SYMBOL - 1) / BITS_PER_SYMBOL
  }

  function Symbols(key: Key): Path
  {
    seq(NumDataSymbols(|key|) + 1, (i: nat) requires i <= NumDataSymbols(|key|) => GetStringSymbol(key, i))
  }

  // s and t agree before position i, where s has the smaller symbol.
  ghost predicate LessAt(s: seq<int>, t: seq<int>, i: nat)
  {
    i < |s| && i < |t| && s[..i] == t[..i] && s[i] < t[i]
  }

  ghost predicate SymLess(s: seq<int>, t: seq<int>)
  {
    exists i: nat :: LessAt(s, t, i)
  }

  // ------------------------------------------------------------------
  // Order of symbol sequences
  // ------------------------------------------------------------------

  lemma SymLessIrreflexive(s: seq<int>)
    ensures !SymLess(s, s)
  {
  }

  lemma SymLessTransitive(s: seq<int>, t: seq<int>, u: seq<int>)
    requires SymLess(s, t) && SymLess(t, u)
    ensures SymLess(s, u)
  {
    var i: nat :| LessAt(s, t, i);
    var j: nat :| LessAt(t, u, j);
    var m := if i < j then i else j;
    assert s[..m] == s[..i][..m] == t[..i][..m] == t[..m] == t[..j][..m] == u[..j][..m] == u[..m];
    assert i < j ==> t[i] == t[..j][i] == u[..j][i] == u[i];
    assert j < i ==> s[j] == s[..i][j] == t[..i][j] == t[j];
    assert LessAt(s, u, m);
  }

  // Two keys agree (zero-filled) on every byte before d.
  ghost predicate AgreeBefore(a: Key, b: Key, d: nat)
  {
    forall j: nat :: j < d ==> ByteAt(a, j) == ByteAt(b, j)
  }

  // Symbols that end before bit 8 * d only depend on the bytes before d.
  lemma SymbolsAgree(a: Key, b: Key, d: nat, i: nat)
    requires AgreeBefore(a, b, d)
    requires 5 * i + 5 <= 8 * d
    ensures SymbolBits(a, i) == SymbolBits(b, i)
  {
    var first := 5 * i / 8;
    var offset := 5 * i % 8;
    assert first < d;
    if first + 1 >= d {
      assert offset <= 3;
      var x, y, z := ByteAt(a, first), ByteAt(a, first + 1), ByteAt(b, first + 1);
      assert ByteAt(b, first) == x;
      WordIgnoresSecond(x, y, offset);
      WordIgnoresSecond(x, z, offset);
    }
  }

  lemma WordIgnoresSecond(x: Byte, y: Byte, offset: nat)
    requires offset <= 3
    ensures (x * 256 + y) / ShiftDivisor(offset) == x / (ShiftDivisor(offset) / 256)
  {
  }

  // At the first differing byte d, one of the (at most three) symbols that
  // overlap it is the first to differ, in the same direction.
  lemma FirstDifference(a: Key, b: Key, d: nat) returns (i: nat)
    requires AgreeBefore(a, b, d)
    requires ByteAt(a, d) < ByteAt(b, d)
    ensures 8 * d < 5 * i + 5 && 5 * i < 8 * d + 8
    ensures SymbolBits(a, i) < SymbolBits(b, i)
    ensures forall j: nat :: j < i ==> SymbolBits(a, j) == SymbolBits(b, j)
  {
    var lo := 8 * d / 5;
    forall j: nat | j < lo
      ensures SymbolBits(a, j) == SymbolBits(b, j)
    {
      SymbolsAgree(a, b, d, j);
    }
    i := FirstDifferenceCases(a, b, d);
  }

  // What a five-bit window that starts at bit `offset` of byte x, followed by
  // byte y, holds.
  function Window(x: Byte, y: Byte, offset: nat): nat
    requires offset < 8
  {
    if offset == 0 then x / 8 else if offset == 1 then x / 4 % 32
    else if offset == 2 then x / 2 % 32 else if offset == 3 then x % 32
    else if offset == 4 then x % 16 * 2 + y / 128 else if offset == 5 then x % 8 * 4 + y / 64
    else if offset == 6 then x % 4 * 8 + y / 32 else x % 2 * 16 + y / 16
  }

  lemma WordWindow(x: Byte, y: Byte, offset: nat)
    requires offset < 8
    ensures (x * 256 + y) / ShiftDivisor(offset) % FANOUT == Window(x, y, offset)
  {
    if offset <= 3 {
      WordIgnoresSecond(x, y, offset);
    } else {
      WordSplits(x, y);
    }
  }

  lemma WordSplits(x: nat, y: nat)
    requires y < 256
    ensures (x * 256 + y) / 128 % 32 == x % 16 * 2 + y / 128
    ensures (x * 256 + y) / 64 % 32 == x % 8 * 4 + y / 64
    ensures (x * 256 + y) / 32 % 32 == x % 4 * 8 + y / 32
    ensures (x * 256 + y) / 16 % 32 == x % 2 * 16 + y / 16
  {
    DivideExactly(x * 256 + y, 128, x * 2 + y / 128, y % 128);
    DivideExactly(x * 2 + y / 128, 32, x / 16, x % 16 * 2 + y / 128);
    DivideExactly(x * 256 + y, 64, x * 4 + y / 64, y % 64);
    DivideExactly(x * 4 + y / 64, 32, x / 8, x % 8 * 4 + y / 64);
    DivideExactly(x * 256 + y, 32, x * 8 + y / 32, y % 32);
    DivideExactly(x * 8 + y / 32, 32, x / 4, x % 4 * 8 + y / 32);
    DivideExactly(x * 256 + y, 16, x * 16 + y / 16, y % 16);
    DivideExactly(x * 16 + y / 16, 32, x / 2, x % 2 * 16 + y / 16);
  }

  lemma SymbolWindow(key: Key, i: nat, first: nat, offset: nat)
    requires 5 * i == 8 * first + offset && offset < 8
    ensures SymbolBits(key, i) == Window(ByteAt(key, first), ByteAt(key, first + 1), offset)
  {
    assert 5 * i / 8 == first && 5 * i % 8 == offset;
    WordWindow(ByteAt(key, first), ByteAt(key, first + 1), offset);
  }

  // Of the windows that overlap byte d, the first that differs differs the same
  // way; `lead` is how many bits of byte d lie in window lo.
  lemma FirstDifferenceCases(a: Key, b: Key, d: nat) returns (i: nat)
    requires AgreeBefore(a, b, d)
    requires ByteAt(a, d) < ByteAt(b, d)
    ensures 8 * d / 5 <= i && 5 * i < 8 * d + 8
    ensures SymbolBits(a, i) < SymbolBits(b, i)
    ensures forall j: nat :: 8 * d / 5 <= j < i ==> SymbolBits(a, j) == SymbolBits(b, j)
  {
    hide ByteAt, SymbolBits;
    var lo := 8 * d / 5;
    var shift := 8 * d % 5;
    assert 5 * lo == 8 * d - shift;
    WindowsOver(a, d, lo, shift);
    WindowsOver(b, d, lo, shift);
    assert shift > 0 ==> ByteAt(a, d - 1) == ByteAt(b, d - 1);
    i := if SymbolBits(a, lo) < SymbolBits(b, lo) then lo
         else if SymbolBits(a, lo + 1) < SymbolBits(b, lo + 1) then lo + 1 else lo + 2;
    DifferenceByShift(ByteAt(a, d), ByteAt(b, d), ByteAt(a, d + 1), ByteAt(b, d + 1), shift);
  }

  // The part of byte x in the first, second and third window over it, and the
  // number of bits of the next byte y that the last of them takes.
  function PartIn(x: Byte, y: Byte, shift: nat, k: nat): nat
    requires shift < 5 && k < 3
  {
    if shift == 0 then (if k == 0 then x / 8 else if k == 1 then x % 8 * 4 + y / 64 else 0)
    else if shift == 1 then (if k == 0 then x / 16 else if k == 1 then x % 16 * 2 + y / 128 else 0)
    else if shift == 2 then (if k == 0 then x / 32 else if k == 1 then x % 32 else 0)
    else if shift == 3 then (if k == 0 then x / 64 else if k == 1 then x / 2 % 32 else x % 2 * 16 + y / 16)
    else (if k == 0 then x / 128 else if k == 1 then x / 4 % 32 else x % 4 * 8 + y / 32)
  }

  // What the previous byte p adds to the first window over the byte after it.
  function CarriedIn(p: Byte, shift: nat): nat
    requires 0 < shift < 5
  {
    if shift == 1 then p % 2 * 16 else if shift == 2 then p % 4 * 8
    else if shift == 3 then p % 8 * 4 else p % 16 * 2
  }

  lemma WindowsOver(key: Key, d: nat, lo: nat, shift: nat)
    requires shift < 5 && 5 * lo + shift == 8 * d
    ensures shift == 0 ==> SymbolBits(key, lo) == PartIn(ByteAt(key, d), ByteAt(key, d + 1), shift, 0)
    ensures shift > 0 ==> d > 0
    ensures shift > 0 ==> SymbolBits(key, lo) == CarriedIn(ByteAt(key, d - 1), shift)
                                                 + PartIn(ByteAt(key, d), ByteAt(key, d + 1), shift, 0)
    ensures SymbolBits(key, lo + 1) == PartIn(ByteAt(key, d), ByteAt(key, d + 1), shift, 1) || shift > 4
    ensures shift >= 3 ==> SymbolBits(key, lo + 2) == PartIn(ByteAt(key, d), ByteAt(key, d + 1), shift, 2)
  {
    if shift == 0 {
      SymbolWindow(key, lo, d, 0);
      SymbolWindow(key, lo + 1, d, 5);
    } else {
      SymbolWindow(key, lo, d - 1, 8 - shift);
      SymbolWindow(key, lo + 1, d, 5 - shift);
      if shift >= 3 {
        SymbolWindow(key, lo + 2, d, 10 - shift);
      }
    }
  }

  lemma DifferenceByShift(x: Byte, y: Byte, x1: Byte, y1: Byte, shift: nat)
    requires x < y && shift < 5
    ensures PartIn(x, x1, shift, 0) <= PartIn(y, y1, shift, 0)
    ensures PartIn(x, x1, shift, 0) == PartIn(y, y1, shift, 0) ==>
              if shift < 3 then PartIn(x, x1, shift, 1) < PartIn(y, y1, shift, 1)
              else PartIn(x, x1, shift, 1) <= PartIn(y, y1, shift, 1)
    ensures shift >= 3 && PartIn(x, x1, shift, 0) == PartIn(y, y1, shift, 0)
            && PartIn(x, x1, shift, 1) == PartIn(y, y1, shift, 1)
            ==> PartIn(x, x1, shift, 2) < PartIn(y, y1, shift, 2)
  {
    if shift < 3 {
      TwoWindows(x, y, x1, y1, shift);
    } else if shift == 3 {
      ThreeWindows(x, y, x1, y1);
    } else {
      FourthWindows(x, y, x1, y1);
    }
  }

  lemma TwoWindows(x: Byte, y: Byte, x1: Byte, y1: Byte, shift: nat)
    requires x < y && shift < 3
    ensures PartIn(x, x1, shift, 0) <= PartIn(y, y1, shift, 0)
    ensures PartIn(x, x1, shift, 0) == PartIn(y, y1, shift, 0) ==>
              PartIn(x, x1, shift, 1) < PartIn(y, y1, shift, 1)
  {
    if shift == 0 {
      assert PartIn(x, x1, 0, 0) == x / 8 && PartIn(y, y1, 0, 0) == y / 8;
    } else if shift == 1 {
      assert PartIn(x, x1, 1, 0) == x / 16 && PartIn(y, y1, 1, 0) == y / 16;
    } else {
      assert PartIn(x, x1, 2, 0) == x / 32 && PartIn(y, y1, 2, 0) == y / 32;
    }
  }

  lemma FourthWindows(x: Byte, y: Byte, x1: Byte, y1: Byte)
    requires x < y
    ensures x / 128 <= y / 128
    ensures x / 128 == y / 128 ==> x / 4 % 32 <= y / 4 % 32
    ensures x / 128 == y / 128 && x / 4 % 32 == y / 4 % 32 ==>
              x % 4 * 8 + x1 / 32 < y % 4 * 8 + y1 / 32
  {
    assert x / 4 % 32 == x % 128 / 4 && y / 4 % 32 == y % 128 / 4;
  }

  lemma ThreeWindows(x: Byte, y: Byte, x1: Byte, y1: Byte)
    requires x < y
    ensures x / 64 <= y / 64
    ensures x / 64 == y / 64 ==> x / 2 % 32 <= y / 2 % 32
    ensures x / 64 == y / 64 && x / 2 % 32 == y / 2 % 32 ==>
              x % 2 * 16 + x1 / 16 < y % 2 * 16 + y1 / 16
  {
    DivideExactly(x / 2, 32, x / 64, x % 64 / 2);
    DivideExactly(y / 2, 32, y / 64, y % 64 / 2);
    ThreeDigits(x / 64, x / 2 % 32, x % 2, y / 64, y / 2 % 32, y % 2);
  }

  lemma ThreeDigits(h: nat, m: nat, l: nat, h': nat, m': nat, l': nat)
    requires m < 32 && m' < 32 && l < 2 && l' < 2
    requires 64 * h + 2 * m + l < 64 * h' + 2 * m' + l'
    ensures h <= h'
    ensures h == h' ==> m <= m'
    ensures h == h' && m == m' ==> l < l'
  {
  }

  // The first position at which the byte order is decided.
  lemma DecidingByte(a: Key, b: Key) returns (d: nat)
    requires KeyCompare(a, b) < 0
    ensures d <= |a| && d < |b| && a[..d] == b[..d]
    ensures d == |a| || a[d] < b[d]
  {
    var m := if |a| < |b| then |a| else |b|;
    d := MemcmpPosition(a[..m], b[..m]);
    assert a[..d] == a[..m][..d] && b[..d] == b[..m][..d];
    if d < m {
      assert a[..m][d] == a[d] && b[..m][d] == b[d];
    }
  }

  lemma MemcmpPosition(a: Key, b: Key) returns (d: nat)
    requires |a| == |b|
    ensures d <= |a| && a[..d] == b[..d]
    ensures d < |a| ==> a[d] != b[d] && Memcmp(a, b) == a[d] as int - b[d] as int
    ensures d == |a| ==> Memcmp(a, b) == 0
  {
    if |a| == 0 || a[0] != b[0] {
      d := 0;
    } else {
      d := MemcmpPosition(a[1..], b[1..]);
      assert a[..d + 1] == [a[0]] + a[1..][..d];
      assert b[..d + 1] == [b[0]] + b[1..][..d];
      d := d + 1;
    }
  }

  lemma SymbolsPrefixAgree(a: Key, b: Key, i: nat)
    requires i <= NumDataSymbols(|a|) && i <= NumDataSymbols(|b|)
    requires forall j: nat :: j < i ==> SymbolBits(a, j) == SymbolBits(b, j)
    ensures Symbols(a)[..i] == Symbols(b)[..i]
  {
    forall j: nat | j < i
      ensures Symbols(a)[..i][j] == Symbols(b)[..i][j]
    {
    }
  }

  // A smaller key has the smaller symbol sequence.
  lemma EncodingMonotone(a: Key, b: Key)
    requires KeyCompare(a, b) < 0
    ensures SymLess(Symbols(a), Symbols(b))
  {
    var d := DecidingByte(a, b);
    forall j: nat | j < d
      ensures ByteAt(a, j) == ByteAt(b, j)
    {
      assert a[j] == a[..d][j] == b[..d][j] == b[j];
    }
    if ByteAt(a, d) < ByteAt(b, d) {
      var i := FirstDifference(a, b, d);
      if d < |a| || i < NumDataSymbols(|a|) {
        SymbolsPrefixAgree(a, b, i);
        assert LessAt(Symbols(a), Symbols(b), i);
      } else {
        EndBeforeData(a, b);
      }
    } else {
      EndBeforeData(a, b);
    }
  }

  // When a is a proper prefix of b, a's END meets a data symbol of b unless
  // the zero-filled last symbol of a already decides.
  lemma EndBeforeData(a: Key, b: Key)
    requires |a| < |b| && a == b[..|a|]
    ensures SymLess(Symbols(a), Symbols(b))
  {
    hide SymbolBits;
    var d, m := |a|, NumDataSymbols(|a|);
    forall j: nat | j < d
      ensures ByteAt(a, j) == ByteAt(b, j)
    {
      assert b[j] == b[..d][j] == a[j];
    }
    assert m < NumDataSymbols(|b|);
    forall j: nat | 5 * j + 5 <= 8 * d
      ensures SymbolBits(a, j) == SymbolBits(b, j)
    {
      SymbolsAgree(a, b, d, j);
    }
    if m > 0 && SymbolBits(a, m - 1) != SymbolBits(b, m - 1) {
      LastPartialSymbol(a, b);
      SymbolsPrefixAgree(a, b, m - 1);
      assert LessAt(Symbols(a), Symbols(b), m - 1);
    } else {
      SymbolsPrefixAgree(a, b, m);
      assert LessAt(Symbols(a), Symbols(b), m);
    }
  }

  lemma LastPartialSymbol(a: Key, b: Key)
    requires 0 < |a| < |b| && a == b[..|a|]
    ensures SymbolBits(a, NumDataSymbols(|a|) - 1) <= SymbolBits(b, NumDataSymbols(|a|) - 1)
  {
    var d, i := |a|, NumDataSymbols(|a|) - 1;
    assert b[d - 1] == b[..d][d - 1] == a[d - 1];
    var offset := 5 * i - 8 * (d - 1);
    assert offset == [3, 5, 7, 4, 6][d % 5];
    SymbolWindow(a, i, d - 1, offset);
    SymbolWindow(b, i, d - 1, offset);
  }

  // Comparing keys is antisymmetric, and zero only on equal keys.
  lemma CompareAntisymmetric(a: Key, b: Key)
    ensures KeyCompare(a, b) < 0 <==> KeyCompare(b, a) > 0
    ensures KeyCompare(a, b) == 0 <==> a == b
  {
    var m := if |a| < |b| then |a| else |b|;
    MemcmpAntisymmetric(a[..m], b[..m]);
    var d := MemcmpPosition(a[..m], b[..m]);
  }

  lemma MemcmpAntisymmetric(a: Key, b: Key)
    requires |a| == |b|
    ensures Memcmp(a, b) == -Memcmp(b, a)
  {
  }

  // The encoding is an order isomorphism onto its image: comparing symbol
  // sequences decides exactly as comparing keys does.
  lemma EncodingOrderIsomorphism(a: Key, b: Key)
    ensures KeyCompare(a, b) < 0 <==> SymLess(Symbols(a), Symbols(b))
    ensures KeyCompare(a, b) == 0 <==> Symbols(a) == Symbols(b)
  {
    CompareAntisymmetric(a, b);
    CompareAntisymmetric(b, a);
    SymLessIrreflexive(Symbols(a));
    if KeyCompare(a, b) < 0 {
      EncodingMonotone(a, b);
    } else if KeyCompare(b, a) < 0 {
      EncodingMonotone(b, a);
      if SymLess(Symbols(a), Symbols(b)) {
        SymLessTransitive(Symbols(a), Symbols(b), Symbols(a));
      }
    }
  }

  lemma PrefixNotLess(s: seq<int>, t: seq<int>)
    requires s <= t
    ensures !SymLess(s, t) && !SymLess(t, s)
  {
    assert s == t[..|s|];
    assert forall i: nat :: i < |s| ==> s[i] == t[i];
  }

  // No key's encoding is a prefix of another key's encoding.
  lemma EncodingPrefixFree(a: Key, b: Key)
    requires Symbols(a) <= Symbols(b)
    ensures a == b
  {
    PrefixNotLess(Symbols(a), Symbols(b));
    SymLessTotal(a, b);
  }

  // END occurs exactly at the last position of an encoding.
  lemma EndIsLast(key: Key, i: nat)
    requires i < |Symbols(key)|
    ensures Symbols(key)[i] == SYMBOL_END <==> i == |Symbols(key)| - 1
  {
  }

  lemma SymLessTotal(a: Key, b: Key)
    ensures a == b || SymLess(Symbols(a), Symbols(b)) || SymLess(Symbols(b), Symbols(a))
  {
    CompareAntisymmetric(a, b);
    EncodingOrderIsomorphism(a, b);
    EncodingOrderIsomorphism(b, a);
    CompareAntisymmetric(b, a);
  }

  // ------------------------------------------------------------------
  // The blocked encoder: five key bytes become eight symbols at a time
  // ------------------------------------------------------------------

  // The next five key bytes as one big-endian 40-bit number, zero-filled.
  function ReadBlock(key: Key, pos: nat): nat
  {
    ByteAt(key, pos) * 0x1_0000_0000 + ByteAt(key, pos + 1) * 0x100_0000 + ByteAt(key, pos + 2) * 0x1_0000
    + ByteAt(key, pos + 3) * 0x100 + ByteAt(key, pos + 4)
  }

  // The k'th five-bit group of a 40-bit block, most significant first.
  function Deposited(block: nat, k: nat): (v: nat)
    requires k < 8
    ensures v < FANOUT
  {
    (if k == 0 then block / 0x8_0000_0000 else if k == 1 then block / 0x4000_0000
     else if k == 2 then block / 0x200_0000 else if k == 3 then block / 0x10_0000
     else if k == 4 then block / 0x8000 else if k == 5 then block / 0x400
     else if k == 6 then block / 0x20 else block) % FANOUT
  }

  lemma BlockGroups(b0: Byte, b1: Byte, b2: Byte, b3: Byte, b4: Byte, block: nat)
    requires block == b0 * 0x1_0000_0000 + b1 * 0x100_0000 + b2 * 0x1_0000 + b3 * 0x100 + b4
    ensures Deposited(block, 0) == b0 / 8
    ensures Deposited(block, 1) == b0 % 8 * 4 + b1 / 64
    ensures Deposited(block, 2) == b1 / 2 % 32
    ensures Deposited(block, 3) == b1 % 2 * 16 + b2 / 16
    ensures Deposited(block, 4) == b2 % 16 * 2 + b3 / 128
    ensures Deposited(block, 5) == b3 / 4 % 32
    ensures Deposited(block, 6) == b3 % 4 * 8 + b4 / 32
    ensures Deposited(block, 7) == b4 % 32
  {
    HighGroups(b0, b1, b2 * 0x1_0000 + b3 * 0x100 + b4, block);
    MiddleGroups(b0, b1, b2, b3, b4, block);
    LowGroups(b0 * 0x1_0000 + b1 * 0x100 + b2, b3, b4, block);
  }

  lemma HighGroups(b0: Byte, b1: Byte, rest: nat, block: nat)
    requires rest < 0x100_0000
    requires block == b0 * 0x1_0000_0000 + b1 * 0x100_0000 + rest
    ensures Deposited(block, 0) == b0 / 8
    ensures Deposited(block, 1) == b0 % 8 * 4 + b1 / 64
    ensures Deposited(block, 2) == b1 / 2 % 32
  {
    hide Deposited;
    FirstGroup(b0, b1 * 0x100_0000 + rest, block);
    SecondGroup(b0, b1, rest, block);
    ThirdGroup(b0, b1, rest, block);
  }

  lemma FirstGroup(b0: Byte, rest: nat, block: nat)
    requires rest < 0x1_0000_0000 && block == b0 * 0x1_0000_0000 + rest
    ensures Deposited(block, 0) == b0 / 8
  {
    DivideExactly(block, 0x8_0000_0000, b0 / 8, b0 % 8 * 0x1_0000_0000 + rest);
  }

  lemma SecondGroup(b0: Byte, b1: Byte, rest: nat, block: nat)
    requires rest < 0x100_0000 && block == b0 * 0x1_0000_0000 + b1 * 0x100_0000 + rest
    ensures Deposited(block, 1) == b0 % 8 * 4 + b1 / 64
  {
    DivideExactly(block, 0x4000_0000, b0 * 4 + b1 / 64, b1 % 64 * 0x100_0000 + rest);
    DivideExactly(b0 * 4 + b1 / 64, 32, b0 / 8, b0 % 8 * 4 + b1 / 64);
  }

  lemma ThirdGroup(b0: Byte, b1: Byte, rest: nat, block: nat)
    requires rest < 0x100_0000 && block == b0 * 0x1_0000_0000 + b1 * 0x100_0000 + rest
    ensures Deposited(block, 2) == b1 / 2 % 32
  {
    DivideExactly(block, 0x200_0000, b0 * 128 + b1 / 2, b1 % 2 * 0x100_0000 + rest);
    DivideExactly(b0 * 128 + b1 / 2, 32, b0 * 4 + b1 / 64, b1 / 2 % 32);
  }

  lemma MiddleGroups(b0: Byte, b1: Byte, b2: Byte, b3: Byte, b4: Byte, block: nat)
    requires block == b0 * 0x1_0000_0000 + b1 * 0x100_0000 + b2 * 0x1_0000 + b3 * 0x100 + b4
    ensures Deposited(block, 3) == b1 % 2 * 16 + b2 / 16
    ensures Deposited(block, 4) == b2 % 16 * 2 + b3 / 128
  {
    var high := b0 * 128 + b1 / 2;
    var q3, low3 := high * 32 + b1 % 2 * 16 + b2 / 16, b2 % 16 * 0x1_0000 + b3 * 0x100 + b4;
    DivideExactly(block, 0x10_0000, q3, low3);
    DivideExactly(q3, 32, high, b1 % 2 * 16 + b2 / 16);
    var q4, low4 := q3 * 32 + b2 % 16 * 2 + b3 / 128, b3 % 128 * 0x100 + b4;
    DivideExactly(block, 0x8000, q4, low4);
    DivideExactly(q4, 32, q3, b2 % 16 * 2 + b3 / 128);
  }

  lemma LowGroups(high: nat, b3: Byte, b4: Byte, block: nat)
    requires block == high * 0x1_0000 + b3 * 0x100 + b4
    ensures Deposited(block, 5) == b3 / 4 % 32
    ensures Deposited(block, 6) == b3 % 4 * 8 + b4 / 32
    ensures Deposited(block, 7) == b4 % 32
  {
    DivideExactly(block, 0x400, high * 64 + b3 / 4, b3 % 4 * 0x100 + b4);
    DivideExactly(high * 64 + b3 / 4, 32, high * 2 + b3 / 128, b3 / 4 % 32);
    DivideExactly(block, 0x20, high * 0x800 + b3 * 8 + b4 / 32, b4 % 32);
    DivideExactly(high * 0x800 + b3 * 8 + b4 / 32, 32, high * 64 + b3 / 4, b3 % 4 * 8 + b4 / 32);
  }

  // The byte of a block in which symbol k starts, and at which bit.
  function StartByte(k: nat): nat
    requires k < 8
  {
    if k < 2 then 0 else if k < 4 then 1 else if k == 4 then 2 else if k < 7 then 3 else 4
  }

  lemma {:induction false} BlockWindow(key: Key, p: nat, k: nat)
    requires k < 8
    ensures 8 * StartByte(k) <= 5 * k < 8 * StartByte(k) + 8
    ensures Deposited(ReadBlock(key, p), k) ==
            Window(ByteAt(key, p + StartByte(k)), ByteAt(key, p + StartByte(k) + 1), 5 * k - 8 * StartByte(k))
  {
    BlockGroups(ByteAt(key, p), ByteAt(key, p + 1), ByteAt(key, p + 2), ByteAt(key, p + 3), ByteAt(key, p + 4),
                ReadBlock(key, p));
  }

  lemma {:induction false} DepositedIsSymbol(key: Key, block: nat, k: nat)
    requires k < 8
    ensures Deposited(ReadBlock(key, 5 * block), k) == SymbolBits(key, 8 * block + k)
  {
    BlockWindow(key, 5 * block, k);
    SymbolWindow(key, 8 * block + k, 5 * block + StartByte(k), 5 * k - 8 * StartByte(k));
  }

  // Encodes the key, writing whole blocks of eight symbols; only the first
  // NumDataSymbols(|key|) of them are meaningful.
  method KeyToSymbols(key: Key, symbols: array<Symbol>)
    requires symbols.Length >= 8 * ((|key| + 4) / 5)
    modifies symbols
    ensures forall i: nat :: i < NumDataSymbols(|key|) ==> symbols[i] == GetStringSymbol(key, i)
    ensures forall i: nat :: 8 * ((|key| + 4) / 5) <= i < symbols.Length ==> symbols[i] == old(symbols[i])
  {
    var bytesLeft: int := |key|;
    var keyPos, symPos := 0, 0;
    ghost var block := 0;
    while bytesLeft > 0
      invariant keyPos == 5 * block && symPos == 8 * block && bytesLeft == |key| - keyPos
      invariant symPos <= 8 * ((|key| + 4) / 5)
      invariant forall i: nat :: i < symPos ==> symbols[i] == SymbolBits(key, i) + 1
      invariant forall i: nat :: symPos <= i < symbols.Length ==> symbols[i] == old(symbols[i])
    {
      var group := ReadBlock(key, keyPos);
      forall k: nat | k < 8
        ensures Deposited(group, k) == SymbolBits(key, symPos + k)
      {
        DepositedIsSymbol(key, block, k);
      }
      forall k: nat | k < 8 {
        symbols[symPos + k] := Deposited(group, k) + 1;
      }
      assert forall i: nat | symPos <= i < symPos + 8 :: symbols[i] == SymbolBits(key, symPos + (i - symPos)) + 1;
      symPos := symPos + 8;
      keyPos := keyPos + BITS_PER_SYMBOL;
      bytesLeft := bytesLeft - BITS_PER_SYMBOL;
      block := block + 1;
    }
  }
}
