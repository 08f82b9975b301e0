// Entry headers at the bit level: the scalar searches and colour chooser, and the
// vectorized forms that must agree with them.
module Headers {
  import opened Arithmetic
  import Store

  // The low three bytes of a cell's header word, little-endian: byte 0 is the parent
  // colour and the flags, byte 1 the colour and the tag, byte 2 the last symbol.
  // The search masks are zero above them.
  type Header = bv24

  const InvalidColor: bv24 := Store.INVALID_COLOR as bv24
  const FLAG_SECONDARY_BUCKET: bv24 := 4
  const TYPE_MASK: bv24 := 3

  function EntryType(h: Header): bv24 { h & TYPE_MASK }

  function EntryColor(h: Header): bv24 { ((h >> 8) & 0xFF) >> 4 }

  function EntryTag(h: Header): bv24 { (h >> 8) & 0xF }

  function EntryParentColor(h: Header): bv24 { (h & 0xFF) >> 4 }

  function EntryLastSymbol(h: Header): bv24 { (h >> 16) & 0xFF }

  function SecondaryBit(isSecondary: bool): bv24 { if isSecondary then FLAG_SECONDARY_BUCKET else 0 }

  // Unused cells hold INVALID_COLOR as colour and as parent colour.
  ghost predicate UnusedAreInvalid(cells: seq<Header>) {
    forall i :: 0 <= i < |cells| && EntryType(cells[i]) == 0 ==>
      EntryColor(cells[i]) == InvalidColor && EntryParentColor(cells[i]) == InvalidColor
  }

  // ------------------------------------------------------------------
  // Masks and values of the two searches
  // ------------------------------------------------------------------

  function ColorSearchMask(): bv24 {
    (0xF << 8) | (0xF0 << 8) | FLAG_SECONDARY_BUCKET
  }

  function ColorSearchValues(isSecondary: bool, tag: bv24, color: bv24): bv24 {
    (tag << 8) | (color << 12) | SecondaryBit(isSecondary)
  }

  function ParentSearchMask(): bv24 {
    (0xF << 8) | (0xFF << 16) | 0xF0 | FLAG_SECONDARY_BUCKET
  }

  function ParentSearchValues(isSecondary: bool, tag: bv24, lastSymbol: bv24, parentColor: bv24): bv24 {
    Pack(SecondaryBit(isSecondary), tag, lastSymbol, parentColor)
  }

  predicate Matches(h: Header, mask: bv24, values: bv24) { h & mask == values }

  // The masked comparison by colour is the comparison of the three fields.
  lemma ColorSearchMeaning(h: Header, isSecondary: bool, tag: bv24, color: bv24)
    requires tag < 16 && color < 16
    ensures Matches(h, ColorSearchMask(), ColorSearchValues(isSecondary, tag, color))
       <==> EntryTag(h) == tag && EntryColor(h) == color
            && h & FLAG_SECONDARY_BUCKET == SecondaryBit(isSecondary)
  {
  }

  function Pack(secondary: bv24, tag: bv24, lastSymbol: bv24, parentColor: bv24): bv24 {
    (tag << 8) | (lastSymbol << 16) | (parentColor << 4) | secondary
  }

  // Masking keeps exactly the four fields of a search by parent.
  lemma MaskedFields(h: Header)
    ensures h & ParentSearchMask()
         == Pack(h & FLAG_SECONDARY_BUCKET, EntryTag(h), EntryLastSymbol(h), EntryParentColor(h))
    ensures EntryTag(h) < 16 && EntryLastSymbol(h) < 256 && EntryParentColor(h) < 16
    ensures h & FLAG_SECONDARY_BUCKET == 0 || h & FLAG_SECONDARY_BUCKET == 4
  {
  }

  lemma PackedLow(secondary: bv24, tag: bv24, lastSymbol: bv24, parentColor: bv24)
    requires tag < 16 && lastSymbol < 256 && parentColor < 16 && (secondary == 0 || secondary == 4)
    ensures EntryParentColor(Pack(secondary, tag, lastSymbol, parentColor)) == parentColor
    ensures Pack(secondary, tag, lastSymbol, parentColor) & 4 == secondary
  {
  }

  lemma PackedHigh(secondary: bv24, tag: bv24, lastSymbol: bv24, parentColor: bv24)
    requires tag < 16 && lastSymbol < 256 && parentColor < 16 && (secondary == 0 || secondary == 4)
    ensures EntryTag(Pack(secondary, tag, lastSymbol, parentColor)) == tag
    ensures EntryLastSymbol(Pack(secondary, tag, lastSymbol, parentColor)) == lastSymbol
  {
  }

  lemma PackInjective(s1: bv24, t1: bv24, l1: bv24, p1: bv24, s2: bv24, t2: bv24, l2: bv24, p2: bv24)
    requires t1 < 16 && l1 < 256 && p1 < 16 && (s1 == 0 || s1 == 4)
    requires t2 < 16 && l2 < 256 && p2 < 16 && (s2 == 0 || s2 == 4)
    requires Pack(s1, t1, l1, p1) == Pack(s2, t2, l2, p2)
    ensures s1 == s2 && t1 == t2 && l1 == l2 && p1 == p2
  {
    PackedLow(s1, t1, l1, p1);
    PackedLow(s2, t2, l2, p2);
    PackedHigh(s1, t1, l1, p1);
    PackedHigh(s2, t2, l2, p2);
  }

  // The masked comparison by parent is the comparison of the four fields.
  lemma {:induction false} ParentSearchMeaning(h: Header, isSecondary: bool, tag: bv24, lastSymbol: bv24,
                                               parentColor: bv24)
    requires tag < 16 && lastSymbol < 256 && parentColor < 16
    ensures Matches(h, ParentSearchMask(), ParentSearchValues(isSecondary, tag, lastSymbol, parentColor))
       <==> EntryTag(h) == tag && EntryLastSymbol(h) == lastSymbol && EntryParentColor(h) == parentColor
            && h & FLAG_SECONDARY_BUCKET == SecondaryBit(isSecondary)
  {
    MaskedFields(h);
    hide Pack, EntryTag, EntryLastSymbol, EntryParentColor, ParentSearchMask;
    var s, t, l, p := h & FLAG_SECONDARY_BUCKET, EntryTag(h), EntryLastSymbol(h), EntryParentColor(h);
    if Matches(h, ParentSearchMask(), ParentSearchValues(isSecondary, tag, lastSymbol, parentColor)) {
      PackInjective(s, t, l, p, SecondaryBit(isSecondary), tag, lastSymbol, parentColor);
    }
  }

  // r is the first cell of the bucket with property p, or -1 if there is none.
  ghost predicate IsFirst(cells: seq<Header>, p: Header -> bool, r: int) {
    && -1 <= r < |cells|
    && (r >= 0 ==> p(cells[r]) && forall i :: 0 <= i < r ==> !p(cells[i]))
    && (r == -1 ==> forall i :: 0 <= i < |cells| ==> !p(cells[i]))
  }

  // ------------------------------------------------------------------
  // Scalar search
  // ------------------------------------------------------------------

  method FindScalar(cells: seq<Header>, mask: bv24, values: bv24) returns (r: int)
    requires |cells| == Store.CUCKOO_BUCKET_SIZE
    ensures IsFirst(cells, h => Matches(h, mask, values), r)
  {
    var i := 0;
    while i < Store.CUCKOO_BUCKET_SIZE
      invariant 0 <= i <= Store.CUCKOO_BUCKET_SIZE
      invariant forall k :: 0 <= k < i ==> !Matches(cells[k], mask, values)
    {
      if Matches(cells[i], mask, values) {
        return i;
      }
      i := i + 1;
    }
    return -1;
  }

  // ------------------------------------------------------------------
  // Vectorized searches
  // ------------------------------------------------------------------

  // The cheap check that both vectorized searches make first.
  predicate Prefilter(h: Header, tag: bv24) {
    h & TYPE_MASK != 0 && h & (0xF << 8) == (tag & 0xF) << 8
  }

  method FindByParentVectorized(cells: seq<Header>, isSecondary: bool, tag: bv24, lastSymbol: bv24, parentColor: bv24)
      returns (r: int)
    requires |cells| == Store.CUCKOO_BUCKET_SIZE
    requires tag < 16 && lastSymbol < 256 && parentColor < 16
    ensures IsFirst(cells, h => EntryType(h) != 0
                                && Matches(h, ParentSearchMask(),
                                           ParentSearchValues(isSecondary, tag, lastSymbol, parentColor)), r)
  {
    var mask := ParentSearchMask();
    var values := ParentSearchValues(isSecondary, tag, lastSymbol, parentColor);
    ParentMatchPassesPrefilter(cells[0], isSecondary, tag, lastSymbol, parentColor);
    ParentMatchPassesPrefilter(cells[1], isSecondary, tag, lastSymbol, parentColor);
    ParentMatchPassesPrefilter(cells[2], isSecondary, tag, lastSymbol, parentColor);
    ParentMatchPassesPrefilter(cells[3], isSecondary, tag, lastSymbol, parentColor);
    if Prefilter(cells[0], tag) && Matches(cells[0], mask, values) {
      return 0;
    }
    if Prefilter(cells[1], tag) && Matches(cells[1], mask, values) {
      return 1;
    }
    if Prefilter(cells[2], tag) && Matches(cells[2], mask, values) {
      return 2;
    }
    if Prefilter(cells[3], tag) && Matches(cells[3], mask, values) {
      return 3;
    }
    return -1;
  }

  lemma ParentMatchPassesPrefilter(h: Header, isSecondary: bool, tag: bv24, lastSymbol: bv24, parentColor: bv24)
    requires tag < 16 && lastSymbol < 256 && parentColor < 16
    ensures Matches(h, ParentSearchMask(), ParentSearchValues(isSecondary, tag, lastSymbol, parentColor))
            ==> (Prefilter(h, tag) <==> EntryType(h) != 0)
    ensures Prefilter(h, tag) ==> EntryType(h) != 0
  {
    ParentSearchMeaning(h, isSecondary, tag, lastSymbol, parentColor);
    PrefilterMeaning(h, tag);
  }

  lemma ColorMatchPassesPrefilter(h: Header, isSecondary: bool, tag: bv24, color: bv24)
    requires tag < 16 && color < 16
    ensures Matches(h, ColorSearchMask(), ColorSearchValues(isSecondary, tag, color))
            ==> (Prefilter(h, tag) <==> EntryType(h) != 0)
    ensures Prefilter(h, tag) ==> EntryType(h) != 0
  {
    ColorSearchMeaning(h, isSecondary, tag, color);
    PrefilterMeaning(h, tag);
  }

  lemma PrefilterMeaning(h: Header, tag: bv24)
    requires tag < 16
    ensures Prefilter(h, tag) <==> EntryType(h) != 0 && EntryTag(h) == tag
  {
  }

  // The result of a lane-wise 64-bit compare is all ones (true) or zero (false).
  // The lane of the by-colour search: type and tag prefilter, then the full header.
  predicate ColorLane(h: Header, mask: bv24, values: bv24, tag: bv24) {
    var typeNonzero := !(h & TYPE_MASK == 0);
    var tagCheck := h & (0xF << 8) == (tag & 0xF) << 8;
    typeNonzero && tagCheck && h & mask == values
  }

  // The sign bits of the eight bytes of a lane.
  function LaneSigns(lane: bool): nat { if lane then 255 else 0 }

  function MoveMask(lane0: bool, lane1: bool): nat { LaneSigns(lane0) + 256 * LaneSigns(lane1) }

  // Which of two lanes matched first, from the byte mask of both.
  lemma FirstLane(lane0: bool, lane1: bool)
    ensures MoveMask(lane0, lane1) != 0 <==> lane0 || lane1
    ensures lane0 ==> CountTrailingZeros(MoveMask(lane0, lane1)) / 8 == 0
    ensures !lane0 && lane1 ==> CountTrailingZeros(MoveMask(lane0, lane1)) / 8 == 1
  {
    if lane0 {
      assert MoveMask(lane0, lane1) % 2 == 1;
    } else if lane1 {
      assert CountTrailingZeros(255) == 0;
      assert CountTrailingZeros(2040) == 3;
      assert CountTrailingZeros(16320) == 6;
      assert CountTrailingZeros(65280) == 8;
    }
  }

  lemma ColorLaneMeaning(h: Header, isSecondary: bool, tag: bv24, color: bv24)
    requires tag < 16 && color < 16
    ensures ColorLane(h, ColorSearchMask(), ColorSearchValues(isSecondary, tag, color), tag)
       <==> EntryType(h) != 0 && Matches(h, ColorSearchMask(), ColorSearchValues(isSecondary, tag, color))
  {
    ColorMatchPassesPrefilter(h, isSecondary, tag, color);
  }

  method FindByColorVectorized(cells: seq<Header>, isSecondary: bool, tag: bv24, color: bv24) returns (r: int)
    requires |cells| == Store.CUCKOO_BUCKET_SIZE
    requires tag < 16 && color < 16
    ensures IsFirst(cells, h => EntryType(h) != 0
                                && Matches(h, ColorSearchMask(), ColorSearchValues(isSecondary, tag, color)), r)
  {
    var mask := ColorSearchMask();
    var values := ColorSearchValues(isSecondary, tag, color);
    ColorLaneMeaning(cells[0], isSecondary, tag, color);
    ColorLaneMeaning(cells[1], isSecondary, tag, color);
    ColorLaneMeaning(cells[2], isSecondary, tag, color);
    ColorLaneMeaning(cells[3], isSecondary, tag, color);
    var l0, l1 := ColorLane(cells[0], mask, values, tag), ColorLane(cells[1], mask, values, tag);
    FirstLane(l0, l1);
    var m01 := MoveMask(l0, l1);
    if m01 != 0 {
      return CountTrailingZeros(m01) / 8;
    }
    var l2, l3 := ColorLane(cells[2], mask, values, tag), ColorLane(cells[3], mask, values, tag);
    FirstLane(l2, l3);
    var m23 := MoveMask(l2, l3);
    if m23 == 0 {
      return -1;
    }
    return 2 + CountTrailingZeros(m23) / 8;
  }

  // ------------------------------------------------------------------
  // Scalar and vectorized searches agree
  // ------------------------------------------------------------------

  // With a valid colour, the vectorized search by colour finds what the scalar one
  // finds exactly when the scalar one does not stop at an unused cell.
  lemma ColorSearchesAgree(cells: seq<Header>, isSecondary: bool, tag: bv24, color: bv24, scalar: int, vectorized: int)
    requires |cells| == Store.CUCKOO_BUCKET_SIZE && tag < 16 && color < 16
    requires IsFirst(cells, h => Matches(h, ColorSearchMask(), ColorSearchValues(isSecondary, tag, color)), scalar)
    requires IsFirst(cells, h => EntryType(h) != 0
                                 && Matches(h, ColorSearchMask(), ColorSearchValues(isSecondary, tag, color)),
                     vectorized)
    ensures scalar == vectorized <==> scalar == -1 || EntryType(cells[scalar]) != 0
    ensures UnusedAreInvalid(cells) && color < InvalidColor ==> scalar == vectorized
  {
    if scalar >= 0 {
      ColorSearchMeaning(cells[scalar], isSecondary, tag, color);
    }
  }

  lemma ParentSearchesAgree(cells: seq<Header>, isSecondary: bool, tag: bv24, lastSymbol: bv24, parentColor: bv24,
                            scalar: int, vectorized: int)
    requires |cells| == Store.CUCKOO_BUCKET_SIZE && tag < 16 && lastSymbol < 256 && parentColor < 16
    requires IsFirst(cells, h => Matches(h, ParentSearchMask(),
                                         ParentSearchValues(isSecondary, tag, lastSymbol, parentColor)), scalar)
    requires IsFirst(cells, h => EntryType(h) != 0
                                 && Matches(h, ParentSearchMask(),
                                            ParentSearchValues(isSecondary, tag, lastSymbol, parentColor)), vectorized)
    ensures scalar == vectorized <==> scalar == -1 || EntryType(cells[scalar]) != 0
    ensures UnusedAreInvalid(cells) && parentColor < InvalidColor ==> scalar == vectorized
  {
    if scalar >= 0 {
      ParentSearchMeaning(cells[scalar], isSecondary, tag, lastSymbol, parentColor);
    }
  }

  // ------------------------------------------------------------------
  // Colour choosers
  // ------------------------------------------------------------------

  // A 64-bit mask as its 64 bits.
  type Mask = m: seq<bool> | |m| == 64 witness seq(64, i => false)

  function OneHot(k: nat): Mask { seq(64, i => i == k) }

  function Or(a: Mask, b: Mask): Mask { seq(64, i requires 0 <= i < 64 => a[i] || b[i]) }

  function ColorIndex(h: Header): (c: nat)
    ensures c < 16
  {
    var c := EntryColor(h);
    assert c < 16;
    c as nat
  }

  // The vectorized way to get at the colour: mask the byte, shift once.
  function LaneColorIndex(h: Header): (c: nat)
    ensures c == ColorIndex(h)
  {
    assert (h & (0xFF << 8)) >> 12 == EntryColor(h);
    ((h & (0xFF << 8)) >> 12) as nat
  }

  ghost predicate HasColor(cells: seq<Header>, k: nat) {
    exists i :: 0 <= i < |cells| && ColorIndex(cells[i]) == k
  }

  ghost predicate MaskOf(m: Mask, cells: seq<Header>) {
    forall k :: 0 <= k < 64 ==> (m[k] <==> HasColor(cells, k))
  }

  // The smallest colour that no cell of the pair has.
  ghost predicate IsUnusedColor(bucket1: seq<Header>, bucket2: seq<Header>, c: nat) {
    && !HasColor(bucket1, c) && !HasColor(bucket2, c)
    && (forall k :: 0 <= k < c ==> HasColor(bucket1, k) || HasColor(bucket2, k))
  }

  ghost function Colors(cells: seq<Header>): (r: set<nat>)
    ensures |r| <= |cells|
    ensures forall i :: 0 <= i < |cells| ==> ColorIndex(cells[i]) in r
  {
    if |cells| == 0 then {} else Colors(cells[..|cells| - 1]) + {ColorIndex(cells[|cells| - 1])}
  }

  // n cells are needed to use all of the colours below n.
  lemma {:induction false} Pigeonhole(cells: seq<Header>, n: nat)
    requires forall k :: 0 <= k < n ==> HasColor(cells, k)
    ensures n <= |cells|
  {
    forall k | k in Range(n)
      ensures k in Colors(cells)
    {
      assert HasColor(cells, k);
    }
    SubsetCardinality(Range(n), Colors(cells));
  }

  // The index of the lowest clear bit.
  method LowestClearBit(used: Mask, ghost cells: seq<Header>) returns (r: nat)
    requires |cells| == 8 && MaskOf(used, cells)
    ensures r <= 8 && !used[r] && forall k :: 0 <= k < r ==> used[k]
  {
    r := 0;
    while used[r]
      invariant r <= 8 && forall k :: 0 <= k < r ==> used[k]
      decreases 8 - r
    {
      Pigeonhole(cells, r + 1);
      r := r + 1;
    }
  }

  // Scalar chooser: returns a colour in 0..8 that none of the eight cells has.
  method UnusedColorInPair(bucket1: seq<Header>, bucket2: seq<Header>) returns (c: nat)
    requires |bucket1| == Store.CUCKOO_BUCKET_SIZE && |bucket2| == Store.CUCKOO_BUCKET_SIZE
    ensures c <= 8 && IsUnusedColor(bucket1, bucket2, c)
  {
    var used: Mask := seq(64, i => false);
    var i := 0;
    while i < Store.CUCKOO_BUCKET_SIZE
      invariant 0 <= i <= Store.CUCKOO_BUCKET_SIZE
      invariant forall k :: 0 <= k < 64 ==> (used[k] <==> HasColor(bucket1[..i], k) || HasColor(bucket2[..i], k))
    {
      used := Or(used, OneHot(ColorIndex(bucket1[i])));
      used := Or(used, OneHot(ColorIndex(bucket2[i])));
      forall k | 0 <= k < 64
        ensures used[k] <==> HasColor(bucket1[..i + 1], k) || HasColor(bucket2[..i + 1], k)
      {
        OneMore(bucket1, i, k);
        OneMore(bucket2, i, k);
      }
      i := i + 1;
    }
    assert bucket1[..i] == bucket1 && bucket2[..i] == bucket2;
    forall k | 0 <= k < 64
      ensures used[k] <==> HasColor(bucket1 + bucket2, k)
    {
      ConcatColors(bucket1, bucket2, k);
    }
    c := LowestClearBit(used, bucket1 + bucket2);
  }

  lemma ConcatColors(bucket1: seq<Header>, bucket2: seq<Header>, k: nat)
    ensures HasColor(bucket1 + bucket2, k) <==> HasColor(bucket1, k) || HasColor(bucket2, k)
  {
    var all := bucket1 + bucket2;
    if HasColor(bucket1, k) {
      var i :| 0 <= i < |bucket1| && ColorIndex(bucket1[i]) == k;
      assert ColorIndex(all[i]) == k;
    }
    if HasColor(bucket2, k) {
      var i :| 0 <= i < |bucket2| && ColorIndex(bucket2[i]) == k;
      assert ColorIndex(all[|bucket1| + i]) == k;
    }
  }

  lemma OneMore(cells: seq<Header>, i: nat, k: nat)
    requires i < |cells|
    ensures HasColor(cells[..i + 1], k) <==> HasColor(cells[..i], k) || ColorIndex(cells[i]) == k
  {
    assert cells[..i + 1] == cells[..i] + [cells[i]];
    ConcatColors(cells[..i], [cells[i]], k);
    assert [cells[i]][0] == cells[i];
  }

  // AVX-512 chooser: eight lanes are shifted at once and or-ed together.
  method UnusedColorInPairAvx512(bucket1: seq<Header>, bucket2: seq<Header>) returns (c: nat)
    requires |bucket1| == Store.CUCKOO_BUCKET_SIZE && |bucket2| == Store.CUCKOO_BUCKET_SIZE
    ensures c <= 8 && IsUnusedColor(bucket1, bucket2, c)
  {
    var headers := bucket1 + bucket2;
    var lanes: seq<Mask> := seq(8, k requires 0 <= k < 8 => OneHot(LaneColorIndex(headers[k])));
    var low, high := Or(Or(lanes[0], lanes[1]), Or(lanes[2], lanes[3])),
        Or(Or(lanes[4], lanes[5]), Or(lanes[6], lanes[7]));
    FourLanes(headers[..4], lanes[0], lanes[1], lanes[2], lanes[3]);
    FourLanes(headers[4..], lanes[4], lanes[5], lanes[6], lanes[7]);
    var used := Or(low, high);
    LanesMask(headers, used);
    c := LowestClearBit(used, headers);
    forall k: nat
      ensures HasColor(headers, k) <==> HasColor(bucket1, k) || HasColor(bucket2, k)
    {
      ConcatColors(bucket1, bucket2, k);
    }
  }

  // AVX2 chooser: two vectors of four lanes are or-ed lane by lane, then together.
  method UnusedColorInPairAvx2(bucket1: seq<Header>, bucket2: seq<Header>) returns (c: nat)
    requires |bucket1| == Store.CUCKOO_BUCKET_SIZE && |bucket2| == Store.CUCKOO_BUCKET_SIZE
    ensures c <= 8 && IsUnusedColor(bucket1, bucket2, c)
  {
    var combined: seq<Mask> := seq(4, k requires 0 <= k < 4 =>
      Or(OneHot(LaneColorIndex(bucket1[k])), OneHot(LaneColorIndex(bucket2[k]))));
    var used := Or(Or(combined[0], combined[1]), Or(combined[2], combined[3]));
    ghost var headers := bucket1 + bucket2;
    LanesMask(headers, used);
    c := LowestClearBit(used, headers);
    forall k: nat
      ensures HasColor(headers, k) <==> HasColor(bucket1, k) || HasColor(bucket2, k)
    {
      ConcatColors(bucket1, bucket2, k);
    }
  }

  lemma FourLanes(headers: seq<Header>, a: Mask, b: Mask, c: Mask, d: Mask)
    requires |headers| == 4 && a == OneHot(LaneColorIndex(headers[0])) && b == OneHot(LaneColorIndex(headers[1]))
    requires c == OneHot(LaneColorIndex(headers[2])) && d == OneHot(LaneColorIndex(headers[3]))
    ensures forall k :: 0 <= k < 64 ==>
              (Or(Or(a, b), Or(c, d))[k] <==>
                 ColorIndex(headers[0]) == k || ColorIndex(headers[1]) == k || ColorIndex(headers[2]) == k
                 || ColorIndex(headers[3]) == k)
  {
  }

  lemma LanesMask(headers: seq<Header>, used: Mask)
    requires |headers| == 8
    requires forall k :: 0 <= k < 64 ==>
      (used[k] <==> ColorIndex(headers[0]) == k || ColorIndex(headers[1]) == k || ColorIndex(headers[2]) == k
                    || ColorIndex(headers[3]) == k || ColorIndex(headers[4]) == k || ColorIndex(headers[5]) == k
                    || ColorIndex(headers[6]) == k || ColorIndex(headers[7]) == k)
    ensures MaskOf(used, headers)
  {
  }

  // The contract of the choosers determines the colour, so all three agree.
  lemma ChoosersAgree(bucket1: seq<Header>, bucket2: seq<Header>, c: nat, d: nat)
    requires IsUnusedColor(bucket1, bucket2, c) && IsUnusedColor(bucket1, bucket2, d)
    ensures c == d
  {
  }
}
