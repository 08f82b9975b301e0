// The headers of the table's cells: the tests that the searches of the table make on a
// cell's fields are the masked comparisons of its header, and so are the colours.
module CellHeaders {
  import opened Keys
  import opened Hashing
  import opened Store
  import opened Structure
  import opened Table
  import opened Headers

  // The fields that the header has room for.
  predicate Storable(c: Cell) {
    c.tag < 16 && c.color < 16 && c.node.parentColor < 16
  }

  // In a trie the parent colour of an entry is valid or the invalid one.
  lemma {:induction false} ParentColorFits(g: Geometry, n: Nodes, s: Shape, l: Loc)
    requires Findable(g, n, s) && l in n
    ensures n[l].parentColor <= INVALID_COLOR
  {
    var q := s.of[l];
    if q != [] {
      assert Linked(n, s, q);
      var p := s.up[q];
      assert NodeOk(n, s, p) && NamedOk(g, n, s, p) && JumpChildHides(n, s, p);
      if BodyAt(n, s, p).Bitmap? {
        assert q == p + [q[|p|]];
        assert BitmapChildOk(n, s, p, q[|p|]);
      }
    }
  }

  lemma {:induction false} EntriesFit(g: Geometry, cells: seq<Cell>, spot: map<Loc, nat>, s: Shape, j: nat)
    requires g.Valid() && Placed(g, cells, spot, -1) && Findable(g, NodesOf(cells, spot), s)
    requires j < |cells| && cells[j].used
    ensures Storable(cells[j])
  {
    hide Findable;
    assert CellOk(cells[j]);
    ParentColorFits(g, NodesOf(cells, spot), s, LocAt(g, j, cells[j]));
  }

  function TypeOf(c: Cell): bv24 {
    if !c.used then 0
    else match c.node.body
         case Leaf(_, _, _) => 1
         case Bitmap(_, _, _) => 2
         case Jump(_, _, _) => 3
  }

  function DirtyBit(c: Cell): bv24 {
    if c.used && c.node.body.Leaf? && c.node.body.dirty then 8 else 0
  }

  function Compose(low: bv24, parentColor: bv24, tag: bv24, color: bv24, lastSymbol: bv24): Header {
    low | (parentColor << 4) | (tag << 8) | (color << 12) | (lastSymbol << 16)
  }

  // The number as the bits of a field.
  function Field(n: nat): bv24
    requires n < 64
  {
    (n as bv6) as bv24
  }

  lemma NumberBack(n: nat)
    requires n < 64
    ensures (n as bv6) as nat == n
  {
  }

  lemma FieldRange(n: nat)
    requires n < 64
    ensures Field(n) < 64 && (n < 16 ==> Field(n) < 16)
  {
    NumberBack(n);
  }

  lemma SameNumber(a: nat, b: nat)
    requires a < 64 && b < 64
    ensures Field(a) == Field(b) <==> a == b
  {
    NumberBack(a);
    NumberBack(b);
    if Field(a) == Field(b) {
      assert a as bv6 == b as bv6;
    }
  }

  function HeaderOf(c: Cell): Header
    requires Storable(c)
  {
    Compose(TypeOf(c) | SecondaryBit(c.secondary) | DirtyBit(c), Field(c.node.parentColor), Field(c.tag),
            Field(c.color), Field(c.node.lastSymbol))
  }

  lemma ComposeLow(low: bv24, parentColor: bv24, tag: bv24, color: bv24, lastSymbol: bv24)
    requires low < 16 && parentColor < 16 && tag < 16 && color < 16 && lastSymbol < 256
    ensures var h := Compose(low, parentColor, tag, color, lastSymbol);
            h & 15 == low && EntryParentColor(h) == parentColor
  {
  }

  lemma ComposeHigh(low: bv24, parentColor: bv24, tag: bv24, color: bv24, lastSymbol: bv24)
    requires low < 16 && parentColor < 16 && tag < 16 && color < 16 && lastSymbol < 256
    ensures var h := Compose(low, parentColor, tag, color, lastSymbol);
            EntryTag(h) == tag && EntryColor(h) == color && EntryLastSymbol(h) == lastSymbol
  {
  }

  lemma LowBits(h: Header)
    ensures h & TYPE_MASK == (h & 15) & TYPE_MASK && h & FLAG_SECONDARY_BUCKET == (h & 15) & FLAG_SECONDARY_BUCKET
  {
  }

  lemma LowFields(kind: bv24, secondary: bv24, dirty: bv24)
    requires kind < 4 && (secondary == 0 || secondary == 4) && (dirty == 0 || dirty == 8)
    ensures var low := kind | secondary | dirty;
            low < 16 && low & TYPE_MASK == kind && low & FLAG_SECONDARY_BUCKET == secondary
  {
  }

  // The header has the cell's fields.
  lemma {:induction false} HeaderFields(c: Cell)
    requires Storable(c)
    ensures var h := HeaderOf(c);
            && EntryType(h) == TypeOf(c) && h & FLAG_SECONDARY_BUCKET == SecondaryBit(c.secondary)
            && EntryParentColor(h) == Field(c.node.parentColor) && EntryTag(h) == Field(c.tag)
            && EntryColor(h) == Field(c.color) && EntryLastSymbol(h) == Field(c.node.lastSymbol)
    ensures EntryType(HeaderOf(c)) != 0 <==> c.used
  {
    hide Compose, EntryParentColor, EntryTag, EntryColor, EntryLastSymbol, Field;
    FieldRange(c.node.parentColor);
    FieldRange(c.tag);
    FieldRange(c.color);
    FieldRange(c.node.lastSymbol);
    var low := TypeOf(c) | SecondaryBit(c.secondary) | DirtyBit(c);
    LowFields(TypeOf(c), SecondaryBit(c.secondary), DirtyBit(c));
    ComposeLow(low, Field(c.node.parentColor), Field(c.tag), Field(c.color), Field(c.node.lastSymbol));
    ComposeHigh(low, Field(c.node.parentColor), Field(c.tag), Field(c.color), Field(c.node.lastSymbol));
    LowBits(HeaderOf(c));
  }


  lemma {:induction false} ColorTest(c: Cell, isSecondary: bool, tag: nat, color: nat)
    requires Storable(c) && tag < 16 && color < 16
    ensures CuckooTable.MatchesColor(c, isSecondary, tag, color)
       <==> Matches(HeaderOf(c), ColorSearchMask(), ColorSearchValues(isSecondary, Field(tag), Field(color)))
  {
    hide HeaderOf, EntryTag, EntryColor, ColorSearchMask, ColorSearchValues, Matches, Field;
    FieldRange(tag);
    FieldRange(color);
    HeaderFields(c);
    SameNumber(c.tag, tag);
    SameNumber(c.color, color);
    ColorSearchMeaning(HeaderOf(c), isSecondary, Field(tag), Field(color));
  }

  lemma {:induction false} ParentTest(c: Cell, isSecondary: bool, tag: nat, lastSymbol: Symbol, parentColor: nat)
    requires Storable(c) && tag < 16 && parentColor < 16
    ensures CuckooTable.MatchesParent(c, isSecondary, tag, lastSymbol, parentColor)
       <==> Matches(HeaderOf(c), ParentSearchMask(),
                    ParentSearchValues(isSecondary, Field(tag), Field(lastSymbol), Field(parentColor)))
  {
    hide HeaderOf, EntryTag, EntryLastSymbol, EntryParentColor, ParentSearchMask, ParentSearchValues, Matches, Field;
    FieldRange(tag);
    FieldRange(lastSymbol);
    FieldRange(parentColor);
    HeaderFields(c);
    SameNumber(c.tag, tag);
    SameNumber(c.node.lastSymbol, lastSymbol);
    SameNumber(c.node.parentColor, parentColor);
    ParentSearchMeaning(HeaderOf(c), isSecondary, Field(tag), Field(lastSymbol), Field(parentColor));
  }

  // ------------------------------------------------------------------
  // Whole buckets
  // ------------------------------------------------------------------

  predicate AllStorable(bucket: seq<Cell>) {
    forall i :: 0 <= i < |bucket| ==> Storable(bucket[i])
  }

  function HeadersOf(bucket: seq<Cell>): seq<Header>
    requires AllStorable(bucket)
  {
    seq(|bucket|, i requires 0 <= i < |bucket| => HeaderOf(bucket[i]))
  }

  // The search by colour over the headers finds what the one over the cells finds.
  lemma {:induction false} FoundByColor(bucket: seq<Cell>, isSecondary: bool, tag: nat, color: nat, r: int)
    requires AllStorable(bucket) && tag < 16 && color < 16 && -1 <= r < |bucket|
    ensures IsFirst(HeadersOf(bucket),
                    h => Matches(h, ColorSearchMask(), ColorSearchValues(isSecondary, Field(tag), Field(color))), r)
       <==> && (r >= 0 ==> CuckooTable.MatchesColor(bucket[r], isSecondary, tag, color))
            && forall i :: 0 <= i < (if r == -1 then |bucket| else r) ==>
                 !CuckooTable.MatchesColor(bucket[i], isSecondary, tag, color)
  {
    hide HeaderOf, ColorSearchMask, ColorSearchValues, Matches, Field;
    forall i | 0 <= i < |bucket|
      ensures CuckooTable.MatchesColor(bucket[i], isSecondary, tag, color)
         <==> Matches(HeadersOf(bucket)[i], ColorSearchMask(),
                      ColorSearchValues(isSecondary, Field(tag), Field(color)))
    {
      ColorTest(bucket[i], isSecondary, tag, color);
    }
  }

  // And so does the search by parent.
  lemma {:induction false} FoundByParent(bucket: seq<Cell>, isSecondary: bool, tag: nat, lastSymbol: Symbol,
                                         parentColor: nat, r: int)
    requires AllStorable(bucket) && tag < 16 && parentColor < 16 && -1 <= r < |bucket|
    ensures IsFirst(HeadersOf(bucket),
                    h => Matches(h, ParentSearchMask(),
                                 ParentSearchValues(isSecondary, Field(tag), Field(lastSymbol), Field(parentColor))), r)
       <==> && (r >= 0 ==> CuckooTable.MatchesParent(bucket[r], isSecondary, tag, lastSymbol, parentColor))
            && forall i :: 0 <= i < (if r == -1 then |bucket| else r) ==>
                 !CuckooTable.MatchesParent(bucket[i], isSecondary, tag, lastSymbol, parentColor)
  {
    hide HeaderOf, ParentSearchMask, ParentSearchValues, Matches, Field;
    forall i | 0 <= i < |bucket|
      ensures CuckooTable.MatchesParent(bucket[i], isSecondary, tag, lastSymbol, parentColor)
         <==> Matches(HeadersOf(bucket)[i], ParentSearchMask(),
                      ParentSearchValues(isSecondary, Field(tag), Field(lastSymbol), Field(parentColor)))
    {
      ParentTest(bucket[i], isSecondary, tag, lastSymbol, parentColor);
    }
  }

  lemma {:induction false} ColorOfHeader(c: Cell)
    requires Storable(c)
    ensures ColorIndex(HeaderOf(c)) == c.color
  {
    hide HeaderOf, EntryColor;
    HeaderFields(c);
    NumberBack(c.color);
    assert Field(c.color) as nat == c.color;
  }

  lemma {:induction false} SameColors(cells: seq<Cell>, b: nat, color: nat)
    requires 4 * b + 4 <= |cells| && AllStorable(cells[4 * b..4 * b + 4])
    ensures HasColor(HeadersOf(cells[4 * b..4 * b + 4]), color) <==> UsedIn(cells, b, 4, color)
  {
    var bucket := cells[4 * b..4 * b + 4];
    hide HeaderOf, ColorIndex;
    forall i | 0 <= i < 4
      ensures ColorIndex(HeadersOf(bucket)[i]) == bucket[i].color && bucket[i] == cells[4 * b + i]
    {
      ColorOfHeader(bucket[i]);
    }
    if UsedIn(cells, b, 4, color) {
      var j :| 4 * b <= j < 4 * b + 4 && j < |cells| && cells[j].color == color;
      assert ColorIndex(HeadersOf(bucket)[j - 4 * b]) == color;
    }
  }

  // The colour that the table chooses is the one that the headers determine.
  lemma {:induction false} SameChoice(cells: seq<Cell>, b1: nat, b2: nat, c: nat)
    requires 4 * b1 + 4 <= |cells| && 4 * b2 + 4 <= |cells|
    requires AllStorable(cells[4 * b1..4 * b1 + 4]) && AllStorable(cells[4 * b2..4 * b2 + 4])
    ensures IsUnusedColor(HeadersOf(cells[4 * b1..4 * b1 + 4]), HeadersOf(cells[4 * b2..4 * b2 + 4]), c)
       <==> && !UsedIn(cells, b1, 4, c) && !UsedIn(cells, b2, 4, c)
            && forall k :: 0 <= k < c ==> UsedIn(cells, b1, 4, k) || UsedIn(cells, b2, 4, k)
  {
    hide HasColor, UsedIn, HeadersOf;
    var h1, h2 := HeadersOf(cells[4 * b1..4 * b1 + 4]), HeadersOf(cells[4 * b2..4 * b2 + 4]);
    forall k: nat
      ensures HasColor(h1, k) <==> UsedIn(cells, b1, 4, k)
      ensures HasColor(h2, k) <==> UsedIn(cells, b2, 4, k)
    {
      SameColors(cells, b1, k);
      SameColors(cells, b2, k);
    }
  }
}
