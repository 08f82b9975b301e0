// The contents of the cuckoo hash table as values: cells, the entries they hold,
// and what moving an entry between the two buckets of its pair does.
module Store {
  import opened Keys
  import opened Hashing

  const CUCKOO_BUCKET_SIZE := 4
  const MAX_VALID_COLOR := 8
  const INVALID_COLOR := 9
  const ROOT_COLOR := 0

  datatype Option<+T> = None | Some(value: T)

  // A key with the value stored under it.
  datatype KV = KV(key: Key, value: seq<Byte>)

  // Entries are named by the hash of their prefix (primary bucket and tag) and a
  // colour that is unique for that hash.
  datatype Loc = Loc(hash: nat, color: nat)

  const RootLoc := Loc(HASH_START_VALUE, ROOT_COLOR)

  datatype Body =
    | Leaf(kv: KV, next: Option<Loc>, dirty: bool)
    | Bitmap(children: set<Symbol>, maxChild: Symbol, maxLeaf: Loc)
    | Jump(symbols: Path, childColor: nat, jumpMaxLeaf: Loc)

  datatype Node = Node(parentColor: nat, lastSymbol: Symbol, body: Body)

  type Nodes = map<Loc, Node>

  // A cell of a bucket. `secondary` says that the entry is in the secondary bucket
  // of its pair.
  datatype Cell = Cell(used: bool, node: Node, secondary: bool, color: nat, tag: nat)

  const UnusedNode := Node(INVALID_COLOR, 0, Leaf(KV([], []), None, false))
  const UnusedCell := Cell(false, UnusedNode, false, INVALID_COLOR, 0)

  ghost predicate CellOk(c: Cell) {
    if c.used then c.tag < TAG_VALUES && c.color <= MAX_VALID_COLOR
    else c.color == INVALID_COLOR && c.node.parentColor == INVALID_COLOR
  }

  // The primary bucket of an entry that sits in the given bucket.
  function PrimaryOf(g: Geometry, bucket: nat, c: Cell): int
    requires |g.bucketMixTable| == TAG_VALUES && c.tag < TAG_VALUES
  {
    if c.secondary then UnmixBucket(g, bucket, c.tag) else bucket
  }

  // The other bucket in which an entry of the given bucket can be stored.
  function AlternateBucket(g: Geometry, bucket: nat, c: Cell): int
    requires |g.bucketMixTable| == TAG_VALUES && c.tag < TAG_VALUES
  {
    if c.secondary then UnmixBucket(g, bucket, c.tag) else MixBucket(g, bucket, c.tag)
  }

  // The name of the entry in cell j.
  ghost function LocAt(g: Geometry, j: nat, c: Cell): Loc
    requires g.Valid() && j < 4 * g.numBuckets && c.tag < TAG_VALUES
  {
    MixUnmixInverse(g, j / 4, c.tag);
    Loc(PrimaryOf(g, j / 4, c) * 16 + c.tag, c.color)
  }

  // `spot` names the cell of every entry. All used cells but the stale one (if
  // any) are named; the stale cell is none of them.
  ghost predicate Placed(g: Geometry, cells: seq<Cell>, spot: map<Loc, nat>, stale: int)
    requires g.Valid()
  {
    && |cells| == 4 * g.numBuckets
    && (forall j :: 0 <= j < |cells| ==> CellOk(cells[j]))
    && (forall j :: 0 <= j < |cells| && j != stale && cells[j].used ==>
          LocAt(g, j, cells[j]) in spot && spot[LocAt(g, j, cells[j])] == j)
    && (forall l :: l in spot ==>
          && spot[l] < |cells| && spot[l] != stale && cells[spot[l]].used
          && LocAt(g, spot[l], cells[spot[l]]) == l)
    && (RootLoc in spot ==> spot[RootLoc] == 0)
  }

  // The abstract contents: which node each name denotes.
  ghost function NodesOf(cells: seq<Cell>, spot: map<Loc, nat>): Nodes
    requires forall l :: l in spot ==> spot[l] < |cells|
  {
    map l | l in spot :: cells[spot[l]].node
  }

  // What a search by parent colour looks for.
  ghost predicate IsChild(n: Nodes, loc: Loc, hash: nat, lastSymbol: Symbol, parentColor: nat) {
    loc in n && loc.hash == hash && n[loc].lastSymbol == lastSymbol && n[loc].parentColor == parentColor
  }

  ghost predicate HasChild(n: Nodes, hash: nat, lastSymbol: Symbol, parentColor: nat) {
    exists loc :: IsChild(n, loc, hash, lastSymbol, parentColor)
  }

  // ------------------------------------------------------------------
  // Single writes
  // ------------------------------------------------------------------

  function Flip(c: Cell): Cell { c.(secondary := !c.secondary) }

  lemma AlternateKeepsLoc(g: Geometry, j: nat, f: nat, c: Cell)
    requires g.Valid() && j < 4 * g.numBuckets && f < 4 * g.numBuckets && c.tag < TAG_VALUES
    requires f / 4 == AlternateBucket(g, j / 4, c)
    ensures LocAt(g, f, Flip(c)) == LocAt(g, j, c)
    ensures AlternateBucket(g, f / 4, Flip(c)) == j / 4
  {
    MixUnmixInverse(g, j / 4, c.tag);
  }

  // An unused cell may be called stale, and a stale cell that is cleared is not.
  lemma StaleUnused(g: Geometry, cells: seq<Cell>, spot: map<Loc, nat>, f: nat)
    requires g.Valid() && f < |cells| && !cells[f].used
    ensures Placed(g, cells, spot, -1) <==> Placed(g, cells, spot, f)
  {
  }

  // Writing an entry's flipped copy into the stale cell of its alternate bucket
  // makes the old copy the stale one; no entry is lost or changed.
  lemma MoveIntoStale(g: Geometry, cells: seq<Cell>, spot: map<Loc, nat>, f: nat, j: nat)
    requires g.Valid() && Placed(g, cells, spot, f)
    requires f < |cells| && j < |cells| && j != f && j != 0 && cells[j].used
    requires f / 4 == AlternateBucket(g, j / 4, cells[j])
    ensures var loc := LocAt(g, j, cells[j]);
            var cells' := cells[f := Flip(cells[j])];
            var spot' := spot[loc := f];
            Placed(g, cells', spot', j) && NodesOf(cells', spot') == NodesOf(cells, spot)
  {
    AlternateKeepsLoc(g, j, f, cells[j]);
    var loc := LocAt(g, j, cells[j]);
    var cells' := cells[f := Flip(cells[j])];
    var spot' := spot[loc := f];
    assert forall l :: l in spot && l != loc ==> spot[l] != j && spot[l] != f;
    assert NodesOf(cells', spot').Keys == NodesOf(cells, spot).Keys;
  }

  lemma ClearStale(g: Geometry, cells: seq<Cell>, spot: map<Loc, nat>, j: nat, c: Cell)
    requires g.Valid() && Placed(g, cells, spot, j) && j < |cells|
    requires !c.used && CellOk(c)
    ensures Placed(g, cells[j := c], spot, -1) && NodesOf(cells[j := c], spot) == NodesOf(cells, spot)
  {
    assert NodesOf(cells[j := c], spot).Keys == NodesOf(cells, spot).Keys;
  }

  lemma PlaceNew(g: Geometry, cells: seq<Cell>, spot: map<Loc, nat>, f: nat, c: Cell)
    requires g.Valid() && Placed(g, cells, spot, -1) && f < |cells| && !cells[f].used
    requires c.used && CellOk(c) && LocAt(g, f, c) !in spot
    requires LocAt(g, f, c) == RootLoc ==> f == 0
    ensures var spot' := spot[LocAt(g, f, c) := f];
            Placed(g, cells[f := c], spot', -1)
            && NodesOf(cells[f := c], spot') == NodesOf(cells, spot)[LocAt(g, f, c) := c.node]
  {
    var spot' := spot[LocAt(g, f, c) := f];
    assert forall l :: l in spot ==> spot[l] != f;
    assert NodesOf(cells[f := c], spot').Keys == NodesOf(cells, spot).Keys + {LocAt(g, f, c)};
  }

  lemma Overwrite(g: Geometry, cells: seq<Cell>, spot: map<Loc, nat>, l: Loc, c: Cell)
    requires g.Valid() && Placed(g, cells, spot, -1) && l in spot
    requires c.used && c.tag == cells[spot[l]].tag && c.color == cells[spot[l]].color
    requires c.secondary == cells[spot[l]].secondary
    ensures Placed(g, cells[spot[l] := c], spot, -1)
    ensures NodesOf(cells[spot[l] := c], spot) == NodesOf(cells, spot)[l := c.node]
  {
    assert forall k :: k in spot && k != l ==> spot[k] != spot[l];
    assert NodesOf(cells[spot[l] := c], spot).Keys == NodesOf(cells, spot).Keys;
  }

  lemma RemoveOne(g: Geometry, cells: seq<Cell>, spot: map<Loc, nat>, l: Loc, c: Cell)
    requires g.Valid() && Placed(g, cells, spot, -1) && l in spot && !c.used && CellOk(c)
    ensures Placed(g, cells[spot[l] := c], spot - {l}, -1)
    ensures NodesOf(cells[spot[l] := c], spot - {l}) == NodesOf(cells, spot) - {l}
  {
    assert forall k :: k in spot && k != l ==> spot[k] != spot[l];
    assert NodesOf(cells[spot[l] := c], spot - {l}).Keys == (NodesOf(cells, spot) - {l}).Keys;
  }

  // An entry is in the primary or the secondary bucket of its hash.
  lemma InItsPair(g: Geometry, cells: seq<Cell>, spot: map<Loc, nat>, l: Loc)
    requires g.Valid() && Placed(g, cells, spot, -1) && l in spot
    ensures HashToBucket(l.hash) < g.numBuckets && l.color <= MAX_VALID_COLOR
    ensures cells[spot[l]].tag == HashToTag(l.hash) && cells[spot[l]].color == l.color
    ensures spot[l] / 4 == if cells[spot[l]].secondary then MixBucket(g, HashToBucket(l.hash), HashToTag(l.hash))
                           else HashToBucket(l.hash)
  {
    var c := cells[spot[l]];
    MixUnmixInverse(g, spot[l] / 4, c.tag);
    var p := PrimaryOf(g, spot[l] / 4, c);
    assert l.hash == p * 16 + c.tag;
    assert l.hash / 16 == p && l.hash % 16 == c.tag;
  }

  // ------------------------------------------------------------------
  // What holds after each single write of a relocation
  // ------------------------------------------------------------------

  // The stale cell, if used, is a flipped copy of a placed entry.
  ghost predicate StaleIsTwin(g: Geometry, cells: seq<Cell>, spot: map<Loc, nat>, stale: nat)
    requires g.Valid() && Placed(g, cells, spot, stale) && stale < |cells|
  {
    cells[stale].used ==>
      LocAt(g, stale, cells[stale]) in spot
      && cells[spot[LocAt(g, stale, cells[stale])]] == Flip(cells[stale])
  }

  lemma {:induction false} TwinAfterMove(g: Geometry, cells: seq<Cell>, spot: map<Loc, nat>, f: nat, j: nat)
    requires g.Valid() && j < |cells| && f < |cells| && j != f && cells[j].used && cells[j].tag < TAG_VALUES
    requires |cells| == 4 * g.numBuckets
    requires var spot' := spot[LocAt(g, j, cells[j]) := f]; Placed(g, cells[f := Flip(cells[j])], spot', j)
    ensures var spot' := spot[LocAt(g, j, cells[j]) := f]; StaleIsTwin(g, cells[f := Flip(cells[j])], spot', j)
  {
    hide Placed;
  }

  // Every entry of `before`, and no other, is in at least one of its two buckets, and
  // two copies of an entry differ in the secondary flag only.
  ghost predicate EveryEntryPresent(g: Geometry, before: Nodes, cells: seq<Cell>) {
    && g.Valid() && |cells| == 4 * g.numBuckets
    && (forall j :: 0 <= j < |cells| && cells[j].used ==>
          cells[j].tag < TAG_VALUES && LocAt(g, j, cells[j]) in before)
    && (forall l :: l in before ==>
          exists j :: 0 <= j < |cells| && cells[j].used && LocAt(g, j, cells[j]) == l && cells[j].node == before[l])
    && (forall j, k |
          0 <= j < |cells| && 0 <= k < |cells| && j != k && cells[j].used && cells[k].used
          && LocAt(g, j, cells[j]) == LocAt(g, k, cells[k]) :: cells[k] == Flip(cells[j]))
  }

  lemma PresentDuringMove(g: Geometry, cells: seq<Cell>, spot: map<Loc, nat>, stale: nat)
    requires g.Valid() && Placed(g, cells, spot, stale) && stale < |cells| && StaleIsTwin(g, cells, spot, stale)
    ensures EveryEntryPresent(g, NodesOf(cells, spot), cells)
  {
    forall l | l in NodesOf(cells, spot)
      ensures exists j :: 0 <= j < |cells| && cells[j].used && LocAt(g, j, cells[j]) == l
                          && cells[j].node == NodesOf(cells, spot)[l]
    {
      assert LocAt(g, spot[l], cells[spot[l]]) == l;
    }
  }

  // A state of the cells on the way of adding an entry: without it, or with it.
  ghost predicate AddingState(g: Geometry, before: Nodes, hash: nat, node: Node, cells: seq<Cell>) {
    || EveryEntryPresent(g, before, cells)
    || exists color :: 0 <= color <= MAX_VALID_COLOR && Loc(hash, color) !in before
                       && EveryEntryPresent(g, before[Loc(hash, color) := node], cells)
  }

  lemma {:induction false} PresentIsAdding(g: Geometry, before: Nodes, hash: nat, node: Node, trace: seq<seq<Cell>>)
    requires forall i :: 0 <= i < |trace| ==> EveryEntryPresent(g, before, trace[i])
    ensures forall i :: 0 <= i < |trace| ==> AddingState(g, before, hash, node, trace[i])
  {
  }

  lemma {:induction false} AddedIsAdding(g: Geometry, before: Nodes, hash: nat, node: Node, color: nat,
                                         cells: seq<Cell>)
    requires color <= MAX_VALID_COLOR && Loc(hash, color) !in before
    requires EveryEntryPresent(g, before[Loc(hash, color) := node], cells)
    ensures AddingState(g, before, hash, node, cells)
  {
  }

  // ------------------------------------------------------------------
  // The log of all writes
  // ------------------------------------------------------------------

  // Two states of the cells that differ in one cell at most.
  ghost predicate OneWrite(before: seq<Cell>, after: seq<Cell>) {
    |after| == |before| && exists j: nat :: j < |before| && after == before[j := after[j]]
  }

  ghost predicate LoggedAt(history: seq<seq<Cell>>, i: nat)
    requires 0 < i < |history|
  {
    OneWrite(history[i - 1], history[i])
  }

  // The log leads, one write at a time, to the present cells.
  ghost predicate WriteLog(history: seq<seq<Cell>>, cells: seq<Cell>) {
    && |history| > 0 && history[|history| - 1] == cells
    && forall i {:trigger LoggedAt(history, i)} :: 0 < i < |history| ==> LoggedAt(history, i)
  }

  lemma {:induction false} LogWrite(history: seq<seq<Cell>>, cells: seq<Cell>, j: nat, c: Cell)
    requires WriteLog(history, cells) && j < |cells|
    ensures WriteLog(history + [cells[j := c]], cells[j := c])
  {
    var after := history + [cells[j := c]];
    forall i | 0 < i < |after|
      ensures LoggedAt(after, i)
    {
      if i < |history| {
        assert LoggedAt(history, i);
      } else {
        assert after[i] == after[i - 1][j := after[i][j]];
      }
    }
  }

  // ------------------------------------------------------------------
  // Unused cells
  // ------------------------------------------------------------------

  // The buckets of the unused cells, each as often as it has unused cells.
  ghost function RoomOf(cells: seq<Cell>): multiset<nat> {
    if |cells| == 0 then multiset{}
    else RoomOf(cells[..|cells| - 1]) + SpaceOf(cells[|cells| - 1], (|cells| - 1) / 4)
  }

  ghost function SpaceOf(c: Cell, bucket: nat): multiset<nat> {
    if c.used then multiset{} else multiset{bucket}
  }

  lemma {:induction false} AddToBoth<T>(a: multiset<T>, x: multiset<T>, b: multiset<T>, y: multiset<T>,
                                        more: multiset<T>)
    requires a + x == b + y
    ensures a + more + x == b + more + y
  {
    assert a + more + x == a + x + more && b + more + y == b + y + more;
  }

  lemma {:induction false} RoomAfterWrite(cells: seq<Cell>, j: nat, c: Cell)
    requires j < |cells|
    ensures RoomOf(cells[j := c]) + SpaceOf(cells[j], j / 4) == RoomOf(cells) + SpaceOf(c, j / 4)
  {
    var e, after := |cells| - 1, cells[j := c];
    var rest, last := RoomOf(cells[..e]), SpaceOf(cells[e], e / 4);
    assert RoomOf(after) == RoomOf(after[..e]) + SpaceOf(after[e], e / 4) && RoomOf(cells) == rest + last;
    if j < e {
      RoomAfterWrite(cells[..e], j, c);
      assert after[..e] == cells[..e][j := c] && after[e] == cells[e] && cells[..e][j] == cells[j];
      hide RoomOf, SpaceOf;
      AddToBoth(RoomOf(after[..e]), SpaceOf(cells[j], j / 4), rest, SpaceOf(c, j / 4), last);
    } else {
      assert after[..e] == cells[..e] && after[e] == c;
    }
  }

  // Overwriting an entry keeps the room, and writing to an unused cell takes some.
  lemma {:induction false} RoomTaken(cells: seq<Cell>, j: nat, c: Cell)
    requires j < |cells| && c.used
    ensures cells[j].used ==> RoomOf(cells[j := c]) == RoomOf(cells)
    ensures !cells[j].used ==> RoomOf(cells[j := c]) + multiset{j / 4} == RoomOf(cells)
  {
    RoomAfterWrite(cells, j, c);
    hide RoomOf;
    assert RoomOf(cells) + multiset{} == RoomOf(cells);
    assert RoomOf(cells[j := c]) + multiset{} == RoomOf(cells[j := c]);
  }

  lemma {:induction false} RoomIsNotFull(cells: seq<Cell>, bucket: nat)
    requires |cells| % 4 == 0
    ensures bucket in RoomOf(cells) ==> !Full(cells, bucket)
  {
    if bucket in RoomOf(cells) {
      var j := UnusedCellOf(cells, bucket);
      assert 4 * bucket <= j < 4 * bucket + 4;
    }
  }

  lemma {:induction false} UnusedCellOf(cells: seq<Cell>, bucket: nat) returns (j: nat)
    requires bucket in RoomOf(cells)
    ensures j < |cells| && j / 4 == bucket && !cells[j].used
  {
    j := |cells| - 1;
    if cells[j].used || j / 4 != bucket {
      j := UnusedCellOf(cells[..j], bucket);
    }
  }

  // An empty table has four unused cells in each bucket.
  lemma {:induction false} RoomWhenEmpty(cells: seq<Cell>, bucket: nat)
    requires forall j :: 0 <= j < |cells| ==> !cells[j].used
    ensures RoomOf(cells)[bucket] ==
              if |cells| <= 4 * bucket then 0 else if |cells| < 4 * bucket + 4 then |cells| - 4 * bucket else 4
  {
    if |cells| > 0 {
      RoomWhenEmpty(cells[..|cells| - 1], bucket);
    }
  }

  // An operation that needs an unused cell in each of the given buckets succeeds if they
  // are there, and takes just these.
  ghost predicate Served(g: Geometry, need: multiset<nat>, before: multiset<nat>, ok: bool, after: multiset<nat>) {
    g.NoZeroMix() && need <= before ==> ok && after == before - need
  }

  lemma {:induction false} ServedTwice(g: Geometry, need: multiset<nat>, before: multiset<nat>, mid: multiset<nat>,
                                       need': multiset<nat>, ok: bool, after: multiset<nat>)
    requires Served(g, need, before, true, mid) && Served(g, need', mid, ok, after)
    ensures Served(g, need + need', before, ok, after)
  {
    if need + need' <= before && g.NoZeroMix() {
      assert need <= before && need' <= before - need;
      assert before - need - need' == before - (need + need');
    }
  }

  // What was refused needed more than there was.
  lemma {:induction false} NotServed(g: Geometry, need: multiset<nat>, more: multiset<nat>, before: multiset<nat>,
                                     mid: multiset<nat>, after: multiset<nat>)
    requires Served(g, need, before, false, mid)
    ensures Served(g, need + more, before, false, after)
  {
    if need + more <= before {
      assert need <= before;
    }
  }

  // ------------------------------------------------------------------
  // A stuck bucket stays stuck
  // ------------------------------------------------------------------

  ghost predicate Full(cells: seq<Cell>, bucket: nat) {
    4 * bucket + 4 <= |cells| && forall j :: 4 * bucket <= j < 4 * bucket + 4 ==> cells[j].used
  }

  // The root cell and the caller's immovable cell (-1 for none) are never moved.
  predicate Movable(j: nat, immovable: int) { j != 0 && j != immovable }

  // One legal move: an entry goes to an unused cell of its alternate bucket.
  ghost predicate LegalMove(g: Geometry, immovable: int, s: seq<Cell>, t: seq<Cell>, j: nat, f: nat) {
    && g.Valid() && |s| == 4 * g.numBuckets && j < |s| && f < |s| && j != f
    && s[j].used && s[j].tag < TAG_VALUES && Movable(j, immovable)
    && !s[f].used && f / 4 == AlternateBucket(g, j / 4, s[j])
    && |t| == |s| && t[f] == Flip(s[j]) && !t[j].used
    && forall i :: 0 <= i < |s| && i != j && i != f ==> t[i] == s[i]
  }

  ghost predicate LegalStep(g: Geometry, immovable: int, s: seq<Cell>, t: seq<Cell>) {
    exists j: nat, f: nat :: LegalMove(g, immovable, s, t, j, f)
  }

  ghost predicate LegalRun(g: Geometry, immovable: int, run: seq<seq<Cell>>) {
    && |run| > 0
    && (|run| > 1 ==> LegalRun(g, immovable, run[..|run| - 1])
                      && LegalStep(g, immovable, run[|run| - 2], run[|run| - 1]))
  }

  // A set of full buckets from which no movable entry can leave.
  ghost predicate ClosedAndFull(g: Geometry, cells: seq<Cell>, buckets: set<nat>, immovable: int) {
    && g.Valid() && |cells| == 4 * g.numBuckets
    && (forall b :: b in buckets ==> b < g.numBuckets && Full(cells, b))
    && (forall j :: 0 <= j < |cells| && j / 4 in buckets && Movable(j, immovable) ==>
          cells[j].tag < TAG_VALUES && AlternateBucket(g, j / 4, cells[j]) in buckets)
  }

  lemma MoveKeepsClosed(g: Geometry, s: seq<Cell>, t: seq<Cell>, buckets: set<nat>, immovable: int, j: nat, f: nat)
    requires ClosedAndFull(g, s, buckets, immovable) && LegalMove(g, immovable, s, t, j, f)
    ensures ClosedAndFull(g, t, buckets, immovable)
    ensures forall i :: 0 <= i < |s| && i / 4 in buckets ==> t[i] == s[i]
  {
    assert 4 * (f / 4) <= f < 4 * (f / 4) + 4;
    assert !Full(s, f / 4);
    assert j / 4 !in buckets;
    forall b | b in buckets
      ensures Full(t, b)
    {
      assert Full(s, b);
      forall i | 4 * b <= i < 4 * b + 4
        ensures t[i].used
      {
        assert i / 4 == b;
      }
    }
  }

  // No sequence of legal moves anywhere in the table frees a cell of a bucket that
  // is in a closed set of full buckets.
  lemma {:induction false} StuckForever(g: Geometry, immovable: int, run: seq<seq<Cell>>, buckets: set<nat>,
                                        bucket: nat)
    requires LegalRun(g, immovable, run)
    requires ClosedAndFull(g, run[0], buckets, immovable) && bucket in buckets
    ensures ClosedAndFull(g, run[|run| - 1], buckets, immovable) && Full(run[|run| - 1], bucket)
  {
    if |run| > 1 {
      StuckForever(g, immovable, run[..|run| - 1], buckets, bucket);
      var j: nat, f: nat :| LegalMove(g, immovable, run[|run| - 2], run[|run| - 1], j, f);
      MoveKeepsClosed(g, run[|run| - 2], run[|run| - 1], buckets, immovable, j, f);
    }
  }
}
