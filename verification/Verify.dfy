// The consistency check over the whole table: what it tests, and that it accepts
// exactly the tables whose entries resolve and whose linked list is sorted and complete.
module Verify {
  import opened Keys
  import opened Hashing
  import opened Store
  import opened Structure
  import opened Order
  import opened Table
  import opened Steps
  import opened Trie

  // ------------------------------------------------------------------
  // What is tested of a single entry
  // ------------------------------------------------------------------

  ghost predicate EntryVerified(g: Geometry, n: Nodes, l: Loc, node: Node) {
    match node.body
    case Leaf(_, next, _) => next.Some? ==> LeafAt(n, next.value)
    case Bitmap(children, _, maxLeaf) =>
      LeafAt(n, maxLeaf) && forall x :: x in children ==> ChildFound(g, n, l, x)
    case Jump(symbols, childColor, maxLeaf) =>
      LeafAt(n, maxLeaf) && var c := Loc(HashFrom(g, l.hash, symbols), childColor); c in n && !n[c].body.Leaf?
  }

  ghost predicate ChildFound(g: Geometry, n: Nodes, l: Loc, x: Symbol) {
    HasChild(n, AccumulateHash(g, l.hash, x), x, l.color)
  }

  ghost predicate AllVerified(g: Geometry, n: Nodes) {
    forall l :: l in n ==> EntryVerified(g, n, l, n[l])
  }

  // ------------------------------------------------------------------
  // What acceptance means
  // ------------------------------------------------------------------

  // The locators that an entry stores of leaves.
  function LeafLocators(body: Body): set<Loc> {
    match body
    case Leaf(_, next, _) => if next.Some? then {next.value} else {}
    case Bitmap(_, _, maxLeaf) => {maxLeaf}
    case Jump(_, _, maxLeaf) => {maxLeaf}
  }

  // A search that starts at the entry k and goes on by the symbols finds the entry l.
  ghost predicate StepFinds(g: Geometry, n: Nodes, k: Loc, symbols: Path, l: Loc) {
    k in n && l in n &&
    match n[k].body
    case Leaf(_, _, _) => false
    case Bitmap(children, _, _) =>
      |symbols| == 1 && symbols[0] in children
          && IsChild(n, l, AccumulateHash(g, k.hash, symbols[0]), symbols[0], k.color)
    case Jump(js, childColor, _) => symbols == js && l == Loc(HashFrom(g, k.hash, js), childColor)
  }

  // A descent from the root that visits these entries, with the symbols between them.
  ghost predicate Descent(g: Geometry, n: Nodes, visited: seq<Loc>, steps: seq<Path>) {
    && |visited| == |steps| + 1 && visited[0] == RootLoc
    && forall i :: 0 <= i < |steps| ==> StepFinds(g, n, visited[i], steps[i], visited[i + 1])
  }

  function Joined(steps: seq<Path>): Path {
    if |steps| == 0 then [] else Joined(steps[..|steps| - 1]) + steps[|steps| - 1]
  }

  // A descent over a table that was accepted is at an entry with the hash of all symbols so
  // far, and unless that is a leaf, it can go on: to each child that a bitmap lists, and to
  // the branch that a jump leads to.
  lemma {:induction false} DescentsGoOn(g: Geometry, n: Nodes, visited: seq<Loc>, steps: seq<Path>)
    requires AllVerified(g, n) && RootLoc in n && Descent(g, n, visited, steps)
    ensures var l := visited[|steps|];
            && l in n && l.hash == HashOf(g, Joined(steps))
            && (forall x :: n[l].body.Bitmap? && x in n[l].body.children ==> exists m :: StepFinds(g, n, l, [x], m))
            && (n[l].body.Jump? ==> exists m :: StepFinds(g, n, l, n[l].body.symbols, m) && !n[m].body.Leaf?)
  {
    var l := visited[|steps|];
    if |steps| > 0 {
      var e := |steps| - 1;
      DescentsGoOn(g, n, visited[..|visited| - 1], steps[..e]);
      assert StepFinds(g, n, visited[e], steps[e], l);
      HashFromConcat(g, HASH_START_VALUE, Joined(steps[..e]), steps[e]);
      OneSymbol(g, visited[e].hash, steps[e]);
    }
    assert EntryVerified(g, n, l, n[l]);
    forall x | n[l].body.Bitmap? && x in n[l].body.children
      ensures exists m :: StepFinds(g, n, l, [x], m)
    {
      assert ChildFound(g, n, l, x);
      var m :| IsChild(n, m, AccumulateHash(g, l.hash, x), x, l.color);
      assert StepFinds(g, n, l, [x], m);
    }
    if n[l].body.Jump? {
      assert StepFinds(g, n, l, n[l].body.symbols, Loc(HashFrom(g, l.hash, n[l].body.symbols), n[l].body.childColor));
    }
  }

  lemma {:induction false} OneSymbol(g: Geometry, hash: nat, symbols: Path)
    ensures |symbols| == 1 ==> HashFrom(g, hash, symbols) == AccumulateHash(g, hash, symbols[0])
  {
    if |symbols| == 1 {
      assert symbols[..0] == [];
    }
  }

  // Every locator of a leaf that is stored in an accepted table names a leaf.
  lemma {:induction false} LocatorsLeadToLeaves(g: Geometry, n: Nodes, l: Loc, k: Loc)
    requires AllVerified(g, n) && l in n && k in LeafLocators(n[l].body)
    ensures LeafAt(n, k)
  {
    assert EntryVerified(g, n, l, n[l]);
  }

  // Every entry of a well-formed trie passes.
  lemma {:induction false} GoodIsVerified(g: Geometry, n: Nodes, s: Shape, order: seq<Loc>, first: Option<Loc>,
                                          dict: Dict)
    requires Good(g, n, s, order, first, dict)
    ensures AllVerified(g, n)
  {
    forall l | l in n
      ensures EntryVerified(g, n, l, n[l])
    {
      var p := s.of[l];
      assert NamedOk(g, n, s, p);
      match n[l].body
      case Leaf(_, _, _) => NextIsLeaf(n, order, first, l);
      case Bitmap(children, _, _) =>
        MaxLeafIsLeaf(g, n, s, p);
        forall x | x in children
          ensures ChildFound(g, n, l, x)
        {
          ChildOfBitmap(g, n, s, p, x);
          HashFromSnoc(g, HASH_START_VALUE, p, x);
        }
      case Jump(symbols, _, _) =>
        MaxLeafIsLeaf(g, n, s, p);
        ChildOfJump(g, n, s, p);
        assert NodeOk(n, s, p);
        HashFromConcat(g, HASH_START_VALUE, p, symbols);
    }
  }

  lemma {:induction false} NextIsLeaf(n: Nodes, order: seq<Loc>, first: Option<Loc>, l: Loc)
    requires ListOk(n, order, first) && LeafAt(n, l)
    ensures n[l].body.next.Some? ==> LeafAt(n, n[l].body.next.value)
  {
    var i :| 0 <= i < |order| && order[i] == l;
    assert i + 1 < |order| ==> LeafAt(n, order[i + 1]);
  }

  lemma {:induction false} MaxLeafIsLeaf(g: Geometry, n: Nodes, s: Shape, p: Path)
    requires Tree(g, n, s) && MaxAll(n, s) && p in s.at
    ensures LeafAt(n, MaxLeafOf(s.at[p], n[s.at[p]]))
  {
    var bound := Longest(s.at.Keys);
    var r := RightmostLeaf(g, n, s, [], p, bound);
  }

  // ------------------------------------------------------------------
  // Counting leaves
  // ------------------------------------------------------------------

  ghost function ToSet(order: seq<Loc>): set<Loc> {
    set l | l in order
  }

  lemma {:induction false} DistinctCount(order: seq<Loc>)
    requires forall i, j :: 0 <= i < j < |order| ==> order[i] != order[j]
    ensures |ToSet(order)| == |order|
  {
    if |order| > 0 {
      var e := |order| - 1;
      DistinctCount(order[..e]);
      assert ToSet(order) == ToSet(order[..e]) + {order[e]};
    } else {
      assert ToSet(order) == {};
    }
  }

  ghost predicate PointsOn(n: Nodes, visited: seq<Loc>, i: nat) {
    i + 1 < |visited| && LeafAt(n, visited[i]) ==> n[visited[i]].body.next == Some(visited[i + 1])
  }

  ghost predicate InOrder(n: Nodes, visited: seq<Loc>, i: nat, j: nat) {
    i < j < |visited| ==> SymLess(KeyOf(n, visited[i]), KeyOf(n, visited[j]))
  }

  // The part of the list that was followed: a sorted chain of distinct leaves.
  ghost predicate Followed(n: Nodes, visited: seq<Loc>, first: Option<Loc>, next: Option<Loc>) {
    && (forall i :: 0 <= i < |visited| ==> LeafAt(n, visited[i]))
    && (forall i: nat, j: nat {:trigger InOrder(n, visited, i, j)} :: InOrder(n, visited, i, j))
    && (forall i: nat {:trigger PointsOn(n, visited, i)} :: PointsOn(n, visited, i))
    && (if |visited| == 0 then next == first
        else first == Some(visited[0]) && next == n[visited[|visited| - 1]].body.next)
  }

  lemma {:induction false} FollowOne(n: Nodes, visited: seq<Loc>, first: Option<Loc>, l: Loc)
    requires Followed(n, visited, first, Some(l)) && LeafAt(n, l)
    requires |visited| > 0 ==> SymLess(KeyOf(n, visited[|visited| - 1]), KeyOf(n, l))
    ensures Followed(n, visited + [l], first, n[l].body.next)
  {
    hide SymLess, LeafAt, KeyOf;
    var v := visited + [l];
    forall i: nat, j: nat
      ensures InOrder(n, v, i, j)
    {
      if i < j < |v| {
        assert InOrder(n, visited, i, j) && InOrder(n, visited, i, |visited| - 1);
        StillInOrder(n, visited, l, i, j);
      }
    }
    forall i: nat
      ensures PointsOn(n, v, i)
    {
      assert PointsOn(n, visited, i);
    }
  }

  lemma {:induction false} StillInOrder(n: Nodes, visited: seq<Loc>, l: Loc, i: nat, j: nat)
    requires i < j <= |visited| && InOrder(n, visited, i, j) && InOrder(n, visited, i, |visited| - 1)
    requires SymLess(KeyOf(n, visited[|visited| - 1]), KeyOf(n, l))
    ensures SymLess(KeyOf(n, visited[i]), KeyOf(n, (visited + [l])[j]))
  {
    hide SymLess, KeyOf;
    if j == |visited| && i < j - 1 {
      SymLessTransitive(KeyOf(n, visited[i]), KeyOf(n, visited[j - 1]), KeyOf(n, l));
    }
  }

  // What was followed is the beginning of the list, if there is one.
  lemma {:induction false} FollowedIsPrefix(n: Nodes, visited: seq<Loc>, first: Option<Loc>, next: Option<Loc>,
                                            order: seq<Loc>)
    requires Followed(n, visited, first, next) && ListOk(n, order, first)
    ensures visited <= order && next == NextAt(order, |visited|)
  {
    if |visited| > 0 {
      hide Followed, ListOk;
      var e := |visited| - 1;
      LastFollowed(n, visited, first, next);
      FollowedButLast(n, visited, first, next);
      FollowedIsPrefix(n, visited[..e], first, Some(visited[e]), order);
      PrefixGrows(visited, order);
      ListedAt(n, order, first, e);
    }
  }

  lemma {:induction false} LastFollowed(n: Nodes, visited: seq<Loc>, first: Option<Loc>, next: Option<Loc>)
    requires Followed(n, visited, first, next) && |visited| > 0
    ensures var l := visited[|visited| - 1]; LeafAt(n, l) && next == n[l].body.next
  {
  }

  lemma {:induction false} PrefixGrows(visited: seq<Loc>, order: seq<Loc>)
    requires |visited| > 0 && visited[..|visited| - 1] <= order
    requires Some(visited[|visited| - 1]) == NextAt(order, |visited| - 1)
    ensures visited <= order && order[|visited| - 1] == visited[|visited| - 1]
  {
    assert visited == visited[..|visited| - 1] + [visited[|visited| - 1]];
  }

  lemma {:induction false} FollowedButLast(n: Nodes, visited: seq<Loc>, first: Option<Loc>, next: Option<Loc>)
    requires Followed(n, visited, first, next) && |visited| > 0
    ensures Followed(n, visited[..|visited| - 1], first, Some(visited[|visited| - 1]))
  {
    var e := |visited| - 1;
    var v := visited[..e];
    forall i: nat, j: nat
      ensures InOrder(n, v, i, j)
    {
      assert InOrder(n, visited, i, j);
    }
    forall i: nat
      ensures PointsOn(n, v, i)
    {
      assert PointsOn(n, visited, i);
    }
    if e > 0 {
      assert PointsOn(n, visited, e - 1);
      assert v[|v| - 1] == visited[e - 1] && v[0] == visited[0];
    }
  }

  // If all leaves were followed to the end, the list is sorted and complete.
  lemma {:induction false} FollowedAll(n: Nodes, visited: seq<Loc>, first: Option<Loc>)
    requires Followed(n, visited, first, None) && forall l :: LeafAt(n, l) ==> l in visited
    ensures ListOk(n, visited, first)
  {
    forall i, j | 0 <= i < j < |visited|
      ensures KeyLess(n, visited[i], visited[j])
    {
      assert InOrder(n, visited, i, j);
    }
    forall i | 0 <= i < |visited|
      ensures n[visited[i]].body.next == NextAt(visited, i + 1)
    {
      assert PointsOn(n, visited, i);
    }
  }

  lemma {:induction false} LessByKeys(a: Key, b: Key)
    ensures KeyCompare(b, a) > 0 <==> SymLess(Symbols(a), Symbols(b))
  {
    EncodingOrderIsomorphism(a, b);
    CompareAntisymmetric(a, b);
  }

  class Verifier {
    const trie: CuckooTrie

    constructor (trie: CuckooTrie)
      ensures this.trie == trie
    {
      this.trie := trie;
    }

    // Does the locator lead to a leaf?
    method LeadsToLeaf(l: Loc) returns (ok: bool)
      requires trie.table.Valid()
      ensures ok <==> LeafAt(trie.table.Contents(), l)
    {
      var node := trie.table.TryFind(l);
      ok := node.Some? && node.value.body.Leaf?;
    }

    // Can all children of the bitmap be found by their parent's colour?
    method VerifyBitmapChildren(l: Loc, children: set<Symbol>) returns (ok: bool)
      requires trie.table.Valid() && l.hash < trie.table.g.NumPairs() && l.color <= MAX_VALID_COLOR
      ensures ok <==> forall x :: x in children ==> ChildFound(trie.table.g, trie.table.Contents(), l, x)
    {
      ok := true;
      var child := 0;
      while child <= FANOUT && ok
        invariant 0 <= child <= FANOUT + 1
        invariant ok ==> forall x :: x in children && x < child ==>
                    ChildFound(trie.table.g, trie.table.Contents(), l, x)
        invariant !ok ==> exists x :: x in children && !ChildFound(trie.table.g, trie.table.Contents(), l, x)
        decreases ok, FANOUT - child
      {
        if child in children {
          AccumulateInRange(trie.table.g, l.hash, child);
          ok := trie.table.TryFindChild(AccumulateHash(trie.table.g, l.hash, child), child, l.color);
        }
        child := child + 1;
      }
    }

    // Does the jump node lead to an entry that is not a leaf?
    method VerifyJumpChild(l: Loc, symbols: Path, childColor: nat) returns (ok: bool)
      requires trie.table.Valid()
      ensures ok <==> var c := Loc(HashFrom(trie.table.g, l.hash, symbols), childColor);
                      c in trie.table.Contents() && !trie.table.Contents()[c].body.Leaf?
    {
      var hash := l.hash;
      var i := 0;
      while i < |symbols|
        invariant 0 <= i <= |symbols| && hash == HashFrom(trie.table.g, l.hash, symbols[..i])
      {
        HashFromSnoc(trie.table.g, l.hash, symbols[..i], symbols[i]);
        assert symbols[..i + 1] == symbols[..i] + [symbols[i]];
        hash := AccumulateHash(trie.table.g, hash, symbols[i]);
        i := i + 1;
      }
      assert symbols[..i] == symbols;
      var child := trie.table.TryFind(Loc(hash, childColor));
      ok := child.Some? && !child.value.body.Leaf?;
    }

    method VerifyEntry(l: Loc, node: Node) returns (ok: bool)
      requires trie.table.Valid() && l.hash < trie.table.g.NumPairs() && l.color <= MAX_VALID_COLOR
      ensures ok <==> EntryVerified(trie.table.g, trie.table.Contents(), l, node)
    {
      ok := true;
      if !node.body.Leaf? {
        ok := LeadsToLeaf(MaxLeafOf(l, node));
      }
      match node.body
      case Leaf(_, next, _) =>
        if next.Some? {
          ok := LeadsToLeaf(next.value);
        }
      case Bitmap(children, _, _) =>
        var found := VerifyBitmapChildren(l, children);
        ok := ok && found;
      case Jump(symbols, childColor, _) =>
        var found := VerifyJumpChild(l, symbols, childColor);
        ok := ok && found;
    }

    // Follows the list from its head. It must reach every leaf, in increasing order; it
    // is given up when it is longer than the number of leaves.
    method VerifyLinklist(leaves: set<Loc>, ghost order: seq<Loc>) returns (ok: bool, ghost visited: seq<Loc>)
      requires trie.table.Valid() && leaves == LeafBodies(trie.table.Contents()).Keys
      ensures ok ==> ListOk(trie.table.Contents(), visited, trie.minNext)
      ensures ListOk(trie.table.Contents(), order, trie.minNext) ==> ok
    {
      hide Placed, ListOk, NextAt, KeyLess, LeafBodies, KeyCompare, SymLess, Symbols, WriteLog;
      ghost var n := trie.table.Contents();
      var next, unlinked, count := trie.minNext, leaves, 0;
      var lastKey: Option<Key> := None;
      visited := [];
      while next.Some?
        invariant count == |visited| <= |leaves|
        invariant Followed(n, visited, trie.minNext, next) && unlinked == leaves - ToSet(visited)
        invariant lastKey == if |visited| == 0 then None else Some(n[visited[|visited| - 1]].body.kv.key)
        decreases |leaves| - count
      {
        NextIfList(n, visited, trie.minNext, next.value, order, leaves);
        var leaf := trie.table.TryFind(next.value);
        if leaf.None? || !leaf.value.body.Leaf? {
          return false, visited;
        }
        if lastKey.Some? {
          LessByKeys(lastKey.value, leaf.value.body.kv.key);
          if KeyCompare(leaf.value.body.kv.key, lastKey.value) <= 0 {
            return false, visited;
          }
        }
        count := count + 1;
        if count > |leaves| {
          return false, visited;
        }
        FollowOne(n, visited, trie.minNext, next.value);
        assert ToSet(visited + [next.value]) == ToSet(visited) + {next.value};
        visited := visited + [next.value];
        unlinked := unlinked - {next.value};
        lastKey, next := Some(leaf.value.body.kv.key), leaf.value.body.next;
      }
      ok := unlinked == {};
      EndIfList(n, visited, trie.minNext, order, leaves);
      if ok {
        AllInVisited(n, visited, leaves);
        FollowedAll(n, visited, trie.minNext);
      }
    }

    // The leaves of the table.
    method CollectLeaves() returns (leaves: set<Loc>)
      requires trie.table.Valid()
      ensures leaves == LeafBodies(trie.table.Contents()).Keys
    {
      var j := 0;
      leaves := {};
      while j < trie.table.cells.Length
        invariant 0 <= j <= trie.table.cells.Length
        invariant forall l :: l in leaves <==> l in LeafBodies(trie.table.Contents()) && trie.table.spot[l] < j
      {
        var c := trie.table.cells[j];
        CellAt(trie.table, j);
        if c.used && c.node.body.Leaf? {
          leaves := leaves + {Loc(PrimaryOf(trie.table.g, j / 4, c) * 16 + c.tag, c.color)};
        }
        j := j + 1;
      }
    }

    // The whole check.
    method VerifyTrie(ghost order: seq<Loc>) returns (isOk: bool, ghost visited: seq<Loc>)
      requires trie.table.Valid()
      ensures isOk ==> AllVerified(trie.table.g, trie.table.Contents())
                       && ListOk(trie.table.Contents(), visited, trie.minNext)
      ensures AllVerified(trie.table.g, trie.table.Contents()) && ListOk(trie.table.Contents(), order, trie.minNext) ==>
                isOk
    {
      AllInCells(trie.table);
      hide Placed, WriteLog, ListOk, LeafBodies, EntryVerified;
      var j := 0;
      isOk := true;
      while j < trie.table.cells.Length
        invariant 0 <= j <= trie.table.cells.Length
        invariant isOk ==> VerifiedUpTo(j)
        invariant !isOk ==> !AllVerified(trie.table.g, trie.table.Contents())
      {
        var ok := VerifyCell(j);
        isOk := isOk && ok;
        j := j + 1;
      }
      var leaves := CollectLeaves();
      var linked;
      linked, visited := VerifyLinklist(leaves, order);
      isOk := isOk && linked;
    }

    // Tests the entry in a cell, if there is one.
    method VerifyCell(j: nat) returns (ok: bool)
      requires trie.table.Valid() && j < trie.table.cells.Length
      ensures ok <==> forall l :: l in trie.table.Contents() && trie.table.spot[l] == j ==>
                        EntryVerified(trie.table.g, trie.table.Contents(), l, trie.table.Contents()[l])
    {
      var c := trie.table.cells[j];
      CellAt(trie.table, j);
      hide Placed, WriteLog, EntryVerified;
      ok := true;
      if c.used {
        var loc := Loc(PrimaryOf(trie.table.g, j / 4, c) * 16 + c.tag, c.color);
        ok := VerifyEntry(loc, c.node);
      }
    }

    // The entries in the first j cells pass.
    ghost predicate VerifiedUpTo(j: nat)
      reads trie, trie.table, trie.table.cells, trie.table.seqs
      requires trie.table.Valid()
    {
      forall l :: l in trie.table.Contents() && trie.table.spot[l] < j ==>
        EntryVerified(trie.table.g, trie.table.Contents(), l, trie.table.Contents()[l])
    }

    // After any operation the check succeeds.
    method CheckTrie() returns (isOk: bool)
      requires trie.Valid()
      ensures isOk
    {
      if trie.isEmpty {
        EmptyList(trie.table.Contents());
      } else {
        GoodIsVerified(trie.table.g, trie.table.Contents(), trie.shape, trie.order, trie.minNext, trie.dict);
      }
      ghost var visited;
      isOk, visited := VerifyTrie(trie.order);
    }
  }

  lemma {:induction false} EmptyList(n: Nodes)
    requires n == map[]
    ensures ListOk(n, [], None)
  {
  }

  // The name of a used cell, and that every entry is in its cell.
  lemma {:induction false} AllInCells(table: CuckooTable)
    requires table.Valid()
    ensures forall l :: l in table.Contents() ==> l in table.spot && table.spot[l] < table.cells.Length
  {
  }

  lemma {:induction false} CellAt(table: CuckooTable, j: nat)
    requires table.Valid() && j < table.cells.Length
    ensures table.cells[j].used ==>
              && table.cells[j].tag < TAG_VALUES && 0 <= PrimaryOf(table.g, j / 4, table.cells[j]) < table.g.numBuckets
              && var l := Loc(PrimaryOf(table.g, j / 4, table.cells[j]) * 16 + table.cells[j].tag,
                              table.cells[j].color);
                 l in table.Contents() && table.spot[l] == j && table.Contents()[l] == table.cells[j].node
                 && l.hash < table.g.NumPairs() && l.color <= MAX_VALID_COLOR
    ensures forall l :: l in table.Contents() && table.spot[l] == j ==>
              table.cells[j].used && l == LocAt(table.g, j, table.cells[j])
    ensures forall l :: l in table.Contents() ==> l in table.spot && table.spot[l] < table.cells.Length
  {
    assert table.cells[..][j] == table.cells[j];
    assert CellOk(table.cells[..][j]);
    if table.cells[j].used {
      MixUnmixInverse(table.g, j / 4, table.cells[j].tag);
    }
  }

  lemma {:induction false} NextIfList(n: Nodes, visited: seq<Loc>, first: Option<Loc>, l: Loc, order: seq<Loc>,
                                      leaves: set<Loc>)
    requires Followed(n, visited, first, Some(l)) && leaves == LeafBodies(n).Keys
    ensures ListOk(n, order, first) ==> LeafAt(n, l) && |visited| + 1 <= |leaves|
    ensures ListOk(n, order, first) && |visited| > 0 ==> SymLess(KeyOf(n, visited[|visited| - 1]), KeyOf(n, l))
  {
    if ListOk(n, order, first) {
      FollowedIsPrefix(n, visited, first, Some(l), order);
      assert order[|visited|] == l;
      assert |visited| > 0 ==> KeyLess(n, order[|visited| - 1], order[|visited|]);
      ListCount(n, order, first, leaves);
    }
  }

  lemma {:induction false} ListCount(n: Nodes, order: seq<Loc>, first: Option<Loc>, leaves: set<Loc>)
    requires ListOk(n, order, first) && leaves == LeafBodies(n).Keys
    ensures ToSet(order) == leaves && |order| == |leaves|
  {
    forall i, j | 0 <= i < j < |order|
      ensures order[i] != order[j]
    {
      Distinct(n, order, first, i, j);
    }
    forall l
      ensures l in ToSet(order) <==> l in leaves
    {
      assert l in leaves <==> LeafAt(n, l);
    }
    DistinctCount(order);
  }

  lemma {:induction false} EndIfList(n: Nodes, visited: seq<Loc>, first: Option<Loc>, order: seq<Loc>, leaves: set<Loc>)
    requires Followed(n, visited, first, None) && leaves == LeafBodies(n).Keys
    ensures ListOk(n, order, first) ==> leaves - ToSet(visited) == {}
  {
    if ListOk(n, order, first) {
      FollowedIsPrefix(n, visited, first, None, order);
      ListCount(n, order, first, leaves);
      assert visited == order;
    }
  }

  lemma {:induction false} AllInVisited(n: Nodes, visited: seq<Loc>, leaves: set<Loc>)
    requires leaves == LeafBodies(n).Keys && leaves - ToSet(visited) == {}
    ensures forall l :: LeafAt(n, l) ==> l in visited
  {
    forall l | LeafAt(n, l)
      ensures l in visited
    {
      assert l in leaves;
      assert l !in leaves - ToSet(visited);
    }
  }
}
