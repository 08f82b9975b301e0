// Ordered iteration over the trie.
module Iteration {
  import opened Keys
  import opened Hashing
  import opened Store
  import opened Structure
  import opened Order
  import opened Table
  import opened Fingers
  import opened Steps
  import opened Places
  import opened Trie

  // ------------------------------------------------------------------
  // The stored pairs in key order
  // ------------------------------------------------------------------

  ghost function PairAt(n: Nodes, l: Loc): KV {
    if LeafAt(n, l) then n[l].body.kv else KV([], [])
  }

  ghost function Entries(n: Nodes, order: seq<Loc>): seq<KV> {
    seq(|order|, i requires 0 <= i < |order| => PairAt(n, order[i]))
  }

  ghost predicate Ascending(es: seq<KV>) {
    forall i, j :: 0 <= i < j < |es| ==> KeyCompare(es[i].key, es[j].key) < 0
  }

  // The linked list holds the pairs of the dictionary, each once, in ascending order.
  lemma {:induction false} EntriesAreDict(n: Nodes, order: seq<Loc>, first: Option<Loc>, dict: Dict)
    requires ListOk(n, order, first) && DictOk(n, dict)
    ensures Ascending(Entries(n, order))
    ensures forall kv :: kv in Entries(n, order) <==> Holds(dict, kv)
  {
    var es := Entries(n, order);
    forall i, j | 0 <= i < j < |es|
      ensures KeyCompare(es[i].key, es[j].key) < 0
    {
      assert KeyLess(n, order[i], order[j]);
      EncodingOrderIsomorphism(es[i].key, es[j].key);
    }
    forall kv
      ensures kv in es <==> Holds(dict, kv)
    {
      assert Stored(n, kv) <==> Holds(dict, kv);
      if Stored(n, kv) {
        var l :| LeafAt(n, l) && n[l].body.kv == kv;
        var i :| 0 <= i < |order| && order[i] == l;
        assert es[i] == kv;
      }
      if kv in es {
        var i :| 0 <= i < |es| && es[i] == kv;
        assert LeafAt(n, order[i]) && n[order[i]].body.kv == kv;
      }
    }
  }

  // The entries from position k on are those with keys not below the given key.
  ghost predicate StartsAt(es: seq<KV>, key: Key, k: nat) {
    k <= |es| && forall i :: 0 <= i < |es| ==> (KeyCompare(es[i].key, key) < 0 <==> i < k)
  }

  lemma {:induction false} RankIsStart(n: Nodes, order: seq<Loc>, first: Option<Loc>, key: Key, k: nat)
    requires ListOk(n, order, first) && IsRank(n, order, Symbols(key), k)
    ensures StartsAt(Entries(n, order), key, k)
  {
    forall i | 0 <= i < |order|
      ensures KeyCompare(Entries(n, order)[i].key, key) < 0 <==> i < k
    {
      EncodingOrderIsomorphism(n[order[i]].body.kv.key, key);
    }
  }

  // ------------------------------------------------------------------
  // On which side of the key the rest of the trie is
  // ------------------------------------------------------------------

  // No leaf is below the empty key.
  lemma {:induction false} EmptyKeyFirst(n: Nodes, order: seq<Loc>, first: Option<Loc>)
    requires ListOk(n, order, first)
    ensures IsRank(n, order, Symbols([]), 0)
  {
    forall i | 0 <= i < |order|
      ensures !SymLess(KeyOf(n, order[i]), Symbols([]))
    {
      var key := n[order[i]].body.kv.key;
      EncodingOrderIsomorphism(key, []);
      assert key[..0] == [];
    }
  }

  // Below the lowest bitmap, the path is the only way down.
  lemma {:induction false} OnlyWay(g: Geometry, n: Nodes, s: Shape, t: Path, path: seq<PathEntry>, lens: seq<nat>,
                                   last: nat, i: nat, l: Path)
    requires Tree(g, n, s) && PathOk(g, n, s, t, path, lens, last) && i < |path|
    requires forall j :: i <= j < |path| - 1 ==> !path[j].node.body.Bitmap?
    requires IsLeaf(n, s, l) && Prefix(t, lens[i]) <= l
    ensures Prefix(t, last) <= l
    decreases |path| - i
  {
    if i < |path| - 1 {
      assert StepOk(n, s, t, lens, i + 1);
      var p := Prefix(t, lens[i]);
      assert BodyAt(n, s, p).Jump?;
      var c := Toward(g, n, s, [], p, l);
      OnlyWay(g, n, s, t, path, lens, last, i + 1, l);
    }
  }

  // All leaves below the node where the descent ended are on one side of the key.
  ghost predicate AllOnSide(n: Nodes, s: Shape, p: Path, t: Path, left: bool) {
    forall l: Path :: IsLeaf(n, s, l) && p <= l ==> (SymLess(KeyOf(n, s.at[l]), t) <==> left)
  }

  lemma {:induction false} LeafSide(g: Geometry, n: Nodes, s: Shape, p: Path, key: Key)
    requires Tree(g, n, s) && IsLeaf(n, s, p)
    ensures AllOnSide(n, s, p, Symbols(key), KeyCompare(BodyAt(n, s, p).kv.key, key) < 0)
  {
    EncodingOrderIsomorphism(BodyAt(n, s, p).kv.key, key);
    forall l: Path | IsLeaf(n, s, l) && p <= l
      ensures l == p
    {
      LeafHasNoChild(g, n, s, [], p, l);
    }
  }

  lemma {:induction false} JumpSide(g: Geometry, n: Nodes, s: Shape, t: Path, len: nat, depth: nat, e: PathEntry)
    requires Tree(g, n, s) && StandsAt(g, n, s, t, len, depth, e) && e.node.body.Jump? && len < |t|
    requires depth < |e.node.body.symbols| && e.node.body.symbols[depth] != t[len]
    ensures AllOnSide(n, s, t[..len - depth], t, e.node.body.symbols[depth] < t[len])
  {
    var p := t[..len - depth];
    forall l: Path | IsLeaf(n, s, l) && p <= l
      ensures SymLess(KeyOf(n, s.at[l]), t) <==> e.node.body.symbols[depth] < t[len]
    {
      assert NodeOk(n, s, l);
      var c := Toward(g, n, s, [], p, l);
      JumpParts(t, len, depth, e.node.body.symbols, KeyOf(n, s.at[l]));
    }
  }

  lemma {:induction false} JumpParts(t: Path, len: nat, depth: nat, symbols: Path, k: Path)
    requires depth <= len < |t| && depth < |symbols| && symbols[depth] != t[len]
    requires depth > 0 ==> t[len - depth..len] == symbols[..depth]
    requires t[..len - depth] + symbols <= k
    ensures SymLess(k, t) <==> symbols[depth] < t[len]
  {
    var p := t[..len - depth];
    assert k[..len] == (p + symbols)[..len] == p + symbols[..depth];
    assert t[..len] == p + t[len - depth..len];
    assert depth == 0 ==> symbols[..depth] == [] && t[len - depth..len] == [];
    assert k[len] == (p + symbols)[len] == symbols[depth];
    PartDecides(k, t, len);
  }

  // If the whole trie is on one side of the key, so is the rank.
  lemma {:induction false} AllOrNone(n: Nodes, s: Shape, order: seq<Loc>, first: Option<Loc>, t: Path, left: bool)
    requires ListOk(n, order, first) && NoGarbage(n, s) && (forall l :: l in s.of ==>
                                                              s.of[l] in s.at && s.at[s.of[l]] == l)
    requires AllOnSide(n, s, [], t, left)
    ensures IsRank(n, order, t, if left then |order| else 0)
  {
    forall i | 0 <= i < |order|
      ensures SymLess(KeyOf(n, order[i]), t) <==> left
    {
      assert LeafAt(n, order[i]);
      assert IsLeaf(n, s, s.of[order[i]]) && [] <= s.of[order[i]];
    }
  }

  // The lowest bitmap above where the descent ended, and its child on the way,
  // separate the keys below t from the others.
  lemma {:induction false} CutAtLowestBitmap(g: Geometry, n: Nodes, s: Shape, t: Path, path: seq<PathEntry>,
                                             lens: seq<nat>, last: nat, i: nat, left: bool)
    requires Tree(g, n, s) && PathOk(g, n, s, t, path, lens, last) && i < |path| - 1 && path[i].node.body.Bitmap?
    requires forall j :: i < j < |path| - 1 ==> !path[j].node.body.Bitmap?
    requires AllOnSide(n, s, Prefix(t, last), t, left)
    ensures i < |lens|
    ensures Cut(n, s, Prefix(t, lens[i]), if left then path[i + 1].node.lastSymbol + 1
                else path[i + 1].node.lastSymbol, t)
  {
    BacktrackSymbol(g, n, s, t, path, lens, last, i, t);
    BelowTheTurn(g, n, s, t, path, lens, last, i, left);
    var q, x := Prefix(t, lens[i]), t[lens[i]];
    assert EntryOk(g, n, s, path[i], q);
    hide PathOk, Subtree, SymLess, Cut;
    CutAround(g, n, s, q, x, t, left);
  }

  // Below the lowest bitmap all leaves are on the side of t that the node
  // where the descent ended is on.
  lemma {:induction false} BelowTheTurn(g: Geometry, n: Nodes, s: Shape, t: Path, path: seq<PathEntry>,
                                        lens: seq<nat>, last: nat, i: nat, left: bool)
    requires Tree(g, n, s) && PathOk(g, n, s, t, path, lens, last) && i < |path| - 1 && path[i].node.body.Bitmap?
    requires forall j :: i < j < |path| - 1 ==> !path[j].node.body.Bitmap?
    requires AllOnSide(n, s, Prefix(t, last), t, left)
    ensures i < |lens| && lens[i] < |t| && AllOnSide(n, s, Prefix(t, lens[i]) + [t[lens[i]]], t, left)
  {
    hide Tree, SymLess, KeyOf, StepOk, HashFrom, Subtree, NamedOk, Symbols, EntryOk, NodeOk;
    BacktrackSymbol(g, n, s, t, path, lens, last, i, t);
    var q, x := Prefix(t, lens[i]), t[lens[i]];
    assert q + [x] == Prefix(t, lens[i + 1]);
    hide Subtree, SymLess, EntryOk;
    forall l: Path | IsLeaf(n, s, l) && q + [x] <= l
      ensures SymLess(KeyOf(n, s.at[l]), t) <==> left
    {
      OnlyWay(g, n, s, t, path, lens, last, i + 1, l);
    }
  }

  class CtIter {
    const trie: CuckooTrie
    // The leaf that the iterator is at, or the head of the list.
    var leafKV: KV
    var leafNext: Option<Loc>
    var isExhausted: bool
    // The current leaf has not been returned yet.
    var reportCurrent: bool
    // How many pairs of the trie come before the next one to return.
    ghost var pos: nat

    ghost predicate Ok()
      reads this, trie, trie.table, trie.table.cells, trie.table.seqs
    {
      && trie.Valid() && pos <= |trie.order|
      && if isExhausted then pos == |trie.order|
         else && !trie.isEmpty
              && if reportCurrent
                 then && pos < |trie.order| && leafKV == PairAt(trie.table.Contents(), trie.order[pos])
                      && leafNext == NextAt(trie.order, pos + 1)
                 else leafNext == NextAt(trie.order, pos)
    }

    // The pairs that are still to be returned.
    ghost function Remaining(): seq<KV>
      reads this, trie, trie.table, trie.table.cells, trie.table.seqs
      requires Ok()
    {
      Entries(trie.table.Contents(), trie.order)[pos..]
    }

    constructor (trie: CuckooTrie)
      ensures this.trie == trie
    {
      this.trie := trie;
      leafKV, leafNext, isExhausted, reportCurrent, pos := KV([], []), None, true, false, 0;
    }

    // Descends the key, and remembers the lowest bitmap on the way.
    method DescendToward(key: Key, ghost n: Nodes) returns (f: Finger, symbol: Symbol, lastBitmap: int)
      requires trie.Valid() && !trie.isEmpty && n == trie.table.Contents()
      ensures fresh(f) && f.g == trie.table.g && f.savePath && f.t == Symbols(key) && f.Ok(n, trie.shape)
      ensures f.Blocked(n, trie.shape) && (f.prefixLen < |f.t| ==> symbol == f.t[f.prefixLen])
      ensures f.prefixLen == |f.t| ==> f.containing.node.body.Leaf?
      ensures LowestBitmap(f.path, lastBitmap)
    {
      hide Subtree, ListOk, DictOk, PathOk, Placed, MaxAll, JumpsHide;
      f := new Finger(trie.table, true, Symbols(key), trie.shape);
      PathNotEmpty(f.g, n, trie.shape, f.t, f.path, f.lens, 0);
      var prefetcher := new KeyPrefetcher.Start(f.g, key);
      symbol, lastBitmap := DescendAlong(f, prefetcher, key, n, trie.shape);
    }

    method DescendAlong(f: Finger, prefetcher: KeyPrefetcher, key: Key, ghost n: Nodes, ghost s: Shape)
        returns (symbol: Symbol, lastBitmap: int)
      requires trie.table.Valid() && n == trie.table.Contents() && Findable(f.g, n, s) && f.Ok(n, s)
      requires f.g == trie.table.g && f.savePath && f.t == Symbols(key) && f.prefixLen == 0 && |f.path| == 1
               && |f.t| > 0
      requires f.Ahead(prefetcher, key) && prefetcher.prefixHashes != trie.table.seqs
      modifies f, prefetcher, prefetcher.prefixHashes
      ensures f.Ok(n, s) && f.Blocked(n, s) && (f.prefixLen < |f.t| ==> symbol == f.t[f.prefixLen])
      ensures f.prefixLen == |f.t| ==> f.containing.node.body.Leaf?
      ensures LowestBitmap(f.path, lastBitmap)
    {
      hide Subtree, PathOk, Placed, JumpsHide, Stuck, StandsAt, EntryOk;
      lastBitmap, symbol := -1, SYMBOL_END;
      var numKeySymbols := prefetcher.numKeySymbols;
      var success := true;
      while f.prefixLen < numKeySymbols && success
        invariant trie.table.Valid() && trie.table.Contents() == n && f.Ok(n, s)
        invariant f.prefixLen <= |f.t| == numKeySymbols
        invariant if success then f.Ahead(prefetcher, key) && (f.prefixLen == |f.t| ==> f.Blocked(n, s))
                  else f.Blocked(n, s) && f.prefixLen < |f.t| && symbol == f.t[f.prefixLen]
        invariant f.prefixLen == |f.t| ==> f.containing.node.body.Leaf?
        invariant LowestBitmap(f.path, lastBitmap)
        decreases success, numKeySymbols - f.prefixLen
      {
        success, symbol, lastBitmap := StepAlong(f, prefetcher, key, lastBitmap, n, s);
      }
    }

    // Notes a bitmap, and descends one symbol.
    method StepAlong(f: Finger, prefetcher: KeyPrefetcher, key: Key, last: int, ghost n: Nodes, ghost s: Shape)
        returns (success: bool, symbol: Symbol, lastBitmap: int)
      requires trie.table.Valid() && n == trie.table.Contents() && Findable(f.g, n, s) && f.Ok(n, s)
      requires f.g == trie.table.g && f.savePath && f.t == Symbols(key) && f.prefixLen < |f.t|
      requires f.Ahead(prefetcher, key) && prefetcher.prefixHashes != trie.table.seqs && LowestBitmap(f.path, last)
      modifies f, prefetcher, prefetcher.prefixHashes
      ensures f.Ok(n, s) && LowestBitmap(f.path, lastBitmap)
      ensures success ==> f.prefixLen == old(f.prefixLen) + 1 && f.Ahead(prefetcher, key)
      ensures success && f.prefixLen == |f.t| ==> f.containing.node.body.Leaf? && f.Blocked(n, s)
      ensures !success ==> f.prefixLen == old(f.prefixLen) && f.Blocked(n, s) && symbol == f.t[f.prefixLen]
    {
      hide Subtree, PathOk, Placed, JumpsHide, Stuck, StandsAt, EntryOk;
      FingerPlace(f.g, n, s, f.t, f.path, f.lens, f.prefixLen, f.depthInJump, f.containing);
      lastBitmap := if f.containing.node.body.Bitmap? then |f.path| - 1 else last;
      success, symbol := f.DescendOne(trie.table, prefetcher, key, n, s);
      if success && f.prefixLen == |f.t| {
        f.AtEnd(key, n, s);
      }
    }

    // Moves to the leaf just before the first one whose key is not below the given key,
    // or finds that there is none.
    method GotoInternal(key: Key) returns (exhausted: bool, kv: KV, next: Option<Loc>, ghost k: nat)
      requires trie.Valid()
      ensures StartsAt(Entries(trie.table.Contents(), trie.order), key, k)
      ensures if exhausted then k == |trie.order|
              else !trie.isEmpty && k <= |trie.order| && next == NextAt(trie.order, k)
    {
      hide Subtree, DictOk, PathOk, Placed, MaxAll, JumpsHide, StartsAt;
      exhausted, kv, next, k := false, KV([], []), trie.minNext, 0;
      ghost var n := trie.table.Contents();
      if trie.isEmpty {
        StartOf(n, trie.order, trie.minNext, key, 0, true);
        return true, kv, next, 0;
      }
      if |key| == 0 {
        // No key is below the empty one
        EmptyKeyFirst(n, trie.order, trie.minNext);
        StartOf(n, trie.order, trie.minNext, key, 0, false);
        return;
      }
      var f, symbol, lastBitmap := DescendToward(key, n);
      var start, bound, sided;
      exhausted, start, bound, sided, k := FindPlace(f, symbol, lastBitmap, key, n);
      if !sided && !exhausted {
        var pred;
        pred, k := PredecessorOf(f, start, bound, n);
        if pred.Some? {
          var leaf := trie.table.Find(pred.value);
          kv, next := leaf.body.kv, leaf.body.next;
        }
      }
      StartOf(n, trie.order, trie.minNext, key, k, false);
    }

    method PredecessorOf(f: Finger, start: nat, bound: nat, ghost n: Nodes) returns (pred: Option<Loc>, ghost k: nat)
      requires trie.table.Valid() && n == trie.table.Contents() && f.g == trie.table.g && f.savePath
               && f.Ok(n, trie.shape)
      requires Findable(f.g, n, trie.shape) && MaxAll(n, trie.shape) && ListOk(n, trie.order, trie.minNext)
      requires start < |f.path| && f.path[start].node.body.Bitmap? && start < |f.lens|
      requires Cut(n, trie.shape, Prefix(f.t, f.lens[start]), bound, f.t)
      ensures IsRank(n, trie.order, f.t, k) && pred == PredAt(trie.order, k) && (pred.Some? ==> LeafAt(n, pred.value))
    {
      ghost var m;
      pred, m := f.FindPredecessor(trie.table, start, bound, n, trie.shape);
      k := PredIs(f.g, n, trie.shape, trie.order, trie.minNext, Prefix(f.t, f.lens[start]), bound, f.t, pred, m);
    }

    // Decides, from where the descent ended, which bitmap and which of its children
    // separate the keys below the given key from the others. Without a bitmap, the whole
    // trie is on one side: `sided` (no key is below) or `exhausted` (all keys are).
    method FindPlace(f: Finger, symbol: Symbol, lastBitmap: int, key: Key, ghost n: Nodes)
        returns (exhausted: bool, start: nat, bound: nat, sided: bool, ghost k: nat)
      requires trie.Valid() && !trie.isEmpty && n == trie.table.Contents()
      requires f.g == trie.table.g && f.savePath && f.t == Symbols(key) && f.Ok(n, trie.shape)
      requires f.Blocked(n, trie.shape) && (f.prefixLen < |f.t| ==> symbol == f.t[f.prefixLen])
      requires f.prefixLen == |f.t| ==> f.containing.node.body.Leaf?
      requires LowestBitmap(f.path, lastBitmap)
      ensures exhausted ==> k == |trie.order|
      ensures sided ==> k == 0
      ensures exhausted || sided ==> AllLeaves(n, trie.order) && IsRank(n, trie.order, f.t, k)
      ensures !exhausted && !sided ==>
                && start < |f.path| && f.path[start].node.body.Bitmap? && start < |f.lens|
                && Cut(n, trie.shape, Prefix(f.t, f.lens[start]), bound, f.t)
    {
      hide Subtree, ListOk, DictOk, PathOk, Placed, MaxAll, JumpsHide, Cut, AllOnSide, IsRank, Symbols;
      exhausted, start, bound, sided, k := false, 0, 0, false, 0;
      FingerPlace(f.g, n, trie.shape, f.t, f.path, f.lens, f.prefixLen, f.depthInJump, f.containing);
      if f.containing.node.body.Bitmap? {
        // The way ends at a gap of a bitmap
        start, bound := |f.path| - 1, symbol;
        GapAtEnd(f.g, n, trie.shape, f.t, f.path, f.lens, f.prefixLen, f.depthInJump, f.containing);
        return;
      }
      // All keys below the node where the way ends are on the same side of the key
      var before := IsBefore(f, symbol, key, n);
      if 0 <= lastBitmap {
        start := lastBitmap;
        bound := f.path[lastBitmap + 1].node.lastSymbol + if before then 0 else 1;
        CutAtLowestBitmap(f.g, n, trie.shape, f.t, f.path, f.lens, f.prefixLen - f.depthInJump, lastBitmap, !before);
      } else {
        exhausted, sided := !before, before;
        k := if before then 0 else |trie.order|;
        WholeTrie(f.g, n, trie.shape, trie.order, trie.minNext, f.t, f.path, f.lens, f.prefixLen - f.depthInJump,
                  !before);
      }
    }

    // Is the key before all keys under the node that the finger is in?
    method IsBefore(f: Finger, symbol: Symbol, key: Key, ghost n: Nodes) returns (before: bool)
      requires trie.Valid() && !trie.isEmpty && n == trie.table.Contents()
      requires f.g == trie.table.g && f.t == Symbols(key) && f.Ok(n, trie.shape)
      requires f.Blocked(n, trie.shape) && (f.prefixLen < |f.t| ==> symbol == f.t[f.prefixLen])
      requires !f.containing.node.body.Bitmap?
      ensures AllOnSide(n, trie.shape, Prefix(f.t, f.prefixLen - f.depthInJump), f.t, !before)
    {
      hide Subtree, ListOk, DictOk, PathOk, Placed, MaxAll, JumpsHide;
      if f.containing.node.body.Leaf? {
        before := KeyCompare(f.containing.node.body.kv.key, key) >= 0;
        LeafSide(f.g, n, trie.shape, f.t[..f.prefixLen], key);
      } else {
        // The way leaves a jump, whose next symbol decides the side
        before := symbol < f.containing.node.body.symbols[f.depthInJump];
        JumpSide(f.g, n, trie.shape, f.t, f.prefixLen, f.depthInJump, f.containing);
      }
    }

    // Leaf i of the list, and what it points to.
    lemma {:induction false} AtList(i: nat)
      requires trie.Valid() && i < |trie.order|
      ensures !trie.isEmpty && LeafAt(trie.table.Contents(), trie.order[i])
      ensures trie.table.Contents()[trie.order[i]].body.next == NextAt(trie.order, i + 1)
    {
      hide Subtree, DictOk, Placed, MaxAll, JumpsHide;
    }

    // Advances to the next leaf of the list.
    method NextInternal()
      requires trie.Valid() && !trie.isEmpty && leafNext.Some? && LeafAt(trie.table.Contents(), leafNext.value)
      modifies this`leafKV, this`leafNext
      ensures leafKV == PairAt(trie.table.Contents(), old(leafNext.value))
      ensures leafNext == trie.table.Contents()[old(leafNext.value)].body.next
    {
      var node := trie.table.Find(leafNext.value);
      leafKV, leafNext := node.body.kv, node.body.next;
    }

    // Places the iterator on the first key that is not below the given one.
    method Goto(key: Key)
      requires trie.Valid()
      modifies this
      ensures Ok() && StartsAt(Entries(trie.table.Contents(), trie.order), key, pos)
    {
      hide Good, Placed;
      var exhausted, kv, next;
      ghost var k;
      exhausted, kv, next, k := GotoInternal(key);
      isExhausted, leafKV, leafNext, pos := exhausted || next == None, kv, next, k;
      if isExhausted {
        return;
      }
      AtList(k);
      NextInternal();
      reportCurrent := true;
    }

    // Returns the next pair, or None if all were returned.
    method Next() returns (result: Option<KV>)
      requires Ok()
      modifies this
      ensures Ok()
      ensures old(Remaining()) == [] ==> result == None && Remaining() == []
      ensures old(Remaining()) != [] ==> result == Some(old(Remaining())[0]) && Remaining() == old(Remaining())[1..]
    {
      hide Good, Placed;
      ghost var es := Entries(trie.table.Contents(), trie.order);
      if isExhausted {
        return None;
      }
      if reportCurrent {
        reportCurrent := false;
        pos := pos + 1;
        assert es[pos - 1..] == [es[pos - 1]] + es[pos..];
        return Some(leafKV);
      }
      if leafNext == None {
        isExhausted := true;
        return None;
      }
      AtList(pos);
      NextInternal();
      pos := pos + 1;
      assert es[pos - 1..] == [es[pos - 1]] + es[pos..];
      return Some(leafKV);
    }

    // All pairs from the given key on.
    method Scan(key: Key) returns (out: seq<KV>)
      requires trie.Valid()
      modifies this
      ensures Ascending(out)
      ensures forall kv :: kv in out <==> Holds(trie.dict, kv) && KeyCompare(kv.key, key) >= 0
    {
      hide Subtree, PathOk, Placed, MaxAll, JumpsHide;
      Goto(key);
      ghost var es, start := Entries(trie.table.Contents(), trie.order), pos;
      out := CollectAll();
      EntriesOf();
      Suffix(es, key, start, trie.dict);
    }

    // The pairs of the trie, in order, are those of the dictionary.
    lemma {:induction false} EntriesOf()
      requires trie.Valid()
      ensures Ascending(Entries(trie.table.Contents(), trie.order))
      ensures forall kv :: kv in Entries(trie.table.Contents(), trie.order) <==> Holds(trie.dict, kv)
    {
      hide Subtree, Placed, MaxAll, JumpsHide;
      if !trie.isEmpty {
        EntriesAreDict(trie.table.Contents(), trie.order, trie.minNext, trie.dict);
      }
    }

    // Calls Next until it returns None.
    method CollectAll() returns (out: seq<KV>)
      requires Ok()
      modifies this
      ensures Ok() && out == old(Remaining())
    {
      hide Good, Placed, Ok, Remaining;
      out := [];
      ghost var all := Remaining();
      var kv := Next();
      while kv.Some?
        invariant Ok() && all == (if kv.Some? then out + [kv.value] + Remaining() else out)
        decreases if kv.Some? then 1 + |Remaining()| else 0
      {
        out := out + [kv.value];
        kv := Next();
      }
    }
  }

  lemma {:induction false} Suffix(es: seq<KV>, key: Key, k: nat, dict: Dict)
    requires Ascending(es) && StartsAt(es, key, k) && forall kv :: kv in es <==> Holds(dict, kv)
    ensures Ascending(es[k..])
    ensures forall kv :: kv in es[k..] <==> Holds(dict, kv) && KeyCompare(kv.key, key) >= 0
  {
    forall kv
      ensures kv in es[k..] <==> kv in es && KeyCompare(kv.key, key) >= 0
    {
      if kv in es && KeyCompare(kv.key, key) >= 0 {
        var i :| 0 <= i < |es| && es[i] == kv;
        assert es[k..][i - k] == kv;
      }
    }
  }

  lemma {:induction false} StartOf(n: Nodes, order: seq<Loc>, first: Option<Loc>, key: Key, k: nat, empty: bool)
    requires empty ==> order == [] && k == 0
    requires !empty ==> ListOk(n, order, first) && IsRank(n, order, Symbols(key), k)
    ensures StartsAt(Entries(n, order), key, k)
  {
    if !empty {
      RankIsStart(n, order, first, key, k);
    }
  }

  ghost predicate AllLeaves(n: Nodes, order: seq<Loc>) {
    forall i :: 0 <= i < |order| ==> LeafAt(n, order[i])
  }

  lemma {:induction false} FingerPlace(g: Geometry, n: Nodes, s: Shape, t: Path, path: seq<PathEntry>, lens: seq<nat>,
                                       len: nat, depth: nat, e: PathEntry)
    requires StandsAt(g, n, s, t, len, depth, e) && PathOk(g, n, s, t, path, lens, len - depth)
    ensures depth <= len <= |t| && |lens| == |path| > 0 && path[|path| - 1] == e
  {
    PathEndsAt(g, n, s, t, path, lens, len - depth, e);
  }

  lemma {:induction false} GapAtEnd(g: Geometry, n: Nodes, s: Shape, t: Path, path: seq<PathEntry>, lens: seq<nat>,
                                    len: nat, depth: nat, e: PathEntry)
    requires Tree(g, n, s) && StandsAt(g, n, s, t, len, depth, e) && PathOk(g, n, s, t, path, lens, len - depth)
    requires e.node.body.Bitmap? && Stuck(n, s, t[..len - depth], t)
    ensures depth == 0 && |lens| == |path| > 0 && path[|path| - 1] == e && len < |t|
    ensures Cut(n, s, Prefix(t, lens[|path| - 1]), t[len], t)
  {
    PathEndsAt(g, n, s, t, path, lens, len, e);
    GapOf(n, s, t[..len], t);
    CutAtGap(g, n, s, t[..len], t[len], t);
  }

  // Without a bitmap on the path, all leaves are below where the descent ended.
  lemma {:induction false} WholeTrie(g: Geometry, n: Nodes, s: Shape, order: seq<Loc>, first: Option<Loc>, t: Path,
                                     path: seq<PathEntry>, lens: seq<nat>, last: nat, left: bool)
    requires Findable(g, n, s) && ListOk(n, order, first) && PathOk(g, n, s, t, path, lens, last)
    requires forall j :: 0 <= j < |path| - 1 ==> !path[j].node.body.Bitmap?
    requires AllOnSide(n, s, Prefix(t, last), t, left)
    ensures AllLeaves(n, order) && IsRank(n, order, t, if left then |order| else 0)
  {
    forall l: Path | IsLeaf(n, s, l)
      ensures Prefix(t, last) <= l
    {
      OnlyWay(g, n, s, t, path, lens, last, 0, l);
    }
    AllOrNone(n, s, order, first, t, left);
  }

  // The lowest bitmap of the path above its last node (or that node itself), or -1.
  ghost predicate LowestBitmap(path: seq<PathEntry>, i: int) {
    && |path| > 0 && -1 <= i < |path| && (0 <= i ==> path[i].node.body.Bitmap?)
    && (forall j :: i < j < |path| - 1 ==> !path[j].node.body.Bitmap?)
  }

  lemma {:induction false} PathNotEmpty(g: Geometry, n: Nodes, s: Shape, t: Path, path: seq<PathEntry>,
                                        lens: seq<nat>, last: nat)
    requires PathOk(g, n, s, t, path, lens, last)
    ensures |path| > 0 && |lens| == |path|
  {
  }
}
