// The finger: a position in the trie that descends along the symbols of a key and
// remembers the nodes it passed.
module Fingers {
  import opened Keys
  import opened Hashing
  import opened Store
  import opened Structure
  import opened Order
  import opened Table

  // An entry as the finger last saw it, with the hash of its prefix.
  datatype PathEntry = PathEntry(loc: Loc, node: Node, prefixHash: nat)

  ghost predicate EntryOk(g: Geometry, n: Nodes, s: Shape, e: PathEntry, p: Path) {
    Has(n, s, p) && e == PathEntry(s.at[p], n[s.at[p]], HashOf(g, p))
  }

  ghost function Prefix(t: Path, len: nat): Path {
    if len <= |t| then t[..len] else t
  }

  // The recorded path leads from the root to the node at t[..last], child by child.
  ghost predicate PathOk(g: Geometry, n: Nodes, s: Shape, t: Path, path: seq<PathEntry>, lens: seq<nat>, last: nat) {
    && |path| == |lens| > 0 && lens[0] == 0 && lens[|lens| - 1] == last
    && (forall i :: 0 <= i < |lens| ==> lens[i] <= |t| && EntryOk(g, n, s, path[i], Prefix(t, lens[i])))
    && (forall i {:trigger StepOk(n, s, t, lens, i)} :: 0 < i < |lens| ==> StepOk(n, s, t, lens, i))
  }

  // All steps from the entry at j down to that at top go through jumps and last children.
  ghost predicate ClimbsTo(path: seq<PathEntry>, j: nat, top: nat) {
    j < top < |path| && forall i {:trigger path[i]} :: j <= i < top ==> FromLast(path[i].node, path[i + 1].node)
  }

  ghost predicate FromLast(parent: Node, child: Node) {
    parent.body.Bitmap? ==> parent.body.maxChild <= child.lastSymbol
  }

  // The same path, but for the max_leaf fields.
  ghost predicate SamePath(path: seq<PathEntry>, path': seq<PathEntry>) {
    |path'| == |path| && forall i {:trigger path'[i]} :: 0 <= i < |path| ==>
      path'[i].loc == path[i].loc && SameHeader(path[i].node, path'[i].node)
      && SameBranches(path[i].node.body, path'[i].node.body)
  }

  // Only entries of the path from which it goes through jumps and last children differ, and
  // none of those below `pos`.
  ghost predicate ChangedAbove(n: Nodes, n': Nodes, path: seq<PathEntry>, pos: nat) {
    forall l :: l in n && !(l in n' && n'[l] == n[l]) ==>
      exists j :: pos <= j < |path| - 1 && ClimbsTo(path, j, |path| - 1) && path[j].loc == l
  }

  // The entry above position pos, which leads to it as its last child, was written.
  ghost predicate WroteParent(n: Nodes, n': Nodes, path: seq<PathEntry>, pos: nat) {
    0 < pos < |path| && FromLast(path[pos - 1].node, path[pos].node)
    && path[pos - 1].loc in n' && n' == n[path[pos - 1].loc := n'[path[pos - 1].loc]]
  }

  lemma {:induction false} SamePathSelf(path: seq<PathEntry>)
    ensures SamePath(path, path)
  {
  }

  lemma {:induction false} SameAfter(path: seq<PathEntry>, now: seq<PathEntry>, later: seq<PathEntry>)
    requires SamePath(path, now) && SamePath(now, later)
    ensures SamePath(path, later)
  {
    forall i | 0 <= i < |path|
      ensures later[i].loc == path[i].loc && SameHeader(path[i].node, later[i].node)
              && SameBranches(path[i].node.body, later[i].node.body)
    {
      assert now[i].loc == path[i].loc;
    }
  }

  lemma {:induction false} NoneChanged(n: Nodes, path: seq<PathEntry>)
    requires |path| > 0
    ensures ChangedAbove(n, n, path, |path| - 1) && SamePath(path, path)
  {
  }

  lemma {:induction false} FewerChanged(n: Nodes, n': Nodes, path: seq<PathEntry>, pos: nat)
    requires ChangedAbove(n, n', path, pos)
    ensures ChangedAbove(n, n', path, 0)
  {
  }

  lemma {:induction false} OneMoreChanged(n: Nodes, n1: Nodes, n2: Nodes, path: seq<PathEntry>, now: seq<PathEntry>,
                                          pos: nat)
    requires ChangedAbove(n, n1, path, pos) && SamePath(path, now) && 0 < pos < |path|
    requires pos < |path| - 1 ==> ClimbsTo(path, pos, |path| - 1)
    requires WroteParent(n1, n2, now, pos)
    ensures ChangedAbove(n, n2, path, pos - 1) && ClimbsTo(path, pos - 1, |path| - 1)
  {
    assert now[pos].loc == path[pos].loc;
    forall i | pos - 1 <= i < |path| - 1
      ensures FromLast(path[i].node, path[i + 1].node)
    {
      assert path[i] == path[i];
    }
    forall l | l in n && !(l in n2 && n2[l] == n[l])
      ensures exists j :: pos - 1 <= j < |path| - 1 && ClimbsTo(path, j, |path| - 1) && path[j].loc == l
    {
      if l == now[pos - 1].loc {
        assert path[pos - 1].loc == l;
      }
    }
  }

  ghost predicate StepOk(n: Nodes, s: Shape, t: Path, lens: seq<nat>, i: int)
    requires 0 < i < |lens|
  {
    && lens[i - 1] < lens[i]
    && Prefix(t, lens[i]) in s.up && s.up[Prefix(t, lens[i])] == Prefix(t, lens[i - 1])
    && ChildVia(n, s, Prefix(t, lens[i - 1]), Prefix(t, lens[i]))
  }

  // The finger stands after `len` symbols of t, of which the last `depth` are inside
  // the jump node it is in.
  ghost predicate StandsAt(g: Geometry, n: Nodes, s: Shape, t: Path, len: nat, depth: nat, e: PathEntry) {
    && len <= |t| && depth <= len
    && EntryOk(g, n, s, e, t[..len - depth])
    && (depth > 0 ==> e.node.body.Jump? && depth < |e.node.body.symbols|
                      && t[len - depth..len] == e.node.body.symbols[..depth])
  }

  lemma {:induction false} PathGrows(g: Geometry, n: Nodes, s: Shape, t: Path, path: seq<PathEntry>, lens: seq<nat>,
                                     last: nat, e: PathEntry, len: nat)
    requires PathOk(g, n, s, t, path, lens, last) && last < len <= |t|
    requires EntryOk(g, n, s, e, t[..len]) && t[..len] in s.up && s.up[t[..len]] == t[..last]
    requires ChildVia(n, s, t[..last], t[..len])
    ensures PathOk(g, n, s, t, path + [e], lens + [len], len)
  {
    var lens' := lens + [len];
    forall i | 0 < i < |lens'|
      ensures StepOk(n, s, t, lens', i)
    {
      if i < |lens| {
        assert StepOk(n, s, t, lens, i);
      }
    }
  }

  lemma {:induction false} Mismatch(n: Nodes, s: Shape, t: Path, from: nat, depth: nat)
    requires from + depth < |t| && Has(n, s, t[..from]) && BodyAt(n, s, t[..from]).Jump?
    requires depth < |BodyAt(n, s, t[..from]).symbols| && BodyAt(n, s, t[..from]).symbols[depth] != t[from + depth]
    ensures Stuck(n, s, t[..from], t)
  {
    var q, symbols := t[..from], BodyAt(n, s, t[..from]).symbols;
    assert (q + symbols)[from + depth] == symbols[depth];
  }

  // What the next symbol of a jump node decides.
  lemma {:induction false} StepInJump(g: Geometry, n: Nodes, s: Shape, t: Path, len: nat, depth: nat, e: PathEntry)
    requires Subtree(g, n, s, []) && StandsAt(g, n, s, t, len, depth, e) && len < |t| && e.node.body.Jump?
    ensures depth < |e.node.body.symbols|
    ensures e.node.body.symbols[depth] != t[len] ==> Stuck(n, s, t[..len - depth], t)
    ensures e.node.body.symbols[depth] == t[len] && depth + 1 < |e.node.body.symbols| ==>
              StandsAt(g, n, s, t, len + 1, depth + 1, e)
    ensures e.node.body.symbols[depth] == t[len] && depth + 1 == |e.node.body.symbols| ==>
              t[..len + 1] == t[..len - depth] + e.node.body.symbols
  {
    var from := len - depth;
    assert NodeOk(n, s, t[..from]);
    if e.node.body.symbols[depth] != t[len] {
      Mismatch(n, s, t, from, depth);
    } else {
      MatchInJump(t, from, len, e.node.body.symbols, depth);
    }
  }

  lemma {:induction false} MatchInJump(t: Path, from: nat, len: nat, symbols: Path, depth: nat)
    requires from + depth == len < |t| && depth < |symbols| && symbols[depth] == t[len]
    requires depth > 0 ==> t[from..len] == symbols[..depth]
    ensures t[from..len + 1] == symbols[..depth + 1]
    ensures depth + 1 == |symbols| ==> t[..len + 1] == t[..from] + symbols
  {
    assert t[from..len + 1] == t[from..len] + [t[len]];
    assert symbols[..depth + 1] == symbols[..depth] + [t[len]];
    assert t[..len + 1] == t[..from] + t[from..len + 1];
    assert symbols[..|symbols|] == symbols;
  }

  lemma {:induction false} EndInside(t: Path, symbols: Path, depth: nat)
    requires 0 < depth <= |t| && depth <= |symbols| && t[|t| - depth..|t|] == symbols[..depth]
    ensures t[|t| - 1] in symbols
  {
    assert t[|t| - depth..|t|][depth - 1] == symbols[depth - 1];
  }

  lemma {:induction false} WholeKey(g: Geometry, n: Nodes, s: Shape, key: Key, depth: nat, e: PathEntry)
    requires Tree(g, n, s) && StandsAt(g, n, s, Symbols(key), |Symbols(key)|, depth, e)
    ensures depth == 0 && e.node.body.Leaf? && e.node.body.kv.key == key
    ensures Stuck(n, s, Symbols(key)[..|Symbols(key)| - depth], Symbols(key))
  {
    var t := Symbols(key);
    var p := t[..|t| - depth];
    assert NodeOk(n, s, p);
    EndIsLast(key, |t| - 1);
    if depth > 0 {
      EndInside(t, e.node.body.symbols, depth);
      assert false;
    }
    assert p == t && t[|t| - 1] in t;
    EncodingPrefixFree(key, e.node.body.kv.key);
  }

  // ------------------------------------------------------------------
  // Ascending the path
  // ------------------------------------------------------------------

  // The greatest child of a bitmap that is smaller than `symbol`.
  method BitmapChildBefore(children: set<Symbol>, symbol: nat) returns (found: bool, y: Symbol)
    ensures found ==> y in children && y < symbol && forall z :: z in children && z < symbol ==> z <= y
    ensures !found ==> NoneBelow(children, symbol)
  {
    var x: int := if symbol <= FANOUT + 1 then symbol - 1 else FANOUT;
    found, y := false, SYMBOL_END;
    while 0 <= x
      invariant -1 <= x <= FANOUT && x < symbol && forall z :: z in children && z < symbol ==> z <= x
    {
      if x in children {
        return true, x;
      }
      x := x - 1;
    }
  }

  lemma {:induction false} NothingFurther(n: Nodes, s: Shape, q: Path, x: nat)
    ensures NoLeftTurn(n, s, q, x, |q| + 1)
  {
  }

  lemma {:induction false} NoTurnHere(g: Geometry, n: Nodes, s: Shape, t: Path, path: seq<PathEntry>, lens: seq<nat>,
                                      last: nat, pos: nat, q: Path, x: nat)
    requires PathOk(g, n, s, t, path, lens, last) && pos < |lens| && Prefix(t, lens[pos]) <= q
    requires NoLeftTurn(n, s, q, x, lens[pos] + 1) && path[pos].node.body.Bitmap?
    requires NoneBelow(path[pos].node.body.children, Bound(Prefix(t, lens[pos]), q, x))
    ensures NoLeftTurn(n, s, q, x, lens[pos])
  {
    forall r | r <= q && lens[pos] <= |r| && Has(n, s, r) && BodyAt(n, s, r).Bitmap?
      ensures NoneBelow(BodyAt(n, s, r).children, Bound(r, q, x))
    {
      if |r| == lens[pos] {
        assert r == q[..|r|] == Prefix(t, lens[pos]);
      }
    }
  }

  // No node of the trie lies between two consecutive nodes of the path.
  lemma {:induction false} UpOne(g: Geometry, n: Nodes, s: Shape, t: Path, path: seq<PathEntry>, lens: seq<nat>,
                                 last: nat, i: nat, q: Path, x: nat)
    requires Tree(g, n, s) && PathOk(g, n, s, t, path, lens, last) && i + 1 < |lens| && Prefix(t, lens[i + 1]) <= q
    requires NoLeftTurn(n, s, q, x, lens[i + 1])
    ensures NoLeftTurn(n, s, q, x, lens[i] + 1)
  {
    forall r | r <= q && lens[i] + 1 <= |r| && Has(n, s, r) && BodyAt(n, s, r).Bitmap?
      ensures NoneBelow(BodyAt(n, s, r).children, Bound(r, q, x))
    {
      if |r| < lens[i + 1] {
        NothingBetween(g, n, s, t, lens, i, q, r);
      }
    }
  }

  lemma {:induction false} NothingBetween(g: Geometry, n: Nodes, s: Shape, t: Path, lens: seq<nat>, i: nat, q: Path,
                                          r: Path)
    requires Tree(g, n, s) && i + 1 < |lens| && StepOk(n, s, t, lens, i + 1) && lens[i + 1] <= |t|
    requires Prefix(t, lens[i + 1]) <= q && r <= q && r in s.at && lens[i] < |r|
    ensures lens[i + 1] <= |r|
  {
    var a, c := Prefix(t, lens[i]), Prefix(t, lens[i + 1]);
    if |r| < |c| {
      Comparable(a, r, q);
      Comparable(r, c, q);
      var d := Toward(g, n, s, [], a, r);
      SameWay(n, s, a, d, c, c, c);
    }
  }

  lemma {:induction false} SamePrefix(t: Path, a: nat, b: nat, q: Path, r: Path)
    requires a <= b <= |t| && t[..b] <= q && r <= q && |r| == a
    ensures r == t[..a]
  {
    assert r == q[..a] == t[..b][..a];
  }

  lemma {:induction false} SkipJump(g: Geometry, n: Nodes, s: Shape, t: Path, path: seq<PathEntry>, lens: seq<nat>,
                                    last: nat, i: nat, q: Path, x: nat)
    requires Tree(g, n, s) && PathOk(g, n, s, t, path, lens, last) && i + 1 < |lens| && Prefix(t, lens[i + 1]) <= q
    requires NoLeftTurn(n, s, q, x, lens[i + 1]) && !path[i].node.body.Bitmap?
    ensures NoLeftTurn(n, s, q, x, lens[i]) && Prefix(t, lens[i]) <= q
  {
    UpOne(g, n, s, t, path, lens, last, i, q, x);
    assert StepOk(n, s, t, lens, i + 1);
    forall r | r <= q && lens[i] <= |r| && Has(n, s, r) && BodyAt(n, s, r).Bitmap?
      ensures NoneBelow(BodyAt(n, s, r).children, Bound(r, q, x))
    {
      if |r| == lens[i] {
        SamePrefix(t, lens[i], lens[i + 1], q, r);
      }
    }
  }

  // The child that the path takes at a bitmap carries the symbol in its header.
  lemma {:induction false} BacktrackSymbol(g: Geometry, n: Nodes, s: Shape, t: Path, path: seq<PathEntry>,
                                           lens: seq<nat>, last: nat, i: nat, q: Path)
    requires Tree(g, n, s) && PathOk(g, n, s, t, path, lens, last) && i + 1 < |lens| && path[i].node.body.Bitmap?
    requires Prefix(t, lens[i + 1]) <= q
    ensures lens[i + 1] == lens[i] + 1 && lens[i] < |t| && path[i + 1].node.lastSymbol == t[lens[i]]
    ensures t[lens[i]] in path[i].node.body.children
    ensures Prefix(t, lens[i]) <= q && lens[i] < |q| && q[lens[i]] == t[lens[i]]
  {
    assert StepOk(n, s, t, lens, i + 1);
    var p := Prefix(t, lens[i]);
    assert Prefix(t, lens[i + 1]) == p + [t[lens[i]]];
    ChildOfBitmap(g, n, s, p, t[lens[i]]);
    assert q[lens[i]] == Prefix(t, lens[i + 1])[lens[i]];
  }

  class Finger {
    const g: Geometry
    const savePath: bool
    ghost const t: Path
    var prefixHash: nat
    var lastPrefixSymbol: Symbol
    var prefixLen: nat
    var depthInJump: nat
    var containing: PathEntry
    var path: seq<PathEntry>
    // How many symbols lead to each node of the path.
    ghost var lens: seq<nat>

    ghost predicate Ok(n: Nodes, s: Shape)
      reads this
    {
      && StandsAt(g, n, s, t, prefixLen, depthInJump, containing)
      && prefixHash == HashOf(g, t[..prefixLen])
      && (prefixLen > 0 ==> lastPrefixSymbol == t[prefixLen - 1])
      && (savePath ==> PathOk(g, n, s, t, path, lens, prefixLen - depthInJump))
    }

    // The prefix of the node that contains the finger.
    ghost function NodePath(): Path
      reads this
    {
      Prefix(t, if depthInJump <= prefixLen then prefixLen - depthInJump else 0)
    }

    // There is no way on for the finger.
    ghost predicate Blocked(n: Nodes, s: Shape)
      reads this
    {
      && Stuck(n, s, NodePath(), t)
      && (containing.node.body.Jump? ==>
            depthInJump < |containing.node.body.symbols| && prefixLen < |t|
            && containing.node.body.symbols[depthInJump] != t[prefixLen])
    }

    // At most one node was appended to the path.
    ghost predicate PathGrew(path0: seq<PathEntry>, lens0: seq<nat>)
      reads this
    {
      path0 <= path && lens0 <= lens && |path| <= |path0| + 1 && |lens| - |lens0| == |path| - |path0|
    }

    // A finger at the root.
    constructor (table: CuckooTable, savePath: bool, ghost t: Path, ghost s: Shape)
      requires table.Valid() && Tree(table.g, table.Contents(), s)
      ensures Ok(table.Contents(), s) && prefixLen == 0 && depthInJump == 0 && |path| == 1
      ensures this.g == table.g && this.t == t && this.savePath == savePath
    {
      var root := table.FindRoot();
      var e := PathEntry(RootLoc, root, HASH_START_VALUE);
      this.g, this.savePath, this.t := table.g, savePath, t;
      prefixHash, lastPrefixSymbol, prefixLen, depthInJump := HASH_START_VALUE, SYMBOL_END, 0, 0;
      containing, path, lens := e, [e], [0];
      assert t[..0] == [];
    }

    // The finger can descend along the next symbol of t.
    ghost predicate CanTry(table: CuckooTable, n: Nodes, s: Shape, symbol: Symbol, expectedHash: nat)
      reads this, table, table.cells, table.seqs
    {
      && table.Valid() && table.g == g && table.Contents() == n && Findable(g, n, s) && Ok(n, s)
      && prefixLen < |t| && symbol == t[prefixLen] && expectedHash == HashOf(g, t[..prefixLen + 1])
    }

    // Descends one symbol, if the trie has a way on.
    method TryDescend(table: CuckooTable, symbol: Symbol, expectedHash: nat, ghost n: Nodes, ghost s: Shape)
        returns (success: bool)
      requires CanTry(table, n, s, symbol, expectedHash)
      modifies this
      ensures Ok(n, s)
      ensures success ==> prefixLen == old(prefixLen) + 1
      ensures PathGrew(old(path), old(lens))
      ensures !success ==> prefixLen == old(prefixLen) && Blocked(n, s)
    {
      if containing.node.body.Leaf? {
        success := false;
      } else if containing.node.body.Jump? {
        success := DescendJump(table, symbol, expectedHash, n, s);
      } else {
        success := DescendBitmap(table, symbol, expectedHash, n, s);
      }
    }

    method DescendJump(table: CuckooTable, symbol: Symbol, expectedHash: nat, ghost n: Nodes, ghost s: Shape)
        returns (success: bool)
      requires CanTry(table, n, s, symbol, expectedHash) && containing.node.body.Jump?
      modifies this
      ensures Ok(n, s)
      ensures success ==> prefixLen == old(prefixLen) + 1
      ensures PathGrew(old(path), old(lens))
      ensures !success ==> prefixLen == old(prefixLen) && Blocked(n, s)
    {
      var symbols := containing.node.body.symbols;
      StepInJump(g, n, s, t, prefixLen, depthInJump, containing);
      if symbols[depthInJump] != symbol {
        return false;
      }
      if depthInJump + 1 < |symbols| {
        AdvanceInJump(symbol, expectedHash, n, s);
      } else {
        // All symbols of the jump match: on to its child
        MoveToJumpChild(table, symbol, expectedHash, n, s);
      }
      return true;
    }

    method AdvanceInJump(symbol: Symbol, expectedHash: nat, ghost n: Nodes, ghost s: Shape)
      requires Ok(n, s) && prefixLen < |t| && symbol == t[prefixLen] && expectedHash == HashOf(g, t[..prefixLen + 1])
      requires StandsAt(g, n, s, t, prefixLen + 1, depthInJump + 1, containing)
      modifies `prefixHash, `lastPrefixSymbol, `prefixLen, `depthInJump
      ensures Ok(n, s) && prefixLen == old(prefixLen) + 1 && PathGrew(old(path), old(lens))
    {
      prefixHash, lastPrefixSymbol, prefixLen := expectedHash, symbol, prefixLen + 1;
      depthInJump := depthInJump + 1;
    }

    method MoveToJumpChild(table: CuckooTable, symbol: Symbol, expectedHash: nat, ghost n: Nodes, ghost s: Shape)
      requires CanTry(table, n, s, symbol, expectedHash) && containing.node.body.Jump?
      requires t[..prefixLen + 1] == t[..prefixLen - depthInJump] + containing.node.body.symbols
      modifies this
      ensures Ok(n, s) && prefixLen == old(prefixLen) + 1 && PathGrew(old(path), old(lens))
    {
      hide Subtree, PathOk, Placed, JumpsHide;
      ghost var from := prefixLen - depthInJump;
      var e := FindJumpChild(table, expectedHash, t[..from], n, s);
      prefixHash, lastPrefixSymbol, prefixLen := expectedHash, symbol, prefixLen + 1;
      MoveTo(e, from, n, s);
    }

    method FindJumpChild(table: CuckooTable, hash: nat, ghost p: Path, ghost n: Nodes, ghost s: Shape)
        returns (e: PathEntry)
      requires table.Valid() && table.g == g && table.Contents() == n && Findable(g, n, s)
      requires EntryOk(g, n, s, containing, p) && containing.node.body.Jump?
      requires hash == HashOf(g, p + containing.node.body.symbols)
      ensures var q := p + containing.node.body.symbols;
              EntryOk(g, n, s, e, q) && ChildVia(n, s, p, q) && q in s.up && s.up[q] == p
    {
      ChildOfJump(g, n, s, p);
      var loc := Loc(hash, containing.node.body.childColor);
      var node := table.Find(loc);
      e := PathEntry(loc, node, hash);
    }

    method DescendBitmap(table: CuckooTable, symbol: Symbol, expectedHash: nat, ghost n: Nodes, ghost s: Shape)
        returns (success: bool)
      requires CanTry(table, n, s, symbol, expectedHash) && containing.node.body.Bitmap?
      modifies this
      ensures Ok(n, s)
      ensures success ==> prefixLen == old(prefixLen) + 1
      ensures PathGrew(old(path), old(lens))
      ensures !success ==> prefixLen == old(prefixLen) && Blocked(n, s)
    {
      hide HashOf;
      if symbol !in containing.node.body.children {
        return false;
      }
      ghost var from := prefixLen;
      assert t[..from + 1] == t[..from] + [symbol];
      ChildOfBitmap(g, n, s, t[..from], symbol);
      assert NamedOk(g, n, s, t[..from]);
      var loc, node := table.FindChild(expectedHash, symbol, containing.loc.color);
      ChildByParentIsUnique(g, n, s, t[..from], symbol, loc);
      prefixHash, lastPrefixSymbol, prefixLen := expectedHash, symbol, prefixLen + 1;
      MoveTo(PathEntry(loc, node, prefixHash), from, n, s);
      return true;
    }

    // Puts the finger on another node, at its first symbol.
    method MoveTo(e: PathEntry, ghost from: nat, ghost n: Nodes, ghost s: Shape)
      requires prefixLen <= |t| && from < prefixLen
      requires EntryOk(g, n, s, e, t[..prefixLen]) && ChildVia(n, s, t[..from], t[..prefixLen])
      requires t[..prefixLen] in s.up && s.up[t[..prefixLen]] == t[..from]
      requires prefixHash == HashOf(g, t[..prefixLen]) && lastPrefixSymbol == t[prefixLen - 1]
      requires savePath ==> PathOk(g, n, s, t, path, lens, from)
      modifies `depthInJump, `containing, `path, `lens
      ensures Ok(n, s) && depthInJump == 0 && PathGrew(old(path), old(lens))
    {
      if savePath {
        PathGrows(g, n, s, t, path, lens, from, e, prefixLen);
        path, lens := path + [e], lens + [prefixLen];
      }
      containing, depthInJump := e, 0;
    }

    // Descends along the symbols of the key as far as the trie goes. Returns the first
    // symbol that failed, or -1 if all of them, with END, were descended.
    method Descend(table: CuckooTable, key: Key, ghost n: Nodes, ghost s: Shape) returns (symbol: int)
      requires table.Valid() && table.g == g && table.Contents() == n && Findable(g, n, s) && Ok(n, s)
      requires t == Symbols(key) && prefixLen == 0
      modifies this
      ensures Ok(n, s) && Blocked(n, s)
      ensures symbol == -1 ==> containing.node.body.Leaf? && containing.node.body.kv.key == key
      ensures symbol != -1 ==> prefixLen < |t| && symbol == t[prefixLen]
    {
      var prefetcher := new KeyPrefetcher.Start(g, key);
      symbol := DescendAll(table, prefetcher, key, n, s);
    }

    method DescendAll(table: CuckooTable, prefetcher: KeyPrefetcher, key: Key, ghost n: Nodes, ghost s: Shape)
        returns (symbol: int)
      requires table.Valid() && table.g == g && table.Contents() == n && Findable(g, n, s) && Ok(n, s)
      requires t == Symbols(key) && prefixLen < |t| && Ahead(prefetcher, key) && prefetcher.prefixHashes != table.seqs
      modifies this, prefetcher, prefetcher.prefixHashes
      ensures Ok(n, s) && Blocked(n, s)
      ensures symbol == -1 ==> containing.node.body.Leaf? && containing.node.body.kv.key == key
      ensures symbol != -1 ==> prefixLen < |t| && symbol == t[prefixLen]
    {
      hide Subtree, PathOk, Placed, JumpsHide, StandsAt, Stuck;
      while true
        invariant Ok(n, s) && prefixLen < |t| && table.Valid() && table.Contents() == n && Ahead(prefetcher, key)
        decreases |t| - prefixLen
      {
        var success;
        success, symbol := DescendOne(table, prefetcher, key, n, s);
        if !success {
          return;
        }
        EndIsLast(key, prefixLen - 1);
        if symbol == SYMBOL_END {
          // Nothing follows the end marker: this is the key's leaf
          AtEnd(key, n, s);
          return -1;
        }
      }
    }

    lemma {:induction false} AtEnd(key: Key, n: Nodes, s: Shape)
      requires Tree(g, n, s) && Ok(n, s) && t == Symbols(key) && prefixLen == |t|
      ensures containing.node.body.Leaf? && containing.node.body.kv.key == key && Blocked(n, s)
    {
      WholeKey(g, n, s, key, depthInJump, containing);
    }

    // The prefetcher has computed the hashes of four more prefixes, or of all.
    ghost predicate Ahead(prefetcher: KeyPrefetcher, key: Key)
      reads this, prefetcher, prefetcher.keySymbols, prefetcher.prefixHashes
    {
      && prefetcher.Valid() && prefetcher.g == g && prefetcher.key == key
      && prefetcher.prefetchPos == if prefixLen + 4 < |t| then prefixLen + 4 else |t|
    }

    // The prefetcher runs ahead; the hash that is needed now was computed earlier.
    method DescendOne(table: CuckooTable, prefetcher: KeyPrefetcher, key: Key, ghost n: Nodes, ghost s: Shape)
        returns (success: bool, symbol: Symbol)
      requires table.Valid() && table.g == g && table.Contents() == n && Findable(g, n, s) && Ok(n, s)
      requires t == Symbols(key) && prefixLen < |t| && Ahead(prefetcher, key) && prefetcher.prefixHashes != table.seqs
      modifies this, prefetcher, prefetcher.prefixHashes
      ensures Ok(n, s) && old(prefixLen) < |t| && symbol == t[old(prefixLen)]
      ensures success ==> prefixLen == old(prefixLen) + 1 && Ahead(prefetcher, key)
      ensures PathGrew(old(path), old(lens))
      ensures !success ==> prefixLen == old(prefixLen) && Blocked(n, s)
    {
      hide Subtree, PathOk, Placed, JumpsHide, Symbols, Sound, NoGarbage;
      prefetcher.Step();
      symbol := prefetcher.keySymbols[prefixLen];
      var hash := prefetcher.prefixHashes[prefixLen];
      success := TryDescend(table, symbol, hash, n, s);
    }

    // ----------------------------------------------------------------
    // The way to the predecessor
    // ----------------------------------------------------------------

    // Ascends from child `symbol` of the bitmap at path[start], to the first bitmap
    // with a child to the left of the path. `y` is the greatest such child.
    method FindLeftDescend(start: nat, symbol: nat, ghost n: Nodes, ghost s: Shape)
        returns (found: bool, pos: nat, y: Symbol)
      requires Tree(g, n, s) && Ok(n, s) && savePath && start < |path| && path[start].node.body.Bitmap?
      ensures found ==>
                pos < |path| && pos < |lens| && LeftTurn(n, s, Prefix(t, lens[start]), symbol, Prefix(t, lens[pos]), y)
      ensures !found ==> start < |lens| && NoLeftTurn(n, s, Prefix(t, lens[start]), symbol, 0)
    {
      hide Tree, Subtree, NodeOk;
      ghost var q, last := Prefix(t, lens[start]), prefixLen - depthInJump;
      var backtrack := symbol;
      pos := start;
      NothingFurther(n, s, q, symbol);
      while true
        invariant pos <= start && path[pos].node.body.Bitmap?
        invariant Prefix(t, lens[pos]) <= q && backtrack == Bound(Prefix(t, lens[pos]), q, symbol)
        invariant NoLeftTurn(n, s, q, symbol, lens[pos] + 1)
        decreases pos
      {
        found, y := BitmapChildBefore(path[pos].node.body.children, backtrack);
        if found {
          return;
        }
        // No smaller child here, so look further up
        NoTurnHere(g, n, s, t, path, lens, last, pos, q, symbol);
        var up := BitmapAbove(pos, q, symbol, n, s);
        if up < 0 {
          return;
        }
        BacktrackSymbol(g, n, s, t, path, lens, last, up, q);
        backtrack := path[up + 1].node.lastSymbol;
        pos := up;
      }
    }

    // The position of the lowest bitmap of the path above `pos`, or -1.
    method BitmapAbove(pos: nat, ghost q: Path, ghost x: nat, ghost n: Nodes, ghost s: Shape) returns (up: int)
      requires Tree(g, n, s) && Ok(n, s) && savePath && pos < |path| && pos < |lens|
      requires Prefix(t, lens[pos]) <= q && NoLeftTurn(n, s, q, x, lens[pos])
      ensures -1 <= up < pos && (0 <= up ==> path[up].node.body.Bitmap? && Prefix(t, lens[up + 1]) <= q)
      ensures if up < 0 then NoLeftTurn(n, s, q, x, 0) else NoLeftTurn(n, s, q, x, lens[up] + 1)
    {
      hide Subtree, JumpsHide, NoLeftTurn;
      ghost var last := prefixLen - depthInJump;
      up := pos - 1;
      while 0 <= up && !path[up].node.body.Bitmap?
        invariant -1 <= up < pos && Prefix(t, lens[up + 1]) <= q && NoLeftTurn(n, s, q, x, lens[up + 1])
      {
        SkipJump(g, n, s, t, path, lens, last, up, q, x);
        up := up - 1;
      }
      if 0 <= up {
        UpOne(g, n, s, t, path, lens, last, up, q, x);
      }
    }

    // The greatest leaf to the left of child `symbol` of the bitmap at path[start], if
    // there is one. That child need not exist.
    method FindPredecessor(table: CuckooTable, start: nat, symbol: nat, ghost n: Nodes, ghost s: Shape)
        returns (pred: Option<Loc>, ghost m: Path)
      requires table.Valid() && table.g == g && table.Contents() == n && Findable(g, n, s) && MaxAll(n, s)
      requires Ok(n, s) && savePath && start < |path| && path[start].node.body.Bitmap?
      ensures start < |lens|
      ensures pred.Some? ==> GreatestBefore(n, s, Prefix(t, lens[start]), symbol, m) && pred == Some(s.at[m])
      ensures pred.None? ==> forall l: Path :: IsLeaf(n, s, l) ==> !Before(Prefix(t, lens[start]), symbol, l)
    {
      hide Subtree, Placed, JumpsHide;
      m := [];
      ghost var q := Prefix(t, lens[start]);
      var found, pos, y := FindLeftDescend(start, symbol, n, s);
      if !found {
        NoPredecessor(g, n, s, q, symbol);
        return None, m;
      }
      m := PredecessorIsRightmost(g, n, s, q, symbol, Prefix(t, lens[pos]), y);
      pred := SubtreeMaxLeaf(table, path[pos], y, Prefix(t, lens[pos]), n, s);
    }

    // The last leaf below child y of the bitmap e.
    method SubtreeMaxLeaf(table: CuckooTable, e: PathEntry, y: Symbol, ghost r: Path, ghost n: Nodes, ghost s: Shape)
        returns (leaf: Option<Loc>)
      requires table.Valid() && table.g == g && table.Contents() == n && Findable(g, n, s)
      requires EntryOk(g, n, s, e, r) && e.node.body.Bitmap? && y in e.node.body.children
      ensures Has(n, s, r + [y]) && leaf == Some(MaxLeafOf(s.at[r + [y]], n[s.at[r + [y]]]))
    {
      ChildOfBitmap(g, n, s, r, y);
      assert NamedOk(g, n, s, r);
      HashFromSnoc(g, HASH_START_VALUE, r, y);
      var loc, node := table.FindChild(AccumulateHash(g, e.prefixHash, y), y, e.loc.color);
      ChildByParentIsUnique(g, n, s, r, y, loc);
      leaf := Some(MaxLeafOf(loc, node));
    }
  }
}
