// Lemmas about the places where a key is inserted: the finger's path when nodes
// change, and what holds before and after each kind of insertion.
module Places {
  import opened Keys
  import opened Hashing
  import opened Store
  import opened Structure
  import opened Order
  import opened Fingers
  import opened Steps
  import opened Splitting
  import opened JumpSplit

  // ------------------------------------------------------------------
  // The recorded path when nodes change
  // ------------------------------------------------------------------

  lemma {:induction false} LensGrow(n: Nodes, s: Shape, t: Path, lens: seq<nat>, i: nat, j: nat)
    requires i < j < |lens| && forall x {:trigger StepOk(n, s, t, lens, x)} :: 0 < x < |lens| ==>
               StepOk(n, s, t, lens, x)
    ensures lens[i] < lens[j]
  {
    assert StepOk(n, s, t, lens, j);
    if i < j - 1 {
      LensGrow(n, s, t, lens, i, j - 1);
    }
  }

  // Changing a node of the path, in the table and in the path, keeps the path right.
  lemma {:induction false} PathEdit(g: Geometry, n: Nodes, s: Shape, t: Path, path: seq<PathEntry>, lens: seq<nat>,
                                    last: nat, i: nat, node: Node)
    requires Tree(g, n, s) && PathOk(g, n, s, t, path, lens, last) && i < |path|
    requires SameBranches(path[i].node.body, node.body)
    ensures PathOk(g, n[path[i].loc := node], s, t, path[i := path[i].(node := node)], lens, last)
  {
    var n', path' := n[path[i].loc := node], path[i := path[i].(node := node)];
    forall j | 0 <= j < |lens|
      ensures EntryOk(g, n', s, path'[j], Prefix(t, lens[j]))
    {
      if j != i {
        LensGrow(n, s, t, lens, if i < j then i else j, if i < j then j else i);
        assert Prefix(t, lens[i]) != Prefix(t, lens[j]);
        assert s.of[path[i].loc] == Prefix(t, lens[i]);
      }
    }
    forall j | 0 < j < |lens|
      ensures StepOk(n', s, t, lens, j)
    {
      assert StepOk(n, s, t, lens, j);
      assert s.of[path[i].loc] == Prefix(t, lens[i]);
    }
  }

  // The path only depends on the nodes on it.
  lemma {:induction false} PathFrame(g: Geometry, n: Nodes, s: Shape, t: Path, path: seq<PathEntry>, lens: seq<nat>,
                                     last: nat, n': Nodes)
    requires PathOk(g, n, s, t, path, lens, last)
    requires forall i :: 0 <= i < |path| && path[i].loc in n ==> path[i].loc in n' && n'[path[i].loc] == n[path[i].loc]
    ensures PathOk(g, n', s, t, path, lens, last)
  {
    forall i | 0 <= i < |lens|
      ensures EntryOk(g, n', s, path[i], Prefix(t, lens[i]))
    {
      assert EntryOk(g, n, s, path[i], Prefix(t, lens[i]));
    }
    forall i | 0 < i < |lens|
      ensures StepOk(n', s, t, lens, i)
    {
      assert StepOk(n, s, t, lens, i);
      assert EntryOk(g, n', s, path[i - 1], Prefix(t, lens[i - 1])) && EntryOk(g, n', s, path[i], Prefix(t, lens[i]));
    }
  }

  lemma {:induction false} PathEndsAt(g: Geometry, n: Nodes, s: Shape, t: Path, path: seq<PathEntry>, lens: seq<nat>,
                                      len: nat, e: PathEntry)
    requires PathOk(g, n, s, t, path, lens, len) && len <= |t| && EntryOk(g, n, s, e, t[..len])
    ensures |path| > 0 && path[|path| - 1] == e && |lens| == |path|
    ensures |path| == 1 ==> len == 0 && t[..len] == []
  {
    assert EntryOk(g, n, s, path[|path| - 1], Prefix(t, lens[|path| - 1]));
  }

  lemma {:induction false} PathEnd(g: Geometry, n: Nodes, s: Shape, t: Path, path: seq<PathEntry>, lens: seq<nat>,
                                   len: nat, e: PathEntry)
    requires PathOk(g, n, s, t, path, lens, len) && len <= |t| && EntryOk(g, n, s, e, t[..len])
    ensures |path| > 0 && path[|path| - 1] == e
  {
    PathEndsAt(g, n, s, t, path, lens, len, e);
  }

  // Only the last node of a path can be a leaf.
  lemma {:induction false} PathUnderEdit(g: Geometry, n: Nodes, s: Shape, t: Path, path: seq<PathEntry>,
                                         lens: seq<nat>, last: nat, pred: Option<Loc>, n': Nodes)
    requires PathOk(g, n, s, t, path, lens, last) && PredEdited(n, pred, n')
    requires pred.Some? ==> pred.value != path[|path| - 1].loc
    ensures PathOk(g, n', s, t, path, lens, last)
  {
    forall i | 0 <= i < |path| && path[i].loc in n
      ensures path[i].loc in n' && n'[path[i].loc] == n[path[i].loc]
    {
      if i < |path| - 1 {
        assert StepOk(n, s, t, lens, i + 1);
      }
    }
    PathFrame(g, n, s, t, path, lens, last, n');
  }

  // Marking a new child of the bitmap at the end of the path.
  lemma {:induction false} PathMarked(g: Geometry, n: Nodes, s: Shape, t: Path, path: seq<PathEntry>, lens: seq<nat>,
                                      last: nat, q: Path, x: Symbol, l: Loc, node: Node)
    requires Tree(g, n, s) && PathOk(g, n, s, t, path, lens, last) && last <= |t| && q == t[..last] && l !in s.of
    requires q + [x] !in s.at && Marked(path[|path| - 1].node, node, x)
    ensures PathOk(g, n[s.at[q] := node], WithChild(s, q, x, l), t,
                   path[|path| - 1 := path[|path| - 1].(node := node)], lens, last)
  {
    var n', s', e := n[s.at[q] := node], WithChild(s, q, x, l), |path| - 1;
    var path' := path[e := path[e].(node := node)];
    forall j | 0 <= j < |lens|
      ensures EntryOk(g, n', s', path'[j], Prefix(t, lens[j]))
    {
      if j != e {
        LensGrow(n, s, t, lens, j, e);
        assert Prefix(t, lens[j]) != q;
        assert s.of[path[e].loc] == q;
      }
    }
    forall j | 0 < j < |lens|
      ensures StepOk(n', s', t, lens, j)
    {
      assert StepOk(n, s, t, lens, j);
      LensGrow(n, s, t, lens, j - 1, e);
      assert Prefix(t, lens[j - 1]) != q;
      assert s.of[path[e].loc] == q;
    }
  }

  // Replacing the node at the end of the path by the root of another subtree.
  lemma {:induction false} PathGrafted(g: Geometry, n: Nodes, s: Shape, t: Path, path: seq<PathEntry>, lens: seq<nat>,
                                       p: Path, n': Nodes, u: Shape)
    requires |p| <= |t| && p == t[..|p|] && PathOk(g, n, s, t, path, lens, |p|) && CanGraft(g, n, s, [], p, n', u)
    ensures PathOk(g, n', Grafted(s, p, u), t, path[|path| - 1 := path[|path| - 1].(node := n'[s.at[p]])], lens, |p|)
  {
    assert EntryOk(g, n, s, path[|path| - 1], p) && s.at[p] in n';
    hide EntryOk, StepOk, CanGraft, Grafted;
    forall j | 0 <= j < |lens|
      ensures EntryOk(g, n', Grafted(s, p, u), path[|path| - 1 := path[|path| - 1].(node := n'[s.at[p]])][j],
                      Prefix(t, lens[j]))
    {
      GraftedEntry(g, n, s, t, path, lens, p, n', u, j);
    }
    forall j | 0 < j < |lens|
      ensures StepOk(n', Grafted(s, p, u), t, lens, j)
    {
      GraftedStep(g, n, s, t, path, lens, p, n', u, j);
    }
  }

  lemma {:induction false} GraftedEntry(g: Geometry, n: Nodes, s: Shape, t: Path, path: seq<PathEntry>, lens: seq<nat>,
                                        p: Path, n': Nodes, u: Shape, j: nat)
    requires |p| <= |t| && p == t[..|p|] && PathOk(g, n, s, t, path, lens, |p|) && CanGraft(g, n, s, [], p, n', u)
    requires j < |lens|
    ensures var e := |path| - 1;
            EntryOk(g, n', Grafted(s, p, u), path[e := path[e].(node := n'[s.at[p]])][j], Prefix(t, lens[j]))
    ensures Has(n', Grafted(s, p, u), Prefix(t, lens[j]))
  {
    if j != |path| - 1 {
      PathAbove(g, n, s, t, path, lens, p, n', u, j);
    }
  }

  lemma {:induction false} GraftedStep(g: Geometry, n: Nodes, s: Shape, t: Path, path: seq<PathEntry>, lens: seq<nat>,
                                       p: Path, n': Nodes, u: Shape, j: nat)
    requires |p| <= |t| && p == t[..|p|] && PathOk(g, n, s, t, path, lens, |p|) && CanGraft(g, n, s, [], p, n', u)
    requires 0 < j < |lens|
    ensures StepOk(n', Grafted(s, p, u), t, lens, j)
  {
    hide CanGraft, Grafted, ChildVia, PathOk, EntryOk;
    PathStep(g, n, s, t, path, lens, |p|, j);
    if j == |path| - 1 {
      GraftUp(s, p, u, p);
    } else {
      PathAbove(g, n, s, t, path, lens, p, n', u, j);
    }
    PathAbove(g, n, s, t, path, lens, p, n', u, j - 1);
    GraftedEntry(g, n, s, t, path, lens, p, n', u, j);
    ViaKept(g, n, s, n', Grafted(s, p, u), path[j - 1], Prefix(t, lens[j - 1]), Prefix(t, lens[j]));
  }

  lemma {:induction false} PathStep(g: Geometry, n: Nodes, s: Shape, t: Path, path: seq<PathEntry>, lens: seq<nat>,
                                    last: nat, j: nat)
    requires PathOk(g, n, s, t, path, lens, last) && 0 < j < |lens|
    ensures |path| == |lens| && lens[|lens| - 1] == last && StepOk(n, s, t, lens, j)
    ensures EntryOk(g, n, s, path[j - 1], Prefix(t, lens[j - 1]))
  {
  }

  // The same node still leads to the same place.
  lemma {:induction false} ViaKept(g: Geometry, n: Nodes, s: Shape, n': Nodes, s': Shape, e: PathEntry, d: Path,
                                   q: Path)
    requires EntryOk(g, n, s, e, d) && EntryOk(g, n', s', e, d) && ChildVia(n, s, d, q) && Has(n', s', q)
    ensures ChildVia(n', s', d, q)
  {
  }

  lemma {:induction false} PathAbove(g: Geometry, n: Nodes, s: Shape, t: Path, path: seq<PathEntry>, lens: seq<nat>,
                                     p: Path, n': Nodes, u: Shape, j: nat)
    requires |p| <= |t| && p == t[..|p|] && PathOk(g, n, s, t, path, lens, |p|) && j < |path| - 1
    requires CanGraft(g, n, s, [], p, n', u)
    ensures var d := Prefix(t, lens[j]);
            && EntryOk(g, n', Grafted(s, p, u), path[j], d)
            && (d in s.up ==> d in Grafted(s, p, u).up && Grafted(s, p, u).up[d] == s.up[d])
  {
    LensGrow(n, s, t, lens, j, |path| - 1);
    var d := Prefix(t, lens[j]);
    assert |d| < |p| && !(p <= d);
    assert EntryOk(g, n, s, path[j], d);
    KeptOutside(g, n, s, [], p, n', u, d);
    assert s.of[s.at[d]] == d;
  }

  // The path of jump nodes and the two leaves are in the table, and the path leads to
  // the leaf at p, which the head is to replace.
  ghost predicate CanReplace(g: Geometry, m: Nodes, s: Shape, t: Path, path: seq<PathEntry>, lens: seq<nat>, p: Path,
                             locs: seq<Loc>, cs: seq<Path>, x: Symbol, y: Symbol, a: Loc, b: Loc, head: Node)
  {
    && CanSplit(g, m, s, p, locs, cs, x, y, a, b, head)
    && |p| <= |t| && p == t[..|p|] && PathOk(g, m, s, t, path, lens, |p|)
  }

  lemma {:induction false} ReplaceEdited(g: Geometry, m: Nodes, s: Shape, t: Path, path: seq<PathEntry>,
                                         lens: seq<nat>, p: Path, locs: seq<Loc>, cs: seq<Path>, x: Symbol, y: Symbol,
                                         a: Loc, b: Loc, head: Node,
                                         pred: Option<Loc>, m': Nodes)
    requires CanReplace(g, m, s, t, path, lens, p, locs, cs, x, y, a, b, head) && PredEdited(m, pred, m')
    requires pred.Some? ==> pred.value in s.of && pred.value != s.at[p]
    ensures CanReplace(g, m', s, t, path, lens, p, locs, cs, x, y, a, b, head)
  {
    hide PredEdited, Chain, MaxOk;
    assert s.of[s.at[p]] == p && |path| > 0 && EntryOk(g, m, s, path[|path| - 1], Prefix(t, lens[|path| - 1]));
    hide Subtree, MaxAll, JumpsHide, Chain, PathOk;
    PredEditKeeps(g, m, s, pred, m', []);
    PathUnderEdit(g, m, s, t, path, lens, |p|, pred, m');
    assert locs == [locs[0]] + locs[1..];
    NewEntriesStay(m, s.of.Keys, locs, a, b, head, pred, m');
    ChainFrame(g, m[locs[0] := head], locs, cs, x, y, a, b, m'[locs[0] := head]);
  }

  lemma {:induction false} NewEntriesStay(m: Nodes, old': set<Loc>, locs: seq<Loc>, a: Loc, b: Loc, head: Node,
                                          pred: Option<Loc>, m': Nodes)
    requires |locs| > 0 && locs == [locs[0]] + locs[1..] && (Listed(locs[1..]) + {a, b}) !! old'
             && PredEdited(m, pred, m')
    requires pred.Some? ==> pred.value in old' && pred.value != locs[0]
    ensures var n, n' := m[locs[0] := head], m'[locs[0] := head];
            forall l :: l in n && (l in locs || l == a || l == b) ==> l in n' && n'[l] == n[l]
  {
    forall l | l in locs || l == a || l == b
      ensures pred != Some(l)
    {
      assert l in locs && l != locs[0] ==> l in Listed(locs[1..]);
    }
  }

  lemma {:induction false} LeafReplaced(g: Geometry, m: Nodes, s: Shape, t: Path, path: seq<PathEntry>,
                                        lens: seq<nat>, p: Path, locs: seq<Loc>, cs: seq<Path>, x: Symbol, y: Symbol,
                                        a: Loc, b: Loc, head: Node)
      returns (s': Shape)
    requires CanReplace(g, m, s, t, path, lens, p, locs, cs, x, y, a, b, head)
    ensures |path| > 0 && path[|path| - 1].loc in m && Has(m, s, p) && path[|path| - 1].loc == s.at[p]
            && !head.body.Leaf?
    ensures var n' := m[s.at[p] := head];
            && Findable(g, n', s') && MaxBut(n', s', p) && LeafBodies(n') == LeafBodies(m) - {s.at[p]}
            && PathOk(g, n', s', t, path[|path| - 1 := path[|path| - 1].(node := head)], lens, |p|)
    ensures |cs| > 0 && s'.at.Keys == s.at.Keys + SplitNodes(cs, x, y)
  {
    var u := SplitGraft(g, m, s, p, locs, cs, x, y, a, b, head);
    PathGrafted(g, m, s, t, path, lens, p, m[s.at[p] := head], u);
    s' := Grafted(s, p, u);
    assert EntryOk(g, m, s, path[|path| - 1], Prefix(t, lens[|path| - 1]));
  }

  // What was added leaves the trie and the path as they were.
  lemma {:induction false} ReadyToReplace(g: Geometry, n: Nodes, s: Shape, t: Path, path: seq<PathEntry>,
                                          lens: seq<nat>, p: Path, written: seq<Loc>, cs: seq<Path>, x: Symbol,
                                          y: Symbol, a: Loc, b: Loc, head: Node, m: Nodes)
    requires Findable(g, n, s) && MaxAll(n, s) && IsLeaf(n, s, p) && |p| <= |t| && p == t[..|p|]
    requires PathOk(g, n, s, t, path, lens, |p|) && Extends(n, Listed(written) + {a, b}, m)
    requires Chain(g, m[s.at[p] := head], [s.at[p]] + written, cs, x, y, a, b) && cs[0] == p
    requires head.parentColor == n[s.at[p]].parentColor && head.lastSymbol == n[s.at[p]].lastSymbol
    ensures CanReplace(g, m, s, t, path, lens, p, [s.at[p]] + written, cs, x, y, a, b, head)
  {
    StoreOutside(g, n, s, m);
    PathFrame(g, n, s, t, path, lens, |p|, m);
    assert ([s.at[p]] + written)[1..] == written;
  }

  // ------------------------------------------------------------------
  // The place where a jump node is to be split
  // ------------------------------------------------------------------

  lemma {:induction false} JumpPlace(g: Geometry, n: Nodes, s: Shape, t: Path, len: nat, depth: nat, e: PathEntry)
    requires Findable(g, n, s) && MaxAll(n, s) && StandsAt(g, n, s, t, len, depth, e) && e.node.body.Jump?
    requires depth < |e.node.body.symbols|
    ensures var p := t[..len - depth];
            && SplitAt(n, s, p, depth) && ForkPath(n, s, p, depth) == t[..len] && e.loc == s.at[p]
               && e.node == n[s.at[p]]
            && HasTail(n, s, p, depth) == (depth + 1 < |e.node.body.symbols|)
            && OldSymbols(n, s, p, depth) == e.node.body.symbols
    ensures AccumulateHash(g, HashOf(g, t[..len]), e.node.body.symbols[depth]) ==
            HashOf(g, t[..len] + [e.node.body.symbols[depth]]) < g.NumPairs()
    ensures HashOf(g, t[..len]) < g.NumPairs() && RootLoc in n && (depth == 0 ==> e.loc.hash == HashOf(g, t[..len]))
  {
    var p := t[..len - depth];
    assert NamedOk(g, n, s, p);
    assert t[..len] == p + t[len - depth..len];
    assert depth == 0 ==> e.node.body.symbols[..depth] == [];
    ChildHash(g, t[..len], e.node.body.symbols[depth]);
    HashInRange(g, HASH_START_VALUE, t[..len]);
  }

  // The old jump's child, when no tail remains.
  lemma {:induction false} ChildPlace(g: Geometry, n: Nodes, s: Shape, p: Path, d: nat)
    requires Findable(g, n, s) && MaxAll(n, s) && SplitAt(n, s, p, d) && !HasTail(n, s, p, d)
    ensures var x := BodyAt(n, s, p).symbols[d]; var e := EndPath(n, s, p, d);
            && e == ForkPath(n, s, p, d) + [x] && Has(n, s, e)
            && s.at[e] == Loc(HashOf(g, e), BodyAt(n, s, p).childColor) && s.at[e] != s.at[p]
  {
    OldEnd(g, n, s, p, d);
    SplitPaths(p, BodyAt(n, s, p).symbols, d);
    assert NamedOk(g, n, s, EndPath(n, s, p, d));
    assert s.of[s.at[EndPath(n, s, p, d)]] != s.of[s.at[p]];
  }

  ghost function BodyNode(n: Nodes, s: Shape, p: Path): Node
    requires Has(n, s, p)
  {
    n[s.at[p]]
  }

  // The old jump's child may take the colour of the new bitmap, which is not in the tree
  // as yet.
  lemma {:induction false} RecolorPlace(g: Geometry, n: Nodes, s: Shape, p: Path, d: nat, b: Loc, m: Nodes)
    requires Findable(g, n, s) && MaxAll(n, s) && SplitAt(n, s, p, d) && Has(n, s, EndPath(n, s, p, d))
    requires !HasTail(n, s, p, d) && b.hash == HashOf(g, ForkPath(n, s, p, d))
    requires if d == 0 then m == n && b == s.at[p] else b !in n && m == n[b := NewBitmap(n[s.at[p]], d)]
    ensures var l := s.at[EndPath(n, s, p, d)];
            l in m && m[l] == n[l] && HoldsPaths(g, m[l := n[l].(parentColor := b.color)], LeafPaths(n, s))
  {
    hide Subtree, UniqueChildren, LeafPaths, MaxAll;
    RecolorBase(g, n, s, p, d, b, m);
    ChildStranger(g, n, s, p, d, b, m);
    PathsAfterRecolor(g, n, s, p, d, m, b.color);
  }

  lemma {:induction false} RecolorBase(g: Geometry, n: Nodes, s: Shape, p: Path, d: nat, b: Loc, m: Nodes)
    requires Findable(g, n, s) && MaxAll(n, s) && SplitAt(n, s, p, d)
    requires if d == 0 then m == n && b == s.at[p] else b !in n && m == n[b := NewBitmap(n[s.at[p]], d)]
    ensures Sound(g, m, s) && MaxAll(m, s) && UniqueChildren(g, m, s) && LeafPaths(m, s) == LeafPaths(n, s)
  {
    TrieHasUnique(g, n, s);
    if d > 0 {
      ForkIsStranger(g, n, s, b.hash, n[s.at[p]], d);
      PathsAfterAdd(g, n, s, b, m[b]);
      StoreOutside(g, n, s, m);
    }
  }

  lemma {:induction false} ChildStranger(g: Geometry, n: Nodes, s: Shape, p: Path, d: nat, b: Loc, m: Nodes)
    requires Findable(g, n, s) && MaxAll(n, s) && SplitAt(n, s, p, d) && Has(n, s, EndPath(n, s, p, d))
    requires !HasTail(n, s, p, d) && b.hash == HashOf(g, ForkPath(n, s, p, d))
    requires if d == 0 then m == n && b == s.at[p] else b !in n && m == n[b := NewBitmap(n[s.at[p]], d)]
    ensures var l := s.at[EndPath(n, s, p, d)];
            l in m && m[l] == n[l] && Stranger(g, m, s, l.hash, m[l].(parentColor := b.color))
  {
    hide Subtree, MaxAll, Stranger;
    ChildPlace(g, n, s, p, d);
    OldEnd(g, n, s, p, d);
    SplitPaths(p, BodyAt(n, s, p).symbols, d);
    var l := s.at[EndPath(n, s, p, d)];
    var node := n[l].(parentColor := b.color);
    TailIsStranger(g, n, s, b, ForkPath(n, s, p, d), node);
    SameStrangers(g, n, s, b, m, l.hash, node);
  }

  lemma {:induction false} SameStrangers(g: Geometry, n: Nodes, s: Shape, b: Loc, m: Nodes, hash: nat, node: Node)
    requires Tree(g, n, s) && Stranger(g, n, s, hash, node)
    requires m == n || (b !in n && b in m && m == n[b := m[b]])
    ensures Stranger(g, m, s, hash, node)
  {
    forall p | IsBitmap(m, s, p)
      ensures IsBitmap(n, s, p)
    {
    }
  }

  // The invariant after a split.
  lemma {:induction false} SplitDone(g: Geometry, n: Nodes, s: Shape, order: seq<Loc>, first: Option<Loc>, dict: Dict,
                                     p: Path, d: nat, b: Loc, tail: Loc, m: Nodes)
    requires Good(g, n, s, order, first, dict) && SplitStored(g, n, s, p, d, b, tail, m)
    ensures var s' := Grafted(s, p, SplitShape(n, s, p, d, b, tail));
            && Good(g, m, s', order, first, dict) && HoldsPaths(g, m, LeafPaths(n, s))
  {
    hide Subtree, MaxAll, JumpsHide, BitmapStored, TailStored, LeafPaths;
    SplitKeepsTrie(g, n, s, p, d, b, tail, m);
    SplitKeepsLeaves(g, n, s, p, d, b, tail, m);
    SplitKeepsPaths(g, n, s, p, d, b, tail, m);
    TrieHasUnique(g, m, Grafted(s, p, SplitShape(n, s, p, d, b, tail)));
    SameLeaves(n, m, order, first, dict);
  }

  // The bitmap was stored before the head.
  lemma {:induction false} ForkStored(g: Geometry, n: Nodes, s: Shape, p: Path, d: nat, b: Loc, tail: Loc, m2: Nodes,
                                      head: Node)
    requires SplitAt(n, s, p, d) && SplitStored(g, n, s, p, d, b, tail, m2[s.at[p] := head])
    requires s.at[p] in n && (forall l :: l in n ==> l in m2)
    ensures d > 0 ==>
              && b != s.at[p] && b in m2 && m2[b] == NewBitmap(n[s.at[p]], d)
              && b.hash == HashOf(g, ForkPath(n, s, p, d))
    ensures d == 0 ==> b == s.at[p]
    ensures b in m2[s.at[p] := head]
  {
  }

  // Where the finger is once the jump node has been split.
  lemma {:induction false} PathToFork(g: Geometry, n: Nodes, s: Shape, t: Path, path: seq<PathEntry>, lens: seq<nat>,
                                      len: nat, d: nat, b: Loc, tail: Loc, m: Nodes)
    requires Findable(g, n, s) && MaxAll(n, s) && len <= |t| && d <= len && SplitAt(n, s, t[..len - d], d)
    requires ForkPath(n, s, t[..len - d], d) == t[..len] && SplitStored(g, n, s, t[..len - d], d, b, tail, m)
    requires PathOk(g, n, s, t, path, lens, len - d) && b.hash == HashOf(g, t[..len]) && b in m
    ensures var p := t[..len - d];
            var s' := Grafted(s, p, SplitShape(n, s, p, d, b, tail));
            var path' := path[|path| - 1 := path[|path| - 1].(node := m[s.at[p]])];
            var e := PathEntry(b, m[b], HashOf(g, t[..len]));
            && EntryOk(g, m, s', e, t[..len])
            && (if d == 0 then PathOk(g, m, s', t, path', lens, len) && path'[|path'| - 1] == e
                else PathOk(g, m, s', t, path' + [e], lens + [len], len))
  {
    hide Subtree, MaxAll, JumpsHide, SplitStored;
    var p := t[..len - d];
    var u := SplitShape(n, s, p, d, b, tail);
    SplitGrafts(g, n, s, p, d, b, tail, m);
    ForkIsThere(g, n, s, p, d, b, tail, m);
    PathGrafted(g, n, s, t, path, lens, p, m, u);
    var path' := path[|path| - 1 := path[|path| - 1].(node := m[s.at[p]])];
    if d == 0 {
      assert p == t[..len];
      assert EntryOk(g, m, Grafted(s, p, u), path'[|path'| - 1], p);
    } else {
      PathGrows(g, m, Grafted(s, p, u), t, path', lens, len - d, PathEntry(b, m[b], HashOf(g, t[..len])), len);
    }
  }

  // ------------------------------------------------------------------
  // The place of a leaf that is to be split
  // ------------------------------------------------------------------

  // The parent of a leaf is a bitmap.
  lemma {:induction false} LeafParent(g: Geometry, n: Nodes, s: Shape, t: Path, path: seq<PathEntry>, lens: seq<nat>,
                                      last: nat)
    requires Tree(g, n, s) && PathOk(g, n, s, t, path, lens, last) && |path| >= 2 && path[|path| - 1].node.body.Leaf?
    ensures var i := |path| - 2;
            && path[i].node.body.Bitmap? && 0 < last <= |t| && lens[i] == last - 1
            && t[..last - 1] + [t[last - 1]] == t[..last] && path[i + 1].node.lastSymbol == t[last - 1]
  {
    hide Prefix, Symbols, BitmapChildOk;
    var i := |path| - 2;
    assert StepOk(n, s, t, lens, i + 1);
    assert NodeOk(n, s, Prefix(t, lens[i]));
    assert path[i].node.body.Bitmap?;
    BacktrackSymbol(g, n, s, t, path, lens, last, i, Prefix(t, last));
  }

  lemma {:induction false} CutBeforeLeaf(g: Geometry, n: Nodes, s: Shape, q: Path, x: Symbol)
    requires Tree(g, n, s) && q in s.at && BodyAt(n, s, q).Bitmap? && IsLeaf(n, s, q + [x])
    ensures Cut(n, s, q, x, KeyOf(n, s.at[q + [x]]))
  {
    var p := q + [x];
    var t := KeyOf(n, s.at[p]);
    assert NodeOk(n, s, p);
    OnlyLeafBelow(g, n, s, p);
    SymLessIrreflexive(t);
    forall l: Path | IsLeaf(n, s, l) && q + [x] <= l
      ensures SymLess(KeyOf(n, s.at[l]), t) <==> false
    {
      assert s.of[s.at[l]] == l;
    }
    CutAround(g, n, s, q, x, t, false);
  }

  lemma {:induction false} LeafPosition(g: Geometry, n: Nodes, s: Shape, t: Path, path: seq<PathEntry>,
                                        lens: seq<nat>, last: nat)
    requires Tree(g, n, s) && PathOk(g, n, s, t, path, lens, last) && |path| >= 2 && path[|path| - 1].node.body.Leaf?
    ensures |lens| == |path|
    ensures var i := |path| - 2;
            && path[i].node.body.Bitmap? && 0 < last <= |t|
            && Cut(n, s, Prefix(t, lens[i]), t[last - 1], KeyOf(n, path[i + 1].loc))
  {
    LeafParent(g, n, s, t, path, lens, last);
    assert EntryOk(g, n, s, path[|path| - 2], Prefix(t, lens[|path| - 2]));
    assert EntryOk(g, n, s, path[|path| - 1], Prefix(t, lens[|path| - 1]));
    CutBeforeLeaf(g, n, s, t[..last - 1], t[last - 1]);
  }

  lemma {:induction false} OwnRank(n: Nodes, order: seq<Loc>, first: Option<Loc>, j: nat)
    requires ListOk(n, order, first) && j < |order|
    ensures IsRank(n, order, KeyOf(n, order[j]), j)
  {
    forall i | 0 <= i < |order|
      ensures SymLess(KeyOf(n, order[i]), KeyOf(n, order[j])) <==> i < j
    {
      SymLessIrreflexive(KeyOf(n, order[i]));
      if i < j {
        assert KeyLess(n, order[i], order[j]);
      } else if j < i {
        assert KeyLess(n, order[j], order[i]);
        if SymLess(KeyOf(n, order[i]), KeyOf(n, order[j])) {
          SymLessTransitive(KeyOf(n, order[i]), KeyOf(n, order[j]), KeyOf(n, order[i]));
        }
      }
    }
  }

  lemma {:induction false} RankIsUnique(n: Nodes, order: seq<Loc>, t: Path, j: nat, k: nat)
    requires forall i :: 0 <= i < |order| ==> LeafAt(n, order[i])
    requires IsRank(n, order, t, j) && IsRank(n, order, t, k)
    ensures j == k
  {
    assert j < |order| ==> (SymLess(KeyOf(n, order[j]), t) <==> j < k);
    assert k < |order| ==> (SymLess(KeyOf(n, order[k]), t) <==> k < j);
  }

  // A key below the prefix of a leaf is next to that leaf in the order.
  lemma {:induction false} SplitRank(g: Geometry, n: Nodes, s: Shape, order: seq<Loc>, first: Option<Loc>, p: Path,
                                     k: nat, key: Key)
    requires Findable(g, n, s) && ListOk(n, order, first) && IsLeaf(n, s, p) && k < |order| && order[k] == s.at[p]
    requires p <= Symbols(key)
    ensures IsRank(n, order, Symbols(key), if SymLess(KeyOf(n, order[k]), Symbols(key)) then k + 1 else k)
  {
    OwnRank(n, order, first, k);
    forall i | 0 <= i < |order| && i != k
      ensures SymLess(KeyOf(n, order[i]), Symbols(key)) <==> i < k
    {
      hide Subtree, JumpsHide;
      SplitRankAt(g, n, s, order, first, p, k, key, i);
    }
  }

  lemma {:induction false} SplitRankAt(g: Geometry, n: Nodes, s: Shape, order: seq<Loc>, first: Option<Loc>, p: Path,
                                       k: nat, key: Key, i: nat)
    requires Findable(g, n, s) && ListOk(n, order, first) && IsLeaf(n, s, p) && k < |order| && order[k] == s.at[p]
    requires p <= Symbols(key) && i < |order| && i != k
    ensures SymLess(KeyOf(n, order[i]), Symbols(key)) <==> SymLess(KeyOf(n, order[i]), KeyOf(n, order[k]))
  {
    hide Symbols;
    Distinct(n, order, first, i, k);
    assert LeafAt(n, order[i]);
    hide ListOk;
    SameSide(g, n, s, p, s.of[order[i]], key);
  }

  lemma {:induction false} SameSide(g: Geometry, n: Nodes, s: Shape, p: Path, l: Path, key: Key)
    requires Tree(g, n, s) && IsLeaf(n, s, p) && IsLeaf(n, s, l) && l != p && p <= Symbols(key)
    ensures SymLess(KeyOf(n, s.at[l]), Symbols(key)) <==> SymLess(KeyOf(n, s.at[l]), KeyOf(n, s.at[p]))
  {
    assert NodeOk(n, s, p) && NodeOk(n, s, l);
    if l <= p {
      LeafHasNoChild(g, n, s, [], l, p);
    }
    if p <= l {
      LeafHasNoChild(g, n, s, [], p, l);
    }
    var i := Part(l, p);
    PartExtends(l, p, KeyOf(n, s.at[l]), Symbols(key), i);
    PartExtends(l, p, KeyOf(n, s.at[l]), KeyOf(n, s.at[p]), i);
    PartDecides(KeyOf(n, s.at[l]), Symbols(key), i);
    PartDecides(KeyOf(n, s.at[l]), KeyOf(n, s.at[p]), i);
  }

  // A leaf at the root is the only leaf.
  lemma {:induction false} RootLeafIsFirst(g: Geometry, n: Nodes, s: Shape, order: seq<Loc>, first: Option<Loc>)
    requires Findable(g, n, s) && ListOk(n, order, first) && IsLeaf(n, s, [])
    ensures |order| > 0 && order[0] == RootLoc
  {
    assert LeafAt(n, RootLoc);
    assert |order| > 0 && LeafAt(n, order[0]);
    LeafHasNoChild(g, n, s, [], [], s.of[order[0]]);
  }

  // ------------------------------------------------------------------
  // The place of a new key
  // ------------------------------------------------------------------

  lemma {:induction false} NotUnder(g: Geometry, n: Nodes, s: Shape, q: Path, x: Symbol, l: Path)
    requires Tree(g, n, s) && q in s.at && BodyAt(n, s, q).Bitmap? && x !in BodyAt(n, s, q).children
    requires q + [x] <= l
    ensures l !in s.at
  {
    assert q <= q + [x] <= l && l[|q|] == (q + [x])[|q|];
    if l in s.at {
      var c := Toward(g, n, s, [], q, l);
    }
  }

  lemma {:induction false} NoneUnder(g: Geometry, n: Nodes, s: Shape, q: Path, x: Symbol)
    requires Tree(g, n, s) && q in s.at && BodyAt(n, s, q).Bitmap? && x !in BodyAt(n, s, q).children
    ensures forall l: Path :: q + [x] <= l ==> l !in s.at
  {
    forall l: Path | q + [x] <= l
      ensures l !in s.at
    {
      NotUnder(g, n, s, q, x, l);
    }
  }

  // What FindPredecessor finds, in terms of the list.
  lemma {:induction false} PredIs(g: Geometry, n: Nodes, s: Shape, order: seq<Loc>, first: Option<Loc>, q: Path,
                                  x: nat, t: Path, pred: Option<Loc>, m: Path) returns (k: nat)
    requires Findable(g, n, s) && ListOk(n, order, first) && Cut(n, s, q, x, t)
    requires pred.Some? ==> GreatestBefore(n, s, q, x, m) && pred == Some(s.at[m])
    requires pred.None? ==> forall l: Path :: IsLeaf(n, s, l) ==> !Before(q, x, l)
    ensures IsRank(n, order, t, k) && pred == PredAt(order, k)
    ensures pred.Some? ==> LeafAt(n, pred.value)
  {
    k := Rank(n, order, first, t);
    if pred.Some? {
      GreatestIsAtRank(g, n, s, order, first, q, x, t, k, m);
    } else {
      NoneIsRankZero(g, n, s, order, first, q, x, t, k);
    }
  }

  // A key that is not below the bitmap's children has its place between them.
  lemma {:induction false} CutAtGap(g: Geometry, n: Nodes, s: Shape, q: Path, x: Symbol, t: Path)
    requires Tree(g, n, s) && q in s.at && BodyAt(n, s, q).Bitmap? && x !in BodyAt(n, s, q).children && q + [x] <= t
    ensures Cut(n, s, q, x, t)
  {
    NoneUnder(g, n, s, q, x);
    CutAround(g, n, s, q, x, t, false);
  }

  lemma {:induction false} ChildHash(g: Geometry, q: Path, x: Symbol)
    requires g.Valid()
    ensures AccumulateHash(g, HashOf(g, q), x) == HashOf(g, q + [x]) < g.NumPairs()
  {
    HashFromSnoc(g, HASH_START_VALUE, q, x);
    HashInRange(g, HASH_START_VALUE, q + [x]);
  }

  // The new key ends below the bitmap.
  lemma {:induction false} GapOf(n: Nodes, s: Shape, q: Path, t: Path)
    requires Stuck(n, s, q, t) && BodyAt(n, s, q).Bitmap?
    ensures |q| < |t| && q + [t[|q|]] <= t && t[|q|] !in BodyAt(n, s, q).children
  {
  }

  // All that holds once a new child of a bitmap is linked in and recorded.
  lemma {:induction false} BitmapInserted(g: Geometry, n: Nodes, s: Shape, order: seq<Loc>, first: Option<Loc>,
                                          dict: Dict, k: nat, kv: KV, l: Loc, n': Nodes, s': Shape)
    requires Good(g, n, s, order, first, dict) && kv.key !in dict && !LeafAt(n, l)
    requires IsRank(n, order, Symbols(kv.key), k)
    requires Findable(g, n', s') && MaxAll(n', s')
    requires LeafBodies(n') == PredNext(LeafBodies(n)[l := Leaf(kv, NextAt(order, k), false)], PredAt(order, k), l)
    ensures Good(g, n', s', Spliced(order, k, 0, [l]), FirstAfter(first, k, l), dict[kv.key := kv.value])
  {
    LinkedBodies(n, order, first, k, l, Leaf(kv, NextAt(order, k), false), n');
    InsertLeaf(n, order, first, dict, k, l, kv, n');
  }

  // The entry at loc is a leaf for child x of the bitmap at q, not yet part of the
  // trie, and the path leads to that bitmap.
  ghost predicate Attachable(g: Geometry, n: Nodes, s: Shape, t: Path, path: seq<PathEntry>, lens: seq<nat>, q: Path,
                             x: Symbol, loc: Loc) {
    && Sound(g, n, s) && MaxAll(n, s) && n.Keys == s.of.Keys + {loc} && loc !in s.of
    && |q| <= |t| && q == t[..|q|] && PathOk(g, n, s, t, path, lens, |q|)
    && Has(n, s, q) && BodyAt(n, s, q).Bitmap? && x !in BodyAt(n, s, q).children
    && loc.hash == HashOf(g, q + [x]) && loc.color <= MAX_VALID_COLOR
    && n[loc].body.Leaf? && n[loc].lastSymbol == x && n[loc].parentColor == s.at[q].color
    && q + [x] <= Symbols(n[loc].body.kv.key)
  }

  // The new leaf, once added, is ready to be attached.
  lemma {:induction false} ReadyToAttach(g: Geometry, n: Nodes, s: Shape, t: Path, path: seq<PathEntry>,
                                         lens: seq<nat>, q: Path, x: Symbol, l: Loc, node: Node)
    requires Findable(g, n, s) && MaxAll(n, s) && l !in n
    requires |q| <= |t| && q == t[..|q|] && PathOk(g, n, s, t, path, lens, |q|)
    requires Has(n, s, q) && BodyAt(n, s, q).Bitmap? && x !in BodyAt(n, s, q).children
    requires l.hash == HashOf(g, q + [x]) && l.color <= MAX_VALID_COLOR
    requires node.body.Leaf? && node.lastSymbol == x && node.parentColor == s.at[q].color
    requires q + [x] <= Symbols(node.body.kv.key)
    ensures Attachable(g, n[l := node], s, t, path, lens, q, x, l)
    ensures LeafBodies(n[l := node]) == LeafBodies(n)[l := node.body]
  {
    StoreOutside(g, n, s, n[l := node]);
    PathFrame(g, n, s, t, path, lens, |q|, n[l := node]);
    LeavesAfterLeaf(n, l, node);
  }

  lemma {:induction false} AttachableEdited(g: Geometry, n: Nodes, s: Shape, t: Path, path: seq<PathEntry>,
                                            lens: seq<nat>, q: Path, x: Symbol, loc: Loc, pred: Option<Loc>, n': Nodes)
    requires Attachable(g, n, s, t, path, lens, q, x, loc) && PredEdited(n, pred, n')
    requires pred != Some(loc)
    ensures Attachable(g, n', s, t, path, lens, q, x, loc)
  {
    PredEditKeeps(g, n, s, pred, n', []);
    PathUnderEdit(g, n, s, t, path, lens, |q|, pred, n');
  }

  // Everything but the head of a split jump node has been stored. Once the head is,
  // the invariant holds, the paths are as before, and the finger can move to the bitmap.
  ghost predicate BeforeHead(g: Geometry, n: Nodes, s: Shape, order: seq<Loc>, first: Option<Loc>, dict: Dict, t: Path,
                             path: seq<PathEntry>, lens: seq<nat>, len: nat, d: nat, e: PathEntry, b: Loc, tail: Loc,
                                 m2: Nodes)
  {
    && d <= len <= |t| && SplitAt(n, s, t[..len - d], d) && e.node.body.Jump? && d < |e.node.body.symbols|
    && |path| > 0 && path[|path| - 1] == e && e.loc in m2 && b.hash == HashOf(g, t[..len])
    && (d == 0 ==> b == e.loc) && (d > 0 ==> b != e.loc && b in m2 && m2[b] == NewBitmap(e.node, d))
    && var s' := Grafted(s, t[..len - d], SplitShape(n, s, t[..len - d], d, b, tail));
       var head := NewHead(e.node, d, b.color);
       var m := m2[e.loc := head];
       var path' := path[|path| - 1 := e.(node := head)];
       var e' := PathEntry(b, m[b], b.hash);
       && Good(g, m, s', order, first, dict) && HoldsPaths(g, m, LeafPaths(n, s))
       && EntryOk(g, m, s', e', t[..len])
       && (if d == 0 then PathOk(g, m, s', t, path', lens, len)
           else PathOk(g, m, s', t, path' + [e'], lens + [len], len))
  }

  // The bitmap is in the table, or will take the place of the jump node.
  ghost predicate ForkPut(g: Geometry, n: Nodes, t: Path, len: nat, d: nat, e: PathEntry, b: Loc, m1: Nodes)
  {
    && len <= |t| && e.node.body.Jump?
    && if d == 0 then b == e.loc && m1 == n
       else b !in n && b.hash == HashOf(g, t[..len]) && b.color <= MAX_VALID_COLOR
            && d < |e.node.body.symbols| && m1 == n[b := NewBitmap(e.node, d)]
  }

  // The jump node for the remaining symbols is in the table, or, if there are none, the
  // old jump's child has its new parent colour.
  ghost predicate TailPut(g: Geometry, n: Nodes, s: Shape, t: Path, len: nat, d: nat, e: PathEntry, b: Loc, tail: Loc,
                          m1: Nodes, m2: Nodes)
  {
    && d <= len <= |t| && e.node.body.Jump? && d < |e.node.body.symbols| && SplitAt(n, s, t[..len - d], d)
    && if HasTail(n, s, t[..len - d], d)
       then && tail !in m1 && tail.color <= MAX_VALID_COLOR
           && tail.hash == HashOf(g, t[..len] + [e.node.body.symbols[d]])
            && d + 1 < |e.node.body.symbols| && m2 == m1[tail := NewTail(e.node, d, b.color)]
       else Has(n, s, EndPath(n, s, t[..len - d], d))
            && var l := s.at[EndPath(n, s, t[..len - d], d)]; m2 == m1[l := n[l].(parentColor := b.color)]
  }

  lemma {:induction false} HeadReady(g: Geometry, n: Nodes, s: Shape, order: seq<Loc>, first: Option<Loc>, dict: Dict,
                                     t: Path, path: seq<PathEntry>, lens: seq<nat>, len: nat, d: nat, e: PathEntry,
                                     b: Loc, tail: Loc,
                                     m1: Nodes, m2: Nodes)
    requires Good(g, n, s, order, first, dict) && StandsAt(g, n, s, t, len, d, e) && e.node.body.Jump?
    requires d < |e.node.body.symbols| && d <= len && PathOk(g, n, s, t, path, lens, len - d)
    requires SplitAt(n, s, t[..len - d], d)
    requires ForkPut(g, n, t, len, d, e, b, m1) && TailPut(g, n, s, t, len, d, e, b, tail, m1, m2)
    ensures BeforeHead(g, n, s, order, first, dict, t, path, lens, len, d, e, b, tail, m2)
  {
    hide Subtree, ListOk, DictOk, MaxAll, JumpsHide, PathOk, BitmapStored, TailStored, LeafPaths, HoldsPaths,
         SplitShape, Grafted;
    var p := t[..len - d];
    JumpPlace(g, n, s, t, len, d, e);
    AllStored(g, n, s, p, d, b, tail, m1, m2);
    var m := m2[e.loc := NewHead(e.node, d, b.color)];
    SplitDone(g, n, s, order, first, dict, p, d, b, tail, m);
    ForkStored(g, n, s, p, d, b, tail, m2, NewHead(e.node, d, b.color));
    PathToFork(g, n, s, t, path, lens, len, d, b, tail, m);
    PathEnd(g, n, s, t, path, lens, len - d, e);
  }

  lemma {:induction false} CompareDecides(a: Key, b: Key)
    ensures KeyCompare(a, b) == 0 <==> a == b
  {
    CompareAntisymmetric(a, b);
  }

  lemma {:induction false} KeyIsStored(n: Nodes, dict: Dict, l: Loc)
    requires DictOk(n, dict) && LeafAt(n, l)
    ensures n[l].body.kv.key in dict
  {
    assert Stored(n, n[l].body.kv);
  }

  // What the end of a descent says about the key.
  lemma {:induction false} WhereDescended(g: Geometry, n: Nodes, s: Shape, dict: Dict, t: Path, len: nat, depth: nat,
                                          e: PathEntry, key: Key)
    requires Findable(g, n, s) && DictOk(n, dict) && t == Symbols(key) && StandsAt(g, n, s, t, len, depth, e)
    requires Stuck(n, s, t[..len - depth], t)
    ensures len <= |t| && depth <= len && EntryOk(g, n, s, e, t[..len - depth]) && e.loc in n && e.node == n[e.loc]
    ensures !e.node.body.Jump? ==> depth == 0
    ensures e.node.body.Leaf? && e.node.body.kv.key == key ==> Holds(dict, e.node.body.kv)
    ensures key in dict ==> e.node.body.Leaf? && e.node.body.kv.key == key
    ensures e.node.body.Bitmap? ==> len < |t| && t[len] !in e.node.body.children && Stuck(n, s, t[..len], t)
    ensures e.node.body.Leaf? ==> LeafAt(n, e.loc)
  {
    LookupDecides(g, n, s, dict, t[..len - depth], key);
  }

  lemma {:induction false} BitmapIsGap(g: Geometry, n: Nodes, s: Shape, t: Path, len: nat, e: PathEntry)
    requires StandsAt(g, n, s, t, len, 0, e) && e.node.body.Bitmap? && len < |t| && t[len] !in e.node.body.children
    ensures EntryOk(g, n, s, e, t[..len]) && Stuck(n, s, t[..len], t)
  {
  }

  // The predecessor is a clean leaf of the trie, other than the one to be split.
  ghost predicate PredFits(n: Nodes, s: Shape, pred: Option<Loc>, h: Loc, a: Loc, b: Loc, m: Nodes) {
    && a !in LeafBodies(n) && b !in LeafBodies(n) && h in LeafBodies(n)
    && (pred.Some? ==>
          && LeafAt(m, pred.value) && pred.value in s.of && pred.value != h
          && pred.value in LeafBodies(n) && LeafBodies(n)[pred.value].Leaf? && !LeafBodies(n)[pred.value].dirty)
  }

  lemma {:induction false} LeafSharesPrefix(g: Geometry, n: Nodes, s: Shape, p: Path, key: Key)
    requires Tree(g, n, s) && IsLeaf(n, s, p) && p <= Symbols(key)
    ensures var t := Symbols(BodyAt(n, s, p).kv.key); |p| <= |t| && t[..|p|] == Symbols(key)[..|p|]
  {
    assert NodeOk(n, s, p);
  }

  lemma {:induction false} PredOfSplit(n: Nodes, s: Shape, order: seq<Loc>, first: Option<Loc>, k: nat, a: Loc, b: Loc,
                                       m: Nodes, pred: Option<Loc>, leaves: map<Loc, Body>)
    requires ListOk(n, order, first) && NoGarbage(n, s) && Clean(n) && k < |order| && pred == PredAt(order, k)
    requires LeafBodies(m) == leaves && LeafBodies(n).Keys <= leaves.Keys && a !in n && b !in n
    ensures PredFits(n, s, pred, order[k], a, b, m)
  {
    assert LeafAt(n, order[k]);
    if pred.Some? {
      Distinct(n, order, first, k - 1, k);
      assert LeafAt(n, order[k - 1]);
      assert pred.value in LeafBodies(m);
    }
  }

  // Marking, replacing, linking and cleaning, seen from the leaves.
  lemma {:induction false} SplitLeaves(leaves: map<Loc, Body>, pred: Option<Loc>, h: Loc, a: Loc, b: Loc, u: Body,
                                       v: Body, added: map<Loc, Body>, replaced: map<Loc, Body>)
    requires pred.Some? ==>
               pred.value in leaves && pred.value != h && leaves[pred.value].Leaf? && !leaves[pred.value].dirty
    requires a !in leaves && b !in leaves && h in leaves
    requires added == leaves[b := v][a := u] && replaced == PredDirty(added, pred, true) - {h}
    ensures pred.Some? ==> pred.value in replaced
    ensures PredDirty(PredNext(replaced, pred, a), pred, false) == PredNext((leaves - {h})[b := v][a := u], pred, a)
  {
  }

  lemma {:induction false} LeafSplitDone(g: Geometry, n: Nodes, s: Shape, order: seq<Loc>, first: Option<Loc>,
                                         dict: Dict, k: nat, p: Path, kv: KV, plan: Plan, a: Loc, b: Loc, n': Nodes,
                                         s': Shape)
    requires Good(g, n, s, order, first, dict) && kv.key !in dict && IsLeaf(n, s, p) && p <= Symbols(kv.key)
    requires k < |order| && order[k] == s.at[p] && a !in n && b !in n && a != b
    requires if SymLess(KeyOf(n, order[k]), Symbols(kv.key)) then plan.minKV == BodyAt(n, s, p).kv && plan.maxKV == kv
             else plan.minKV == kv && plan.maxKV == BodyAt(n, s, p).kv
    requires Findable(g, n', s') && MaxAll(n', s')
    requires LeafBodies(n') == PredNext((LeafBodies(n) - {order[k]})[b := Leaf(plan.maxKV, BodyAt(n, s, p).next, false)]
                                                                   [a := Leaf(plan.minKV, Some(b), false)],
                                                                       PredAt(order, k), a)
    ensures Good(g, n', s', Spliced(order, k, 1, [a, b]), FirstAfter(first, k, a), dict[kv.key := kv.value])
  {
    SplitRank(g, n, s, order, first, p, k, kv.key);
    LinkedTwoBodies(n, order, first, k, a, b, Leaf(plan.minKV, Some(b), false),
                    Leaf(plan.maxKV, BodyAt(n, s, p).next, false), n');
    SplitInTwo(n, order, first, dict, k, a, b, kv, n');
  }

  lemma {:induction false} LinkedStays(n: Nodes, n': Nodes, pred: Option<Loc>, a: Loc)
    requires pred.Some? ==> LeafAt(n, pred.value)
    requires LeafBodies(n') == PredNext(LeafBodies(n), pred, a)
    ensures pred.Some? ==> LeafAt(n', pred.value)
  {
    assert pred.Some? ==> pred.value in LeafBodies(n) && pred.value in LeafBodies(n');
  }

  lemma {:induction false} LeafRank(n: Nodes, order: seq<Loc>, first: Option<Loc>, l: Loc, k: nat)
    requires ListOk(n, order, first) && LeafAt(n, l) && IsRank(n, order, KeyOf(n, l), k)
    ensures k < |order| && order[k] == l
  {
    var j :| 0 <= j < |order| && order[j] == l;
    OwnRank(n, order, first, j);
    RankIsUnique(n, order, KeyOf(n, l), j, k);
  }

  lemma {:induction false} LastListed(written: seq<Loc>, i: nat, b: Loc)
    requires AllDistinct(written) && b !in written && i < |written|
    ensures written[i] in Listed(written[..i + 1])
    ensures Listed(written[..i + 1]) + {b} - {written[i]} == Listed(written[..i]) + {b}
  {
    assert written[..i + 1] == written[..i] + [written[i]];
  }

  lemma {:induction false} OldLeafStays(n: Nodes, l: Loc, n': Nodes, pred: Option<Loc>)
    requires l !in n && l in LeafBodies(n') && LeafBodies(n') == LeafBodies(n)[l := LeafBodies(n')[l]]
    requires Clean(n) && (pred.Some? ==> LeafAt(n, pred.value))
    ensures pred.Some? ==> LeafAt(n', pred.value) && pred.value != l && !n'[pred.value].body.dirty
  {
    assert pred.Some? ==> pred.value in LeafBodies(n) && LeafBodies(n')[pred.value] == LeafBodies(n)[pred.value];
  }

  lemma {:induction false} AttachedLeaves(n: Nodes, n2: Nodes, pred: Option<Loc>, l: Loc)
    requires pred.Some? ==> LeafAt(n, pred.value) && !n[pred.value].body.dirty
    requires LeafBodies(n2) == PredNext(PredDirty(LeafBodies(n), pred, true), pred, l)
    ensures PredDirty(LeafBodies(n2), pred, false) == PredNext(LeafBodies(n), pred, l)
  {
    assert pred.Some? ==> pred.value in LeafBodies(n);
  }

  lemma {:induction false} SameLeafAt(n: Nodes, n': Nodes, pred: Option<Loc>)
    requires LeafBodies(n') == LeafBodies(n) && (pred.Some? ==> LeafAt(n, pred.value))
    ensures pred.Some? ==> LeafAt(n', pred.value)
  {
    assert pred.Some? ==> pred.value in LeafBodies(n');
  }

  lemma {:induction false} PredEditFindable(g: Geometry, n: Nodes, s: Shape, pred: Option<Loc>, n': Nodes)
    requires Findable(g, n, s) && MaxAll(n, s) && PredEdited(n, pred, n')
    ensures Findable(g, n', s) && MaxAll(n', s)
  {
    PredEditKeeps(g, n, s, pred, n', []);
  }

  lemma {:induction false} MaxLeafKeeps(g: Geometry, n: Nodes, s: Shape, l: Loc, node: Node)
    requires Findable(g, n, s) && l in n && !n[l].body.Leaf? && SameBranches(n[l].body, node.body)
             && SameHeader(n[l], node)
    ensures Findable(g, n[l := node], s) && LeafBodies(n[l := node]) == LeafBodies(n) && n[l := node].Keys == n.Keys
  {
    var n' := n[l := node];
    LeavesAfterBranch(n, l, node);
    assert l !in LeafBodies(n);
    SubtreeFrame(g, n, s, n', []);
    assert NamedOk(g, n, s, []);
    forall p | Has(n', s, p)
      ensures JumpChildHides(n', s, p)
    {
      assert JumpChildHides(n, s, p);
    }
  }

  lemma {:induction false} IsLast(g: Geometry, n: Nodes, s: Shape, t: Path, path: seq<PathEntry>, lens: seq<nat>,
                                  last: nat, pos: nat)
    requires Tree(g, n, s) && PathOk(g, n, s, t, path, lens, last) && 0 < pos < |path|
    requires path[pos - 1].node.body.Bitmap? ==> path[pos - 1].node.body.maxChild <= path[pos].node.lastSymbol
    ensures var c := Prefix(t, lens[pos]);
            && c in s.at && c in s.up && c != [] && s.up[c] == Prefix(t, lens[pos - 1]) && IsLastChild(n, s, s.up[c], c)
  {
    assert StepOk(n, s, t, lens, pos);
    var p, c := Prefix(t, lens[pos - 1]), Prefix(t, lens[pos]);
    assert NodeOk(n, s, p);
    if path[pos - 1].node.body.Bitmap? {
      BacktrackSymbol(g, n, s, t, path, lens, last, pos - 1, c);
      assert c == p + [c[|p|]];
    }
  }

  // Copying the max_leaf of a last child one node up the path.
  lemma {:induction false} CopiedUp(g: Geometry, n: Nodes, s: Shape, t: Path, path: seq<PathEntry>, lens: seq<nat>,
                                    last: nat, pos: nat)
    requires Findable(g, n, s) && PathOk(g, n, s, t, path, lens, last) && 0 < pos < |path|
    requires MaxBut(n, s, Prefix(t, lens[pos]))
    requires path[pos - 1].node.body.Bitmap? ==> path[pos - 1].node.body.maxChild <= path[pos].node.lastSymbol
    ensures path[pos - 1].loc in n && !path[pos - 1].node.body.Leaf?
    ensures var parent := path[pos - 1];
            var node := WithMaxLeaf(parent.node, MaxLeafOf(path[pos].loc, path[pos].node));
            var n' := n[parent.loc := node];
            && Findable(g, n', s) && PathOk(g, n', s, t, path[pos - 1 := parent.(node := node)], lens, last)
            && MaxBut(n', s, Prefix(t, lens[pos - 1])) && LeafBodies(n') == LeafBodies(n) && n'.Keys == n.Keys
  {
    hide MaxBut, NoGarbage, Prefix, Subtree, NodeOk, HashOf;
    var parent, child := path[pos - 1], path[pos];
    var node := WithMaxLeaf(parent.node, MaxLeafOf(child.loc, child.node));
    IsLast(g, n, s, t, path, lens, last, pos);
    hide Subtree, LeafBodies, JumpsHide;
    PropagateUp(g, n, s, [], Prefix(t, lens[pos]));
    PathEdit(g, n, s, t, path, lens, last, pos - 1, node);
    MaxLeafKeeps(g, n, s, parent.loc, node);
  }

  lemma {:induction false} NotLast(g: Geometry, n: Nodes, s: Shape, t: Path, path: seq<PathEntry>, lens: seq<nat>,
                                   last: nat, pos: nat)
    requires Tree(g, n, s) && PathOk(g, n, s, t, path, lens, last) && 0 < pos < |path|
    requires path[pos - 1].node.body.Bitmap? && path[pos].node.lastSymbol < path[pos - 1].node.body.maxChild
    requires MaxBut(n, s, Prefix(t, lens[pos]))
    ensures MaxAll(n, s)
  {
    assert StepOk(n, s, t, lens, pos);
    BacktrackSymbol(g, n, s, t, path, lens, last, pos - 1, Prefix(t, lens[pos]));
    MaxButNotLast(g, n, s, [], Prefix(t, lens[pos]));
  }

  lemma {:induction false} ChildAttached(g: Geometry, n: Nodes, s: Shape, q: Path, x: Symbol, l: Loc, node: Node)
    requires Sound(g, n, s) && MaxAll(n, s) && n.Keys == s.of.Keys + {l} && l !in s.of
    requires Has(n, s, q) && BodyAt(n, s, q).Bitmap? && x !in BodyAt(n, s, q).children
    requires l.hash == HashOf(g, q + [x]) && l.color <= MAX_VALID_COLOR
    requires n[l].body.Leaf? && n[l].lastSymbol == x && n[l].parentColor == s.at[q].color
    requires q + [x] <= Symbols(n[l].body.kv.key)
    requires Marked(n[s.at[q]], node, x)
    requires node.body.maxLeaf == if BodyAt(n, s, q).maxChild < x then l else BodyAt(n, s, q).maxLeaf
    ensures q + [x] !in s.at
    ensures var n', s' := n[s.at[q] := node], WithChild(s, q, x, l);
            Findable(g, n', s') && MaxBut(n', s', q) && LeafBodies(n') == LeafBodies(n)
  {
    LeavesAfterBranch(n, s.at[q], node);
    assert s.at[q] !in LeafBodies(n);
    CanAttachChild(g, n, s, q, x, l, node);
    hide CanAddChild, Subtree, MaxAll, JumpsHide, LeafBodies, MaxBut, NoGarbage, SameMax, Marked;
    AddChild(g, n, s, [], q, x, l, n[s.at[q] := node]);
    AddChildHides(g, n, s, [], q, x, l, n[s.at[q] := node]);
    AddChildMax(g, n, s, [], q, x, l, n[s.at[q] := node]);
    ChildClean(g, n, s, q, x, l, node);
  }

  lemma {:induction false} ChildClean(g: Geometry, n: Nodes, s: Shape, q: Path, x: Symbol, l: Loc, node: Node)
    requires Sound(g, n, s) && n.Keys == s.of.Keys + {l} && l !in s.of && Has(n, s, q) && q + [x] !in s.at
    requires SameHeader(n[s.at[q]], node)
    ensures var n', s' := n[s.at[q] := node], WithChild(s, q, x, l);
            && NoGarbage(n', s') && s'.at[[]] == RootLoc && RootLoc in n' && n'[RootLoc].parentColor == INVALID_COLOR
  {
    assert NamedOk(g, n, s, []);
  }

  lemma {:induction false} CanAttachChild(g: Geometry, n: Nodes, s: Shape, q: Path, x: Symbol, l: Loc, node: Node)
    requires Sound(g, n, s) && n.Keys == s.of.Keys + {l} && l !in s.of
    requires Has(n, s, q) && BodyAt(n, s, q).Bitmap? && x !in BodyAt(n, s, q).children
    requires l.hash == HashOf(g, q + [x]) && l.color <= MAX_VALID_COLOR
    requires n[l].body.Leaf? && n[l].lastSymbol == x && n[l].parentColor == s.at[q].color
    requires q + [x] <= Symbols(n[l].body.kv.key) && Marked(n[s.at[q]], node, x)
    ensures CanAddChild(g, n, s, [], q, x, l, n[s.at[q] := node]) && SameHeader(n[s.at[q]], node)
    ensures forall p :: Has(n, s, p) && p != q ==> SameMax(n, s, n[s.at[q] := node], s, p)
  {
    var n' := n[s.at[q] := node];
    forall p | Has(n, s, p) && p != q
      ensures SameMax(n, s, n', s, p)
    {
      assert s.of[s.at[p]] == p;
    }
  }
}
