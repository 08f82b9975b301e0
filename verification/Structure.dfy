// The trie as a value: which prefix each entry of the table stands for, the
// structural invariant, and how subtrees are taken out, extended and put back.
module Structure {
  import opened Keys
  import opened Hashing
  import opened Store

  // `at` names the node of every prefix that has one, `of` is its inverse, and `up`
  // leads from the prefix of a node to that of its parent.
  datatype Shape = Shape(at: map<Path, Loc>, of: map<Loc, Path>, up: map<Path, Path>)

  ghost predicate Has(n: Nodes, s: Shape, p: Path) {
    p in s.at && s.at[p] in n
  }

  ghost function BodyAt(n: Nodes, s: Shape, p: Path): Body
    requires Has(n, s, p)
  {
    n[s.at[p]].body
  }

  ghost predicate IsLeaf(n: Nodes, s: Shape, p: Path) {
    Has(n, s, p) && BodyAt(n, s, p).Leaf?
  }

  // The locator of the rightmost leaf that the node itself records.
  function MaxLeafOf(l: Loc, node: Node): Loc {
    match node.body
    case Leaf(_, _, _) => l
    case Bitmap(_, _, maxLeaf) => maxLeaf
    case Jump(_, _, maxLeaf) => maxLeaf
  }

  // The node at q is a child of the node at p.
  ghost predicate ChildVia(n: Nodes, s: Shape, p: Path, q: Path) {
    Has(n, s, p) && Has(n, s, q) && p <= q &&
    match BodyAt(n, s, p)
    case Leaf(_, _, _) => false
    case Bitmap(children, _, _) => |q| == |p| + 1 && q[|p|] in children
    case Jump(symbols, _, _) => |symbols| > 0 && q == p + symbols
  }

  // Child x of the bitmap at p can be found by its parent's colour.
  ghost predicate BitmapChildOk(n: Nodes, s: Shape, p: Path, x: Symbol)
    requires Has(n, s, p)
  {
    var q := p + [x];
    && Has(n, s, q) && q in s.up && s.up[q] == p
    && n[s.at[q]].lastSymbol == x && n[s.at[q]].parentColor == s.at[p].color
  }

  // The child of the jump node at p can be found by its colour, and is not a leaf.
  ghost predicate JumpChildOk(n: Nodes, s: Shape, p: Path, symbols: Path, childColor: nat)
    requires Has(n, s, p) && |symbols| > 0
  {
    var q := p + symbols;
    && Has(n, s, q) && q in s.up && s.up[q] == p && s.at[q].color == childColor
    && !BodyAt(n, s, q).Leaf? && n[s.at[q]].lastSymbol == symbols[|symbols| - 1]
  }

  ghost predicate NodeOk(n: Nodes, s: Shape, p: Path)
    requires Has(n, s, p)
  {
    match BodyAt(n, s, p)
    case Leaf(kv, _, _) => p <= Symbols(kv.key)
    case Bitmap(children, maxChild, _) =>
      && SYMBOL_END !in p && maxChild in children
      && forall x :: x in children ==> x <= maxChild && BitmapChildOk(n, s, p, x)
    case Jump(symbols, childColor, _) =>
      && SYMBOL_END !in p && SYMBOL_END !in symbols && 1 <= |symbols| <= MAX_JUMP_SYMBOLS
      && JumpChildOk(n, s, p, symbols, childColor)
  }

  ghost predicate NamedOk(g: Geometry, n: Nodes, s: Shape, p: Path) {
    && Has(n, s, p) && s.at[p].hash == HashOf(g, p) && s.at[p].color <= MAX_VALID_COLOR
    && s.at[p] in s.of && s.of[s.at[p]] == p
  }

  ghost predicate Linked(n: Nodes, s: Shape, p: Path) {
    p in s.up && ChildVia(n, s, s.up[p], p)
  }

  // The nodes of s form a tree whose root stands for the prefix `base`.
  ghost predicate Subtree(g: Geometry, n: Nodes, s: Shape, base: Path) {
    && base in s.at && base !in s.up
    && (forall p :: p in s.at ==> s.at[p] in n && base <= p && s.at[p] in s.of && s.of[s.at[p]] == p)
    && (forall p {:trigger NamedOk(g, n, s, p)} :: p in s.at ==> NamedOk(g, n, s, p))
    && (forall l {:trigger s.of[l]} :: l in s.of ==> s.of[l] in s.at && s.at[s.of[l]] == l)
    && (forall p {:trigger NodeOk(n, s, p)} :: p in s.at ==> NodeOk(n, s, p))
    && (forall p {:trigger Linked(n, s, p)} :: p in s.at && p != base ==> Linked(n, s, p))
  }

  ghost predicate Tree(g: Geometry, n: Nodes, s: Shape) {
    Subtree(g, n, s, []) && s.at[[]] == RootLoc
  }

  // Only children of bitmaps carry their parent's colour.
  ghost predicate JumpChildHides(n: Nodes, s: Shape, p: Path)
    requires Has(n, s, p)
  {
    BodyAt(n, s, p).Jump? ==>
      var q := p + BodyAt(n, s, p).symbols;
      Has(n, s, q) && n[s.at[q]].parentColor == INVALID_COLOR
  }

  ghost predicate JumpsHide(n: Nodes, s: Shape) {
    forall p {:trigger JumpChildHides(n, s, p)} :: Has(n, s, p) ==> JumpChildHides(n, s, p)
  }

  // The max_leaf field of the node at p is that of its last child.
  ghost predicate MaxOk(n: Nodes, s: Shape, p: Path)
    requires Has(n, s, p)
  {
    match BodyAt(n, s, p)
    case Leaf(_, _, _) => true
    case Bitmap(_, maxChild, maxLeaf) =>
      Has(n, s, p + [maxChild]) && maxLeaf == MaxLeafOf(s.at[p + [maxChild]], n[s.at[p + [maxChild]]])
    case Jump(symbols, _, maxLeaf) =>
      Has(n, s, p + symbols) && maxLeaf == MaxLeafOf(s.at[p + symbols], n[s.at[p + symbols]])
  }

  ghost predicate MaxAll(n: Nodes, s: Shape) {
    forall p {:trigger MaxOk(n, s, p)} :: Has(n, s, p) ==> MaxOk(n, s, p)
  }

  // No entry of the table is outside the trie.
  ghost predicate NoGarbage(n: Nodes, s: Shape) {
    n.Keys == s.of.Keys
  }

  // ------------------------------------------------------------------
  // Descending
  // ------------------------------------------------------------------

  // A prefix of q that has a node has a child on the way to q.
  lemma {:induction false} Toward(g: Geometry, n: Nodes, s: Shape, base: Path, q: Path, p: Path) returns (c: Path)
    requires Subtree(g, n, s, base) && q in s.at && p in s.at && q <= p && q != p
    ensures ChildVia(n, s, q, c) && c <= p && |c| > |q|
    decreases |p|
  {
    assert base <= q;
    assert Linked(n, s, p);
    var r := s.up[p];
    assert r < p;
    if r == q {
      c := p;
    } else if |r| < |q| {
      Comparable(r, q, p);
      var c' := Toward(g, n, s, base, r, q);
      OneChildThatWay(n, s, r, c', p);
      assert false;
    } else {
      Comparable(q, r, p);
      c := Toward(g, n, s, base, q, r);
    }
  }

  lemma {:induction false} Comparable(q: Path, r: Path, p: Path)
    requires q <= p && r <= p && |q| <= |r|
    ensures q <= r
  {
    assert q == p[..|q|] == r[..|q|];
  }

  lemma {:induction false} OneChildThatWay(n: Nodes, s: Shape, r: Path, c: Path, p: Path)
    requires ChildVia(n, s, r, c) && ChildVia(n, s, r, p) && c <= p
    ensures c == p
  {
  }

  // Where two prefixes with nodes part, there is a bitmap with a child on each side.
  lemma {:induction false} Parting(g: Geometry, n: Nodes, s: Shape, base: Path, q: Path, p: Path, r: Path, i: nat)
    requires Subtree(g, n, s, base) && q in s.at && p in s.at && r in s.at && q <= p && q <= r
    requires |q| <= i < |p| && i < |r| && p[..i] == r[..i] && p[i] != r[i]
    ensures p[..i] in s.at && BodyAt(n, s, p[..i]).Bitmap?
    ensures p[i] in BodyAt(n, s, p[..i]).children && r[i] in BodyAt(n, s, p[..i]).children
    decreases i - |q|
  {
    var c := Toward(g, n, s, base, q, p);
    var d := Toward(g, n, s, base, q, r);
    assert q == p[..i][..|q|] == p[..|q|];
    if |q| == i {
      assert q == p[..i];
      PartHere(g, n, s, base, q, c, d, p, r);
    } else {
      assert p[|q|] == p[..i][|q|] == r[..i][|q|] == r[|q|];
      assert NodeOk(n, s, q);
      SameWay(n, s, q, c, d, p, r);
      SharedIsShort(c, p, r, i);
      Parting(g, n, s, base, c, p, r, i);
    }
  }

  lemma {:induction false} PartHere(g: Geometry, n: Nodes, s: Shape, base: Path, q: Path, c: Path, d: Path, p: Path,
                                    r: Path)
    requires Subtree(g, n, s, base) && ChildVia(n, s, q, c) && ChildVia(n, s, q, d) && c <= p && d <= r
    requires |q| < |c| && |q| < |d| && p[|q|] != r[|q|]
    ensures BodyAt(n, s, q).Bitmap?
    ensures p[|q|] in BodyAt(n, s, q).children && r[|q|] in BodyAt(n, s, q).children
  {
    assert c[|q|] == p[|q|] && d[|q|] == r[|q|];
  }

  lemma {:induction false} SameWay(n: Nodes, s: Shape, q: Path, c: Path, d: Path, p: Path, r: Path)
    requires ChildVia(n, s, q, c) && ChildVia(n, s, q, d) && c <= p && d <= r && |c| > |q| && |d| > |q|
    requires |p| > |q| && |r| > |q| && p[|q|] == r[|q|]
    ensures c == d
  {
    if BodyAt(n, s, q).Bitmap? {
      assert c == q + [c[|q|]] && d == q + [d[|q|]];
      assert c[|q|] == p[|q|] && d[|q|] == r[|q|];
    }
  }

  lemma {:induction false} SharedIsShort(c: Path, p: Path, r: Path, i: nat)
    requires c <= p && c <= r && i < |p| && i < |r| && p[i] != r[i]
    ensures |c| <= i
  {
  }

  // Two entries never have the same hash, last symbol and (valid) parent colour:
  // the child of a bitmap is the only entry that a search by parent can find.
  lemma {:induction false} ChildByParentIsUnique(g: Geometry, n: Nodes, s: Shape, p: Path, x: Symbol, l: Loc)
    requires Findable(g, n, s) && p in s.at
    requires IsChild(n, l, HashOf(g, p + [x]), x, s.at[p].color)
    ensures BodyAt(n, s, p).Bitmap? && x in BodyAt(n, s, p).children && p + [x] in s.at && s.at[p + [x]] == l
  {
    var q := s.of[l];
    assert NamedOk(g, n, s, p) && NamedOk(g, n, s, q);
    assert q != [];
    assert Linked(n, s, q);
    var r := s.up[q];
    assert NodeOk(n, s, r) && JumpChildHides(n, s, r) && NamedOk(g, n, s, r);
    assert q == r + [q[|r|]];
    assert BitmapChildOk(n, s, r, q[|r|]);
    SameParent(g, r, p, x);
    assert s.of[s.at[r]] == r && s.of[s.at[p]] == p;
  }

  lemma {:induction false} SameParent(g: Geometry, r: Path, p: Path, x: Symbol)
    requires g.Valid() && HashOf(g, r + [x]) == HashOf(g, p + [x])
    ensures HashOf(g, r) == HashOf(g, p)
  {
    HashFromSnoc(g, HASH_START_VALUE, r, x);
    HashFromSnoc(g, HASH_START_VALUE, p, x);
    HashInRange(g, HASH_START_VALUE, r);
    HashInRange(g, HASH_START_VALUE, p);
    AccumulateInjective(g, HashOf(g, r), HashOf(g, p), x);
  }

  // The trie is well formed, whatever else is in the table.
  ghost predicate Sound(g: Geometry, n: Nodes, s: Shape) {
    g.Valid() && Tree(g, n, s) && JumpsHide(n, s) && RootLoc in n && n[RootLoc].parentColor == INVALID_COLOR
  }

  // What a descent relies on.
  ghost predicate Findable(g: Geometry, n: Nodes, s: Shape) {
    Sound(g, n, s) && NoGarbage(n, s)
  }

  lemma {:induction false} ChildOfBitmap(g: Geometry, n: Nodes, s: Shape, p: Path, x: Symbol)
    requires Tree(g, n, s) && p in s.at && BodyAt(n, s, p).Bitmap? && x in BodyAt(n, s, p).children
    ensures NamedOk(g, n, s, p + [x]) && ChildVia(n, s, p, p + [x])
    ensures p + [x] in s.up && s.up[p + [x]] == p
    ensures IsChild(n, s.at[p + [x]], HashOf(g, p + [x]), x, s.at[p].color)
  {
    assert NodeOk(n, s, p);
    assert BitmapChildOk(n, s, p, x);
    assert NamedOk(g, n, s, p + [x]);
  }

  lemma {:induction false} ChildOfJump(g: Geometry, n: Nodes, s: Shape, p: Path)
    requires Tree(g, n, s) && p in s.at && BodyAt(n, s, p).Jump?
    ensures var q := p + BodyAt(n, s, p).symbols;
            && NamedOk(g, n, s, q) && ChildVia(n, s, p, q) && q in s.up && s.up[q] == p
            && s.at[q] == Loc(HashOf(g, q), BodyAt(n, s, p).childColor)
  {
    assert NodeOk(n, s, p);
    assert JumpChildOk(n, s, p, BodyAt(n, s, p).symbols, BodyAt(n, s, p).childColor);
    assert NamedOk(g, n, s, p + BodyAt(n, s, p).symbols);
  }

  // ------------------------------------------------------------------
  // The rightmost leaf of a subtree
  // ------------------------------------------------------------------

  ghost predicate BoundedBy(s: Shape, bound: nat) {
    forall p :: p in s.at ==> |p| <= bound
  }

  lemma {:induction false} Longest(paths: set<Path>) returns (bound: nat)
    ensures forall p :: p in paths ==> |p| <= bound
  {
    if paths == {} {
      bound := 0;
    } else {
      var p :| p in paths;
      var rest := Longest(paths - {p});
      bound := if |p| > rest then |p| else rest;
      forall q | q in paths
        ensures |q| <= bound
      {
        assert q == p || q in paths - {p};
      }
    }
  }

  ghost predicate AllLeavesUpTo(n: Nodes, s: Shape, p: Path, r: Path) {
    forall l :: IsLeaf(n, s, l) && p <= l ==> l == r || SymLess(l, r)
  }

  // The max_leaf of a node is the rightmost leaf of its subtree.
  lemma {:induction false} RightmostLeaf(g: Geometry, n: Nodes, s: Shape, base: Path, p: Path, bound: nat)
      returns (r: Path)
    requires Subtree(g, n, s, base) && MaxAll(n, s) && BoundedBy(s, bound) && p in s.at
    ensures IsLeaf(n, s, r) && p <= r && s.at[r] == MaxLeafOf(s.at[p], n[s.at[p]])
    ensures AllLeavesUpTo(n, s, p, r)
    decreases bound - |p|
  {
    assert NodeOk(n, s, p) && MaxOk(n, s, p) && NamedOk(g, n, s, p);
    match BodyAt(n, s, p)
    case Leaf(_, _, _) =>
      r := p;
      forall l | IsLeaf(n, s, l) && p <= l
        ensures l == r || SymLess(l, r)
      {
        if l != p {
          var c := Toward(g, n, s, base, p, l);
          assert false;
        }
      }
    case Bitmap(children, maxChild, _) =>
      assert BitmapChildOk(n, s, p, maxChild);
      r := RightmostLeaf(g, n, s, base, p + [maxChild], bound);
      forall l | IsLeaf(n, s, l) && p <= l
        ensures l == r || SymLess(l, r)
      {
        RightOfSiblings(g, n, s, base, p, maxChild, l, r);
      }
    case Jump(symbols, _, _) =>
      r := RightmostLeaf(g, n, s, base, p + symbols, bound);
      forall l | IsLeaf(n, s, l) && p <= l
        ensures l == r || SymLess(l, r)
      {
        var c := Toward(g, n, s, base, p, l);
      }
  }

  lemma {:induction false} SiblingsLess(p: Path, x: Symbol, y: Symbol, l: Path, r: Path)
    requires p + [x] <= l && p + [y] <= r && x < y
    ensures SymLess(l, r)
  {
    assert l[|p|] == (p + [x])[|p|] && r[|p|] == (p + [y])[|p|];
    assert l[..|p|] == (p + [x])[..|p|] == p == (p + [y])[..|p|] == r[..|p|];
    assert LessAt(l, r, |p|);
  }

  lemma {:induction false} RightOfSiblings(g: Geometry, n: Nodes, s: Shape, base: Path, p: Path, maxChild: Symbol,
                                           l: Path, r: Path)
    requires Subtree(g, n, s, base) && p in s.at && BodyAt(n, s, p).Bitmap? && maxChild == BodyAt(n, s, p).maxChild
    requires IsLeaf(n, s, l) && p <= l && p + [maxChild] <= r && AllLeavesUpTo(n, s, p + [maxChild], r)
    ensures l == r || SymLess(l, r)
  {
    assert NodeOk(n, s, p);
    var c := Toward(g, n, s, base, p, l);
    assert c == p + [c[|p|]];
    if c[|p|] != maxChild {
      SiblingsLess(p, c[|p|], maxChild, l, r);
    }
  }

  // ------------------------------------------------------------------
  // Changing the tree
  // ------------------------------------------------------------------

  ghost predicate SameHeader(a: Node, b: Node) {
    a.parentColor == b.parentColor && a.lastSymbol == b.lastSymbol && (b.body.Leaf? ==> a.body.Leaf?)
  }

  // The node at c is still there, below the same parent and with the same header.
  ghost predicate Kept(n: Nodes, s: Shape, n': Nodes, s': Shape, c: Path) {
    && Has(n, s, c) && Has(n', s', c) && s'.at[c] == s.at[c]
    && (c in s.up ==> c in s'.up && s'.up[c] == s.up[c])
    && SameHeader(n[s.at[c]], n'[s.at[c]])
  }

  ghost predicate ChildrenKept(n: Nodes, s: Shape, n': Nodes, s': Shape, p: Path) {
    forall c :: c in s.at && c in s.up && s.up[c] == p ==> Kept(n, s, n', s', c)
  }

  // Bodies that differ at most in the locators of leaves and in what leaves store.
  ghost predicate SameBranches(a: Body, b: Body) {
    match a
    case Leaf(kv, _, _) => b.Leaf? && b.kv.key == kv.key
    case Bitmap(children, maxChild, _) => b.Bitmap? && b.children == children && b.maxChild == maxChild
    case Jump(symbols, childColor, _) => b.Jump? && b.symbols == symbols && b.childColor == childColor
  }

  lemma {:induction false} KeepsNode(n: Nodes, s: Shape, n': Nodes, s': Shape, p: Path)
    requires Has(n, s, p) && NodeOk(n, s, p) && Has(n', s', p) && s'.at[p] == s.at[p]
    requires SameBranches(BodyAt(n, s, p), BodyAt(n', s', p)) && ChildrenKept(n, s, n', s', p)
    ensures NodeOk(n', s', p)
  {
    match BodyAt(n, s, p)
    case Leaf(_, _, _) =>
    case Bitmap(children, _, _) =>
      forall x | x in children
        ensures BitmapChildOk(n', s', p, x)
      {
        assert BitmapChildOk(n, s, p, x);
        assert Kept(n, s, n', s', p + [x]);
      }
    case Jump(symbols, childColor, _) =>
      assert JumpChildOk(n, s, p, symbols, childColor);
      assert Kept(n, s, n', s', p + symbols);
  }

  lemma {:induction false} KeepsLink(n: Nodes, s: Shape, n': Nodes, s': Shape, p: Path)
    requires Linked(n, s, p) && Kept(n, s, n', s', p) && Has(n', s', s.up[p])
    requires s'.at[s.up[p]] == s.at[s.up[p]]
    requires SameBranches(BodyAt(n, s, s.up[p]), BodyAt(n', s', s.up[p]))
    ensures Linked(n', s', p)
  {
  }

  // A change that keeps names and branches keeps the tree.
  ghost predicate SameNodes(n: Nodes, s: Shape, n': Nodes) {
    forall l :: l in s.of && l in n ==>
      l in n' && SameHeader(n[l], n'[l]) && SameBranches(n[l].body, n'[l].body)
  }

  lemma {:induction false} SubtreeFrame(g: Geometry, n: Nodes, s: Shape, n': Nodes, base: Path)
    requires Subtree(g, n, s, base) && SameNodes(n, s, n')
    ensures Subtree(g, n', s, base)
  {
    forall p | p in s.at
      ensures NamedOk(g, n', s, p) && Kept(n, s, n', s, p)
    {
      assert NamedOk(g, n, s, p);
    }
    forall p | p in s.at
      ensures NodeOk(n', s, p) && (p != base ==> Linked(n', s, p))
    {
      assert NamedOk(g, n, s, p);
      KeepsNode(n, s, n', s, p);
      if p != base {
        assert Linked(n, s, p) && NamedOk(g, n, s, s.up[p]);
        KeepsLink(n, s, n', s, p);
      }
    }
  }

  // The subtree at c.
  ghost function At(s: Shape, c: Path): Shape {
    Shape(map p | p in s.at && c <= p :: s.at[p], map l | l in s.of && c <= s.of[l] :: s.of[l],
          map p | p in s.up && c <= p && p != c :: s.up[p])
  }

  lemma {:induction false} TakeSubtree(g: Geometry, n: Nodes, s: Shape, base: Path, c: Path)
    requires Subtree(g, n, s, base) && c in s.at
    ensures Subtree(g, n, At(s, c), c)
  {
    var t := At(s, c);
    forall p | p in t.at
      ensures NamedOk(g, n, t, p)
    {
      assert NamedOk(g, n, s, p);
    }
    forall p | p in t.at
      ensures NodeOk(n, t, p) && (p != c ==> Linked(n, t, p))
    {
      KeepsBelow(g, n, s, base, c, p);
    }
  }

  lemma {:induction false} KeepsBelow(g: Geometry, n: Nodes, s: Shape, base: Path, c: Path, p: Path)
    requires Subtree(g, n, s, base) && c in s.at && p in s.at && c <= p
    ensures Has(n, At(s, c), p) && NodeOk(n, At(s, c), p) && (p != c ==> Linked(n, At(s, c), p))
  {
    var t := At(s, c);
    assert NamedOk(g, n, s, p);
    forall d | d in s.at && d in s.up && s.up[d] == p
      ensures Kept(n, s, n, t, d)
    {
      ChildIsLonger(g, n, s, base, d);
      assert NamedOk(g, n, s, d);
    }
    KeepsNode(n, s, n, t, p);
    if p != c {
      LinkInside(g, n, s, base, c, p);
      KeepsLink(n, s, n, t, p);
    }
  }

  lemma {:induction false} ChildIsLonger(g: Geometry, n: Nodes, s: Shape, base: Path, d: Path)
    requires Subtree(g, n, s, base) && d in s.at && d in s.up
    ensures s.up[d] <= d && |s.up[d]| < |d|
  {
    assert Linked(n, s, d);
  }

  // The parent of a node below c is c or below c.
  lemma {:induction false} LinkInside(g: Geometry, n: Nodes, s: Shape, base: Path, c: Path, p: Path)
    requires Subtree(g, n, s, base) && c in s.at && p in s.at && c <= p && p != c
    ensures Linked(n, s, p) && c <= s.up[p] && s.up[p] in s.at
  {
    assert base <= c;
    assert Linked(n, s, p);
    var r := s.up[p];
    if |r| < |c| {
      Comparable(r, c, p);
      var d := Toward(g, n, s, base, r, c);
      OneChildThatWay(n, s, r, d, p);
    } else {
      Comparable(c, r, p);
    }
  }

  // The tree with a new root at prefix p above the subtree at c.
  ghost function Above(s: Shape, c: Path, p: Path, l: Loc): Shape {
    Shape(s.at[p := l], s.of[l := p], s.up[c := p])
  }

  // What the new root must be: a jump to c, or a bitmap with c as its only child.
  ghost predicate LeadsTo(n: Nodes, s: Shape, c: Path, p: Path, l: Loc) {
    && l in n && Has(n, s, c) && p <= c && |p| < |c| && SYMBOL_END !in p
    && n[s.at[c]].lastSymbol == c[|c| - 1]
    && match n[l].body
       case Leaf(_, _, _) => false
       case Bitmap(children, maxChild, _) =>
         |c| == |p| + 1 && children == {c[|p|]} && maxChild == c[|p|] && n[s.at[c]].parentColor == l.color
       case Jump(symbols, childColor, _) =>
         && c == p + symbols && |symbols| <= MAX_JUMP_SYMBOLS && SYMBOL_END !in symbols
         && s.at[c].color == childColor && !n[s.at[c]].body.Leaf?
  }

  lemma {:induction false} RootAbove(g: Geometry, n: Nodes, s: Shape, c: Path, p: Path, l: Loc)
    requires Subtree(g, n, s, c) && LeadsTo(n, s, c, p, l) && l !in s.of && p !in s.up
    requires l.hash == HashOf(g, p) && l.color <= MAX_VALID_COLOR
    ensures Subtree(g, n, Above(s, c, p, l), p)
  {
    var t := Above(s, c, p, l);
    NamedAbove(g, n, s, c, p, l);
    forall q | q in t.at
      ensures NodeOk(n, t, q) && (q != p ==> Linked(n, t, q))
    {
      if q == p {
        NodeAbove(n, s, c, p, l);
      } else {
        KeepsUnder(g, n, s, c, p, l, q);
      }
    }
  }

  lemma {:induction false} NamedAbove(g: Geometry, n: Nodes, s: Shape, c: Path, p: Path, l: Loc)
    requires Subtree(g, n, s, c) && LeadsTo(n, s, c, p, l) && l !in s.of && p !in s.up
    requires l.hash == HashOf(g, p) && l.color <= MAX_VALID_COLOR
    ensures var t := Above(s, c, p, l);
            && (forall q :: q in t.at ==> NamedOk(g, n, t, q) && p <= q)
            && (forall k :: k in t.of ==> t.of[k] in t.at && t.at[t.of[k]] == k)
  {
    forall q | q in s.at
      ensures NamedOk(g, n, s, q) && c <= q && p <= q && q != p
    {
      assert NamedOk(g, n, s, q);
    }
  }

  lemma {:induction false} NodeAbove(n: Nodes, s: Shape, c: Path, p: Path, l: Loc)
    requires LeadsTo(n, s, c, p, l) && l != s.at[c]
    ensures NodeOk(n, Above(s, c, p, l), p)
  {
    var t := Above(s, c, p, l);
    assert Has(n, t, c);
    if n[l].body.Bitmap? {
      assert c == p + [c[|p|]];
      assert BitmapChildOk(n, t, p, c[|p|]);
    } else {
      assert JumpChildOk(n, t, p, n[l].body.symbols, n[l].body.childColor);
    }
  }

  lemma {:induction false} KeepsUnder(g: Geometry, n: Nodes, s: Shape, c: Path, p: Path, l: Loc, q: Path)
    requires Subtree(g, n, s, c) && LeadsTo(n, s, c, p, l) && q in s.at
    requires l !in s.of
    ensures var t := Above(s, c, p, l); Has(n, t, q) && NodeOk(n, t, q) && Linked(n, t, q)
  {
    var t := Above(s, c, p, l);
    assert NamedOk(g, n, s, q);
    forall d | d in s.at && d in s.up && s.up[d] == q
      ensures Kept(n, s, n, t, d)
    {
      assert NamedOk(g, n, s, d);
    }
    KeepsNode(n, s, n, t, q);
    if q != c {
      assert Linked(n, s, q) && NamedOk(g, n, s, s.up[q]);
      KeepsLink(n, s, n, t, q);
    } else {
      assert Has(n, t, c) && Has(n, t, p);
      assert ChildVia(n, t, p, c);
    }
  }

  // The tree with the subtree at q replaced by t.
  ghost function Grafted(s: Shape, q: Path, t: Shape): Shape {
    Shape(map p | p in s.at.Keys + t.at.Keys && (p in t.at || !(q <= p)) :: if p in t.at then t.at[p] else s.at[p],
          map l | l in s.of.Keys + t.of.Keys && (l in t.of || !(q <= s.of[l])) :: if l in t.of then t.of[l]
              else s.of[l],
          map p | p in s.up.Keys + t.up.Keys && (if q <= p && p != q then p in t.up else p in s.up) ::
            if q <= p && p != q then t.up[p] else s.up[p])
  }

  // Entries outside the subtree at q are as before.
  ghost predicate SameOutside(n: Nodes, s: Shape, q: Path, n': Nodes) {
    forall l :: l in s.of && l in n && !(q <= s.of[l]) ==> l in n' && n'[l] == n[l]
  }

  ghost predicate CanGraft(g: Geometry, n: Nodes, s: Shape, base: Path, q: Path, n': Nodes, t: Shape) {
    && Subtree(g, n, s, base) && q in s.at && Subtree(g, n', t, q) && t.at[q] == s.at[q]
    && (q != base ==> SameHeader(n[s.at[q]], n'[s.at[q]])) && SameOutside(n, s, q, n')
    && (forall l :: l in t.of && l in s.of ==> q <= s.of[l])
  }

  lemma {:induction false} Graft(g: Geometry, n: Nodes, s: Shape, base: Path, q: Path, n': Nodes, t: Shape)
    requires CanGraft(g, n, s, base, q, n', t)
    ensures Subtree(g, n', Grafted(s, q, t), base)
  {
    var u := Grafted(s, q, t);
    GraftNames(g, n, s, base, q, n', t);
    forall p | p in u.at
      ensures NodeOk(n', u, p) && (p != base ==> Linked(n', u, p))
    {
      if p in t.at {
        GraftInside(g, n, s, base, q, n', t, p);
      } else {
        GraftOutside(g, n, s, base, q, n', t, p);
      }
    }
  }

  lemma {:induction false} GraftNames(g: Geometry, n: Nodes, s: Shape, base: Path, q: Path, n': Nodes, t: Shape)
    requires CanGraft(g, n, s, base, q, n', t)
    ensures var u := Grafted(s, q, t);
            && (forall p :: p in u.at ==> NamedOk(g, n', u, p) && base <= p)
            && (forall l :: l in u.of ==> u.of[l] in u.at && u.at[u.of[l]] == l)
            && base in u.at && base !in u.up
  {
    var u := Grafted(s, q, t);
    GraftBase(g, n, s, base, q, n', t);
    forall p | p in u.at
      ensures NamedOk(g, n', u, p) && base <= p
    {
      GraftName(g, n, s, base, q, n', t, p);
    }
    forall l | l in u.of
      ensures u.of[l] in u.at && u.at[u.of[l]] == l
    {
      GraftOf(g, n, s, base, q, n', t, l);
    }
  }

  lemma {:induction false} GraftBase(g: Geometry, n: Nodes, s: Shape, base: Path, q: Path, n': Nodes, t: Shape)
    requires CanGraft(g, n, s, base, q, n', t)
    ensures base in Grafted(s, q, t).at && base !in Grafted(s, q, t).up
  {
    assert q <= base ==> base == q;
  }

  lemma {:induction false} GraftOf(g: Geometry, n: Nodes, s: Shape, base: Path, q: Path, n': Nodes, t: Shape, l: Loc)
    requires CanGraft(g, n, s, base, q, n', t) && l in Grafted(s, q, t).of
    ensures var u := Grafted(s, q, t); u.of[l] in u.at && u.at[u.of[l]] == l
  {
    var u := Grafted(s, q, t);
    if l in t.of {
      assert u.of[l] == t.of[l] && t.of[l] in u.at;
    } else {
      assert u.of[l] == s.of[l] && s.of[l] !in t.at && s.of[l] in u.at;
    }
  }

  lemma {:induction false} GraftName(g: Geometry, n: Nodes, s: Shape, base: Path, q: Path, n': Nodes, t: Shape, p: Path)
    requires CanGraft(g, n, s, base, q, n', t) && p in Grafted(s, q, t).at
    ensures NamedOk(g, n', Grafted(s, q, t), p) && base <= p
  {
    var u := Grafted(s, q, t);
    if p in t.at {
      assert NamedOk(g, n', t, p) && base <= q <= p;
    } else {
      assert NamedOk(g, n, s, p);
      var l := s.at[p];
      assert l !in t.of;
      assert l in u.of && u.of[l] == p;
    }
  }

  lemma {:induction false} GraftInside(g: Geometry, n: Nodes, s: Shape, base: Path, q: Path, n': Nodes, t: Shape,
                                       p: Path)
    requires CanGraft(g, n, s, base, q, n', t) && p in t.at
    ensures Has(n', Grafted(s, q, t), p) && NodeOk(n', Grafted(s, q, t), p)
    ensures p != base ==> Linked(n', Grafted(s, q, t), p)
  {
    var u := Grafted(s, q, t);
    assert NamedOk(g, n', t, p);
    forall d | d in t.at && d in t.up && t.up[d] == p
      ensures Kept(n', t, n', u, d)
    {
      assert NamedOk(g, n', t, d);
    }
    KeepsNode(n', t, n', u, p);
    if p != q {
      assert Linked(n', t, p) && NamedOk(g, n', t, t.up[p]);
      KeepsLink(n', t, n', u, p);
    } else if q != base {
      GraftLink(g, n, s, base, q, n', t);
    }
  }

  lemma {:induction false} GraftLink(g: Geometry, n: Nodes, s: Shape, base: Path, q: Path, n': Nodes, t: Shape)
    requires CanGraft(g, n, s, base, q, n', t) && q != base
    ensures Linked(n', Grafted(s, q, t), q)
  {
    KeptOutside(g, n, s, base, q, n', t, q);
    assert Linked(n, s, q);
    KeptOutside(g, n, s, base, q, n', t, s.up[q]);
    KeepsLink(n, s, n', Grafted(s, q, t), q);
  }

  lemma {:induction false} KeptOutside(g: Geometry, n: Nodes, s: Shape, base: Path, q: Path, n': Nodes, t: Shape,
                                       d: Path)
    requires CanGraft(g, n, s, base, q, n', t) && d in s.at && (if d == q then q != base else !(q <= d))
    ensures Kept(n, s, n', Grafted(s, q, t), d)
  {
    assert NamedOk(g, n, s, d);
    var u := Grafted(s, q, t);
    if d in s.up {
      GraftUp(s, q, t, d);
    }
    if d == q {
      assert NamedOk(g, n', t, q);
      assert u.at[q] == t.at[q];
    } else {
      assert d !in t.at;
      assert u.at[d] == s.at[d];
    }
  }

  lemma {:induction false} GraftUp(s: Shape, q: Path, t: Shape, d: Path)
    requires d in s.up && (d == q || !(q <= d))
    ensures d in Grafted(s, q, t).up && Grafted(s, q, t).up[d] == s.up[d]
  {
  }

  lemma {:induction false} GraftOutside(g: Geometry, n: Nodes, s: Shape, base: Path, q: Path, n': Nodes, t: Shape,
                                        p: Path)
    requires CanGraft(g, n, s, base, q, n', t) && p in s.at && !(q <= p)
    ensures Has(n', Grafted(s, q, t), p) && NodeOk(n', Grafted(s, q, t), p)
    ensures p != base ==> Linked(n', Grafted(s, q, t), p)
  {
    hide Grafted, NodeOk;
    var u := Grafted(s, q, t);
    KeptOutside(g, n, s, base, q, n', t, p);
    assert NamedOk(g, n, s, p);
    forall d | d in s.at && d in s.up && s.up[d] == p
      ensures Kept(n, s, n', u, d)
    {
      ChildIsLonger(g, n, s, base, d);
      if q <= d && d != q {
        LinkInside(g, n, s, base, q, d);
      }
      KeptOutside(g, n, s, base, q, n', t, d);
    }
    KeepsNode(n, s, n', u, p);
    if p != base {
      assert Linked(n, s, p);
      KeptOutside(g, n, s, base, q, n', t, s.up[p]);
      KeepsLink(n, s, n', u, p);
    }
  }

  // The tree with a new leaf for symbol x below the bitmap at q.
  ghost function WithChild(s: Shape, q: Path, x: Symbol, l: Loc): Shape {
    Shape(s.at[q + [x] := l], s.of[l := q + [x]], s.up[q + [x] := q])
  }

  // The bitmap `after` is `before` with child x marked.
  ghost predicate Marked(before: Node, after: Node, x: Symbol) {
    && before.body.Bitmap? && after.body.Bitmap? && SameHeader(before, after)
    && after.body.children == before.body.children + {x}
    && after.body.maxChild == if before.body.maxChild < x then x else before.body.maxChild
  }

  ghost predicate CanAddChild(g: Geometry, n: Nodes, s: Shape, base: Path, q: Path, x: Symbol, l: Loc, n': Nodes) {
    && Subtree(g, n, s, base) && Has(n, s, q) && BodyAt(n, s, q).Bitmap? && x !in BodyAt(n, s, q).children
    && l !in s.of && l.hash == HashOf(g, q + [x]) && l.color <= MAX_VALID_COLOR
    && l in n' && n'[l].body.Leaf? && n'[l].lastSymbol == x && n'[l].parentColor == s.at[q].color
    && q + [x] <= Symbols(n'[l].body.kv.key)
    && s.at[q] in n' && Marked(n[s.at[q]], n'[s.at[q]], x)
    && (forall k :: k in s.of && k in n && k != s.at[q] ==>
          k in n' && SameHeader(n[k], n'[k]) && SameBranches(n[k].body, n'[k].body))
  }

  lemma {:induction false} AddChild(g: Geometry, n: Nodes, s: Shape, base: Path, q: Path, x: Symbol, l: Loc, n': Nodes)
    requires CanAddChild(g, n, s, base, q, x, l, n')
    ensures q + [x] !in s.at && Subtree(g, n', WithChild(s, q, x, l), base)
  {
    var t := WithChild(s, q, x, l);
    NewChild(g, n, s, base, q, x);
    AddChildNames(g, n, s, base, q, x, l, n');
    forall p | p in t.at
      ensures NodeOk(n', t, p) && (p != base ==> Linked(n', t, p))
    {
      if p == q + [x] {
        assert Has(n', t, q) && Has(n', t, p);
      } else {
        KeepsWithChild(g, n, s, base, q, x, l, n', p);
      }
    }
  }

  lemma {:induction false} NewChild(g: Geometry, n: Nodes, s: Shape, base: Path, q: Path, x: Symbol)
    requires Subtree(g, n, s, base) && q in s.at && BodyAt(n, s, q).Bitmap? && x !in BodyAt(n, s, q).children
    ensures q + [x] !in s.at
  {
    if q + [x] in s.at {
      var c := Toward(g, n, s, base, q, q + [x]);
    }
  }

  lemma {:induction false} AddChildNames(g: Geometry, n: Nodes, s: Shape, base: Path, q: Path, x: Symbol, l: Loc,
                                         n': Nodes)
    requires CanAddChild(g, n, s, base, q, x, l, n') && q + [x] !in s.at
    ensures var t := WithChild(s, q, x, l);
            && (forall p :: p in t.at ==> NamedOk(g, n', t, p) && base <= p)
            && (forall k :: k in t.of ==> t.of[k] in t.at && t.at[t.of[k]] == k)
            && base in t.at && base !in t.up
            && (forall p :: p in s.at ==> s.at[p] != l)
  {
    hide HashOf, Symbols, NodeOk;
    var t := WithChild(s, q, x, l);
    assert base <= q <= q + [x];
    forall p | p in s.at
      ensures NamedOk(g, n', t, p) && s.at[p] != l
    {
      assert NamedOk(g, n, s, p);
    }
  }

  lemma {:induction false} KeepsWithChild(g: Geometry, n: Nodes, s: Shape, base: Path, q: Path, x: Symbol, l: Loc,
                                          n': Nodes, p: Path)
    requires CanAddChild(g, n, s, base, q, x, l, n') && q + [x] !in s.at && p in s.at
    ensures var t := WithChild(s, q, x, l); Has(n', t, p) && NodeOk(n', t, p) && (p != base ==> Linked(n', t, p))
  {
    var t := WithChild(s, q, x, l);
    AddChildNames(g, n, s, base, q, x, l, n');
    assert NamedOk(g, n, s, p);
    forall d | d in s.at && d in s.up && s.up[d] == p
      ensures Kept(n, s, n', t, d)
    {
      assert NamedOk(g, n, s, d);
    }
    if p == q {
      MarkedNode(n, s, q, x, l, n');
    } else {
      assert s.at[p] != s.at[q];
      KeepsNode(n, s, n', t, p);
    }
    if p != base {
      assert Linked(n, s, p) && NamedOk(g, n, s, s.up[p]);
      LinkWithChild(g, n, s, base, q, x, l, n', p);
    }
  }

  lemma {:induction false} LinkWithChild(g: Geometry, n: Nodes, s: Shape, base: Path, q: Path, x: Symbol, l: Loc,
                                         n': Nodes, p: Path)
    requires CanAddChild(g, n, s, base, q, x, l, n') && q + [x] !in s.at && p in s.at && Linked(n, s, p)
    requires NamedOk(g, n, s, s.up[p]) && Has(n', WithChild(s, q, x, l), p)
    ensures Linked(n', WithChild(s, q, x, l), p)
  {
    var r := s.up[p];
    assert NamedOk(g, n, s, q);
    assert Has(n', WithChild(s, q, x, l), r);
    if r != q {
      assert s.at[r] != s.at[q];
    }
  }

  lemma {:induction false} MarkedNode(n: Nodes, s: Shape, q: Path, x: Symbol, l: Loc, n': Nodes)
    requires Has(n, s, q) && NodeOk(n, s, q) && Has(n', s, q) && Marked(n[s.at[q]], n'[s.at[q]], x)
    requires q + [x] !in s.at && l != s.at[q]
    requires ChildrenKept(n, s, n', WithChild(s, q, x, l), q)
    requires l in n' && n'[l].lastSymbol == x && n'[l].parentColor == s.at[q].color
    ensures NodeOk(n', WithChild(s, q, x, l), q)
  {
    var t := WithChild(s, q, x, l);
    forall y | y in BodyAt(n', s, q).children
      ensures BitmapChildOk(n', t, q, y)
    {
      if y != x {
        assert BitmapChildOk(n, s, q, y);
        assert Kept(n, s, n', t, q + [y]);
      }
    }
  }

  // ------------------------------------------------------------------
  // max_leaf fields across changes
  // ------------------------------------------------------------------

  ghost function LastChild(n: Nodes, s: Shape, p: Path): Path
    requires Has(n, s, p) && !BodyAt(n, s, p).Leaf?
  {
    if BodyAt(n, s, p).Bitmap? then p + [BodyAt(n, s, p).maxChild] else p + BodyAt(n, s, p).symbols
  }

  ghost predicate IsLastChild(n: Nodes, s: Shape, p: Path, c: Path) {
    Has(n, s, p) && !BodyAt(n, s, p).Leaf? && LastChild(n, s, p) == c
  }

  // All max_leaf fields are right, except that of a node with last child c.
  ghost predicate MaxBut(n: Nodes, s: Shape, c: Path) {
    forall p {:trigger MaxOk(n, s, p)} :: Has(n, s, p) ==> MaxOk(n, s, p) || IsLastChild(n, s, p, c)
  }

  lemma {:induction false} LastChildIsChild(g: Geometry, n: Nodes, s: Shape, base: Path, p: Path)
    requires Subtree(g, n, s, base) && p in s.at && !BodyAt(n, s, p).Leaf?
    ensures var c := LastChild(n, s, p); Has(n, s, c) && c in s.up && s.up[c] == p && NamedOk(g, n, s, c)
  {
    assert NodeOk(n, s, p);
    if BodyAt(n, s, p).Bitmap? {
      assert BitmapChildOk(n, s, p, BodyAt(n, s, p).maxChild);
    }
    assert NamedOk(g, n, s, LastChild(n, s, p));
  }

  // MaxOk carries over when the node and its last child record the same leaf.
  ghost predicate SameMax(n: Nodes, s: Shape, n': Nodes, s': Shape, p: Path) {
    && Has(n, s, p) && Has(n', s', p) && s'.at[p] == s.at[p]
    && MaxLeafOf(s'.at[p], n'[s'.at[p]]) == MaxLeafOf(s.at[p], n[s.at[p]])
  }

  lemma {:induction false} KeepsMax(n: Nodes, s: Shape, n': Nodes, s': Shape, p: Path)
    requires SameMax(n, s, n', s', p) && MaxOk(n, s, p)
    requires SameBranches(BodyAt(n, s, p), BodyAt(n', s', p))
    requires !BodyAt(n, s, p).Leaf? ==> SameMax(n, s, n', s', LastChild(n, s, p))
    ensures MaxOk(n', s', p)
  {
  }

  // Nothing is above the root.
  lemma {:induction false} MaxButRoot(g: Geometry, n: Nodes, s: Shape, base: Path)
    requires Subtree(g, n, s, base) && MaxBut(n, s, base)
    ensures MaxAll(n, s)
  {
    forall p | Has(n, s, p)
      ensures MaxOk(n, s, p)
    {
      if IsLastChild(n, s, p, base) {
        LastChildIsChild(g, n, s, base, p);
      }
    }
  }

  // A change below a child that is not the last one is not visible above.
  lemma {:induction false} MaxButNotLast(g: Geometry, n: Nodes, s: Shape, base: Path, c: Path)
    requires Subtree(g, n, s, base) && MaxBut(n, s, c) && c in s.at && c != base && c in s.up
    requires Has(n, s, s.up[c]) && BodyAt(n, s, s.up[c]).Bitmap?
    requires BodyAt(n, s, s.up[c]).maxChild != c[|c| - 1]
    ensures MaxAll(n, s)
  {
    forall p | Has(n, s, p)
      ensures MaxOk(n, s, p)
    {
      if IsLastChild(n, s, p, c) {
        LastChildIsChild(g, n, s, base, p);
      }
    }
  }

  function WithMaxLeaf(node: Node, l: Loc): Node {
    match node.body
    case Leaf(_, _, _) => node
    case Bitmap(_, _, _) => node.(body := node.body.(maxLeaf := l))
    case Jump(_, _, _) => node.(body := node.body.(jumpMaxLeaf := l))
  }

  // Copying the max_leaf of the last child into its parent moves the exception one
  // level up.
  lemma {:induction false} PropagateUp(g: Geometry, n: Nodes, s: Shape, base: Path, c: Path)
    requires Subtree(g, n, s, base) && MaxBut(n, s, c) && c in s.at && c != base && c in s.up
    requires IsLastChild(n, s, s.up[c], c)
    ensures var p := s.up[c];
            var n' := n[s.at[p] := WithMaxLeaf(n[s.at[p]], MaxLeafOf(s.at[c], n[s.at[c]]))];
            SameNodes(n, s, n') && Subtree(g, n', s, base) && MaxBut(n', s, p)
  {
    var p := s.up[c];
    var n' := n[s.at[p] := WithMaxLeaf(n[s.at[p]], MaxLeafOf(s.at[c], n[s.at[c]]))];
    assert SameNodes(n, s, n');
    SubtreeFrame(g, n, s, n', base);
    forall q | Has(n', s, q)
      ensures MaxOk(n', s, q) || IsLastChild(n', s, q, p)
    {
      PropagateOne(g, n, s, base, c, n', q);
    }
  }

  lemma {:induction false} PropagateOne(g: Geometry, n: Nodes, s: Shape, base: Path, c: Path, n': Nodes, q: Path)
    requires Subtree(g, n, s, base) && MaxBut(n, s, c) && c in s.at && c in s.up
    requires IsLastChild(n, s, s.up[c], c) && q in s.at
    requires n' == n[s.at[s.up[c]] := WithMaxLeaf(n[s.at[s.up[c]]], MaxLeafOf(s.at[c], n[s.at[c]]))]
    ensures Has(n', s, q) && (MaxOk(n', s, q) || IsLastChild(n', s, q, s.up[c]))
  {
    var p := s.up[c];
    assert NamedOk(g, n, s, q) && NamedOk(g, n, s, p) && NamedOk(g, n, s, c);
    assert p != c by { LastChildIsChild(g, n, s, base, p); ChildIsLonger(g, n, s, base, c); }
    assert s.at[p] != s.at[c];
    if q != p {
      assert s.at[q] != s.at[p];
      if !BodyAt(n, s, q).Leaf? {
        LastChildIsChild(g, n, s, base, q);
        var d := LastChild(n, s, q);
        if d != p {
          assert s.at[d] != s.at[p];
          assert d != c;
          KeepsMax(n, s, n', s, q);
        }
      }
    }
  }

  lemma {:induction false} GraftMax(g: Geometry, n: Nodes, s: Shape, base: Path, q: Path, n': Nodes, t: Shape)
    requires CanGraft(g, n, s, base, q, n', t) && MaxAll(n, s) && MaxAll(n', t)
    ensures MaxBut(n', Grafted(s, q, t), q)
    ensures MaxLeafOf(s.at[q], n'[s.at[q]]) == MaxLeafOf(s.at[q], n[s.at[q]]) ==> MaxAll(n', Grafted(s, q, t))
  {
    var u := Grafted(s, q, t);
    forall p | Has(n', u, p)
      ensures MaxOk(n', u, p) || IsLastChild(n', u, p, q)
      ensures MaxLeafOf(s.at[q], n'[s.at[q]]) == MaxLeafOf(s.at[q], n[s.at[q]]) ==> MaxOk(n', u, p)
    {
      if p in t.at {
        GraftMaxInside(g, n, s, base, q, n', t, p);
      } else {
        GraftMaxOutside(g, n, s, base, q, n', t, p);
      }
    }
  }

  lemma {:induction false} GraftMaxInside(g: Geometry, n: Nodes, s: Shape, base: Path, q: Path, n': Nodes, t: Shape,
                                          p: Path)
    requires CanGraft(g, n, s, base, q, n', t) && MaxAll(n', t) && p in t.at
    ensures Has(n', Grafted(s, q, t), p) && MaxOk(n', Grafted(s, q, t), p)
  {
    var u := Grafted(s, q, t);
    assert NamedOk(g, n', t, p) && u.at[p] == t.at[p];
    if !BodyAt(n', t, p).Leaf? {
      LastChildIsChild(g, n', t, q, p);
      assert u.at[LastChild(n', t, p)] == t.at[LastChild(n', t, p)];
    }
    KeepsMax(n', t, n', u, p);
  }

  lemma {:induction false} GraftMaxOutside(g: Geometry, n: Nodes, s: Shape, base: Path, q: Path, n': Nodes, t: Shape,
                                           p: Path)
    requires CanGraft(g, n, s, base, q, n', t) && MaxAll(n, s) && p in s.at && !(q <= p)
    ensures Has(n', Grafted(s, q, t), p)
    ensures MaxOk(n', Grafted(s, q, t), p) || IsLastChild(n', Grafted(s, q, t), p, q)
    ensures MaxLeafOf(s.at[q], n'[s.at[q]]) == MaxLeafOf(s.at[q], n[s.at[q]]) ==> MaxOk(n', Grafted(s, q, t), p)
  {
    var u := Grafted(s, q, t);
    KeptOutside(g, n, s, base, q, n', t, p);
    assert NamedOk(g, n, s, p) && n'[s.at[p]] == n[s.at[p]];
    if !BodyAt(n, s, p).Leaf? {
      LastChildIsChild(g, n, s, base, p);
      var d := LastChild(n, s, p);
      ChildIsLonger(g, n, s, base, d);
      if q <= d && d != q {
        LinkInside(g, n, s, base, q, d);
      }
      KeptOutside(g, n, s, base, q, n', t, d);
      if d != q {
        assert NamedOk(g, n, s, d) && n'[s.at[d]] == n[s.at[d]];
        KeepsMax(n, s, n', u, p);
      } else if MaxLeafOf(s.at[q], n'[s.at[q]]) == MaxLeafOf(s.at[q], n[s.at[q]]) {
        KeepsMax(n, s, n', u, p);
      }
    }
  }

  lemma {:induction false} GraftHides(g: Geometry, n: Nodes, s: Shape, base: Path, q: Path, n': Nodes, t: Shape)
    requires CanGraft(g, n, s, base, q, n', t) && JumpsHide(n, s) && JumpsHide(n', t)
    ensures JumpsHide(n', Grafted(s, q, t))
  {
    var u := Grafted(s, q, t);
    forall p | Has(n', u, p)
      ensures JumpChildHides(n', u, p)
    {
      if p in t.at {
        assert NamedOk(g, n', t, p) && JumpChildHides(n', t, p);
      } else {
        GraftHidesOutside(g, n, s, base, q, n', t, p);
      }
    }
  }

  lemma {:induction false} GraftHidesOutside(g: Geometry, n: Nodes, s: Shape, base: Path, q: Path, n': Nodes,
                                             t: Shape, p: Path)
    requires CanGraft(g, n, s, base, q, n', t) && JumpsHide(n, s) && p in s.at && !(q <= p)
    ensures Has(n', Grafted(s, q, t), p) && JumpChildHides(n', Grafted(s, q, t), p)
  {
    KeptOutside(g, n, s, base, q, n', t, p);
    assert NamedOk(g, n, s, p) && n'[s.at[p]] == n[s.at[p]];
    assert JumpChildHides(n, s, p);
    if BodyAt(n, s, p).Jump? {
      LastChildIsChild(g, n, s, base, p);
      var d := LastChild(n, s, p);
      ChildIsLonger(g, n, s, base, d);
      if q <= d && d != q {
        LinkInside(g, n, s, base, q, d);
      }
      KeptOutside(g, n, s, base, q, n', t, d);
    }
  }

  lemma {:induction false} GraftLeaves(g: Geometry, n: Nodes, s: Shape, base: Path, q: Path, n': Nodes, t: Shape,
                                       p: Path)
    requires CanGraft(g, n, s, base, q, n', t)
    ensures IsLeaf(n', Grafted(s, q, t), p) <==> (IsLeaf(n', t, p) || (IsLeaf(n, s, p) && !(q <= p)))
    ensures IsLeaf(n', Grafted(s, q, t), p) ==>
              Grafted(s, q, t).at[p] == if q <= p then t.at[p] else s.at[p]
  {
    var u := Grafted(s, q, t);
    if p in t.at {
      assert NamedOk(g, n', t, p);
      assert u.at[p] == t.at[p];
    } else if p in s.at && !(q <= p) {
      assert NamedOk(g, n, s, p);
      assert u.at[p] == s.at[p] && n'[s.at[p]] == n[s.at[p]];
    } else {
      assert p !in u.at;
    }
  }

  lemma {:induction false} AddChildMax(g: Geometry, n: Nodes, s: Shape, base: Path, q: Path, x: Symbol, l: Loc,
                                       n': Nodes)
    requires CanAddChild(g, n, s, base, q, x, l, n') && MaxAll(n, s)
    requires forall p :: Has(n, s, p) && p != q ==> SameMax(n, s, n', s, p)
    requires BodyAt(n', s, q).maxLeaf == if BodyAt(n, s, q).maxChild < x then l else BodyAt(n, s, q).maxLeaf
    ensures MaxBut(n', WithChild(s, q, x, l), q)
  {
    AddChild(g, n, s, base, q, x, l, n');
    var t := WithChild(s, q, x, l);
    forall p | Has(n', t, p)
      ensures MaxOk(n', t, p) || IsLastChild(n', t, p, q)
    {
      if p != q + [x] {
        AddChildMaxOne(g, n, s, base, q, x, l, n', p);
      }
    }
  }

  lemma {:induction false} AddChildMaxOne(g: Geometry, n: Nodes, s: Shape, base: Path, q: Path, x: Symbol, l: Loc,
                                          n': Nodes, p: Path)
    requires CanAddChild(g, n, s, base, q, x, l, n') && MaxAll(n, s) && p in s.at && q + [x] !in s.at
    requires forall p :: Has(n, s, p) && p != q ==> SameMax(n, s, n', s, p)
    requires BodyAt(n', s, q).maxLeaf == if BodyAt(n, s, q).maxChild < x then l else BodyAt(n, s, q).maxLeaf
    ensures var t := WithChild(s, q, x, l);
            Has(n', t, p) && (MaxOk(n', t, p) || IsLastChild(n', t, p, q))
  {
    var t := WithChild(s, q, x, l);
    assert NamedOk(g, n, s, p) && NamedOk(g, n, s, q);
    AddChildNames(g, n, s, base, q, x, l, n');
    if p == q {
      MarkedMax(g, n, s, base, q, x, l, n');
    } else {
      assert s.at[p] != s.at[q] && SameMax(n, s, n', s, p);
      if !BodyAt(n, s, p).Leaf? {
        LastChildIsChild(g, n, s, base, p);
        var d := LastChild(n, s, p);
        if d != q {
          assert SameMax(n, s, n', s, d);
          KeepsMax(n, s, n', t, p);
        }
      }
    }
  }

  lemma {:induction false} MarkedMax(g: Geometry, n: Nodes, s: Shape, base: Path, q: Path, x: Symbol, l: Loc, n': Nodes)
    requires CanAddChild(g, n, s, base, q, x, l, n') && MaxAll(n, s) && q + [x] !in s.at
    requires forall p :: Has(n, s, p) && p != q ==> SameMax(n, s, n', s, p)
    requires BodyAt(n', s, q).maxLeaf == if BodyAt(n, s, q).maxChild < x then l else BodyAt(n, s, q).maxLeaf
    ensures Has(n', WithChild(s, q, x, l), q) && MaxOk(n', WithChild(s, q, x, l), q)
  {
    LastChildIsChild(g, n, s, base, q);
    assert MaxOk(n, s, q);
    var d := LastChild(n, s, q);
    assert d != q && NamedOk(g, n, s, q);
    assert SameMax(n, s, n', s, d);
  }

  lemma {:induction false} AddChildHides(g: Geometry, n: Nodes, s: Shape, base: Path, q: Path, x: Symbol, l: Loc,
                                         n': Nodes)
    requires CanAddChild(g, n, s, base, q, x, l, n') && JumpsHide(n, s)
    ensures JumpsHide(n', WithChild(s, q, x, l))
  {
    AddChild(g, n, s, base, q, x, l, n');
    var t := WithChild(s, q, x, l);
    forall p | Has(n', t, p)
      ensures JumpChildHides(n', t, p)
    {
      if p != q + [x] && BodyAt(n', t, p).Jump? {
        assert NamedOk(g, n, s, p) && NamedOk(g, n, s, q);
        assert p != q && s.at[p] != s.at[q];
        assert JumpChildHides(n, s, p);
        LastChildIsChild(g, n, s, base, p);
      }
    }
  }

  // ------------------------------------------------------------------
  // max_leaf fields and parent colours of a subtree with a new root
  // ------------------------------------------------------------------

  lemma {:induction false} MaxAbove(g: Geometry, n: Nodes, s: Shape, c: Path, p: Path, l: Loc)
    requires Subtree(g, n, s, c) && LeadsTo(n, s, c, p, l) && l !in s.of && p !in s.up
    requires MaxAll(n, s) && MaxLeafOf(l, n[l]) == MaxLeafOf(s.at[c], n[s.at[c]])
    ensures MaxAll(n, Above(s, c, p, l))
  {
    var t := Above(s, c, p, l);
    assert forall q :: q in s.at ==> q != p;
    forall q | Has(n, t, q)
      ensures MaxOk(n, t, q)
    {
      if q == p {
        assert n[l].body.Bitmap? ==> c == p + [c[|p|]];
      } else {
        if !BodyAt(n, s, q).Leaf? {
          LastChildIsChild(g, n, s, c, q);
        }
        KeepsMax(n, s, n, t, q);
      }
    }
  }

  lemma {:induction false} HidesAbove(g: Geometry, n: Nodes, s: Shape, c: Path, p: Path, l: Loc)
    requires Subtree(g, n, s, c) && LeadsTo(n, s, c, p, l) && l !in s.of && p !in s.up
    requires JumpsHide(n, s) && (n[l].body.Jump? ==> n[s.at[c]].parentColor == INVALID_COLOR)
    ensures JumpsHide(n, Above(s, c, p, l))
  {
    var t := Above(s, c, p, l);
    assert forall q :: q in s.at ==> q != p;
    forall q | Has(n, t, q)
      ensures JumpChildHides(n, t, q)
    {
      if q != p {
        assert JumpChildHides(n, s, q);
        if BodyAt(n, s, q).Jump? {
          LastChildIsChild(g, n, s, c, q);
        }
      }
    }
  }

  // ------------------------------------------------------------------
  // A bitmap with two leaves
  // ------------------------------------------------------------------

  ghost function Fork(c: Path, x: Symbol, y: Symbol, l: Loc, a: Loc, b: Loc): Shape {
    Shape(map[c := l, c + [x] := a, c + [y] := b], map[l := c, a := c + [x], b := c + [y]],
          map[c + [x] := c, c + [y] := c])
  }

  ghost predicate IsFork(g: Geometry, n: Nodes, c: Path, x: Symbol, y: Symbol, l: Loc, a: Loc, b: Loc) {
    && x < y && SYMBOL_END !in c && l in n && a in n && b in n && l != a && l != b
    && n[l].body == Bitmap({x, y}, y, b)
    && n[a].body.Leaf? && n[a].lastSymbol == x && n[a].parentColor == l.color && c + [x] <= Symbols(n[a].body.kv.key)
    && n[b].body.Leaf? && n[b].lastSymbol == y && n[b].parentColor == l.color && c + [y] <= Symbols(n[b].body.kv.key)
    && l.hash == HashOf(g, c) && a.hash == HashOf(g, c + [x]) && b.hash == HashOf(g, c + [y])
    && l.color <= MAX_VALID_COLOR && a.color <= MAX_VALID_COLOR && b.color <= MAX_VALID_COLOR
  }

  lemma {:induction false} ForkIsTree(g: Geometry, n: Nodes, c: Path, x: Symbol, y: Symbol, l: Loc, a: Loc, b: Loc)
    requires IsFork(g, n, c, x, y, l, a, b) && a != b
    ensures Subtree(g, n, Fork(c, x, y, l, a, b), c) && MaxAll(n, Fork(c, x, y, l, a, b))
            && JumpsHide(n, Fork(c, x, y, l, a, b))
  {
    ForkSubtree(g, n, c, x, y, l, a, b);
    ForkMax(g, n, c, x, y, l, a, b);
  }

  lemma {:induction false} ForkMax(g: Geometry, n: Nodes, c: Path, x: Symbol, y: Symbol, l: Loc, a: Loc, b: Loc)
    requires IsFork(g, n, c, x, y, l, a, b) && a != b
    ensures MaxAll(n, Fork(c, x, y, l, a, b)) && JumpsHide(n, Fork(c, x, y, l, a, b))
  {
    ForkPaths(c, x, y);
  }

  lemma {:induction false} ForkSubtree(g: Geometry, n: Nodes, c: Path, x: Symbol, y: Symbol, l: Loc, a: Loc, b: Loc)
    requires IsFork(g, n, c, x, y, l, a, b) && a != b
    ensures Subtree(g, n, Fork(c, x, y, l, a, b), c)
  {
    ForkNodes(g, n, c, x, y, l, a, b);
    ForkPaths(c, x, y);
    ForkNames(g, n, c, x, y, l, a, b);
    hide NodeOk, NamedOk, Linked;
  }

  lemma {:induction false} ForkNames(g: Geometry, n: Nodes, c: Path, x: Symbol, y: Symbol, l: Loc, a: Loc, b: Loc)
    requires IsFork(g, n, c, x, y, l, a, b) && a != b
    ensures var s := Fork(c, x, y, l, a, b);
            && NamedOk(g, n, s, c) && NamedOk(g, n, s, c + [x]) && NamedOk(g, n, s, c + [y])
            && Linked(n, s, c + [x]) && Linked(n, s, c + [y])
  {
    ForkPaths(c, x, y);
  }

  lemma {:induction false} ForkNodes(g: Geometry, n: Nodes, c: Path, x: Symbol, y: Symbol, l: Loc, a: Loc, b: Loc)
    requires IsFork(g, n, c, x, y, l, a, b) && a != b
    ensures var s := Fork(c, x, y, l, a, b); NodeOk(n, s, c) && NodeOk(n, s, c + [x]) && NodeOk(n, s, c + [y])
  {
    ForkPaths(c, x, y);
    assert BitmapChildOk(n, Fork(c, x, y, l, a, b), c, x) && BitmapChildOk(n, Fork(c, x, y, l, a, b), c, y);
  }

  lemma {:induction false} ForkPaths(c: Path, x: Symbol, y: Symbol)
    requires x < y
    ensures c + [x] != c + [y] && c + [x] != c && c + [y] != c && c <= c + [x] && c <= c + [y]
    ensures (c + [x])[|c|] == x && (c + [y])[|c|] == y
  {
  }

  // A subtree with a new root above it.
  lemma {:induction false} RaiseRoot(g: Geometry, n: Nodes, s: Shape, c: Path, p: Path, l: Loc)
    requires Subtree(g, n, s, c) && MaxAll(n, s) && JumpsHide(n, s)
    requires LeadsTo(n, s, c, p, l) && l !in s.of && p !in s.up
    requires l.hash == HashOf(g, p) && l.color <= MAX_VALID_COLOR
    requires MaxLeafOf(l, n[l]) == MaxLeafOf(s.at[c], n[s.at[c]])
    requires n[l].body.Jump? ==> n[s.at[c]].parentColor == INVALID_COLOR
    ensures var t := Above(s, c, p, l); Subtree(g, n, t, p) && MaxAll(n, t) && JumpsHide(n, t)
  {
    RootAbove(g, n, s, c, p, l);
    MaxAbove(g, n, s, c, p, l);
    HidesAbove(g, n, s, c, p, l);
  }

  // The parent's colour in the root of a subtree is not part of the subtree.
  lemma {:induction false} RecolorRoot(g: Geometry, n: Nodes, s: Shape, base: Path, color: nat)
    requires Subtree(g, n, s, base) && MaxAll(n, s) && JumpsHide(n, s)
    ensures var l := s.at[base];
            var n' := n[l := n[l].(parentColor := color)];
            Subtree(g, n', s, base) && MaxAll(n', s) && JumpsHide(n', s)
  {
    var l := s.at[base];
    var n' := n[l := n[l].(parentColor := color)];
    forall p | p in s.at
      ensures NamedOk(g, n', s, p) && NodeOk(n', s, p) && (p != base ==> Linked(n', s, p))
      ensures JumpChildHides(n', s, p) && MaxOk(n', s, p)
    {
      RecolorOne(g, n, s, base, color, p);
    }
  }

  lemma {:induction false} RecolorOne(g: Geometry, n: Nodes, s: Shape, base: Path, color: nat, p: Path)
    requires Subtree(g, n, s, base) && MaxAll(n, s) && JumpsHide(n, s) && p in s.at
    ensures var l := s.at[base];
            var n' := n[l := n[l].(parentColor := color)];
            && NamedOk(g, n', s, p) && NodeOk(n', s, p) && (p != base ==> Linked(n', s, p))
            && JumpChildHides(n', s, p) && MaxOk(n', s, p)
  {
    var l := s.at[base];
    var n' := n[l := n[l].(parentColor := color)];
    assert NamedOk(g, n, s, p) && JumpChildHides(n, s, p) && MaxOk(n, s, p);
    forall d | d in s.at && d in s.up && s.up[d] == p
      ensures Kept(n, s, n', s, d)
    {
      assert s.of[s.at[d]] == d && s.of[l] == base;
    }
    KeepsNode(n, s, n', s, p);
    if p != base {
      assert Linked(n, s, p);
      assert s.of[s.at[p]] == p && s.of[l] == base;
      KeepsLink(n, s, n', s, p);
    }
    if !BodyAt(n, s, p).Leaf? {
      LastChildIsChild(g, n, s, base, p);
      assert s.of[s.at[LastChild(n, s, p)]] == LastChild(n, s, p);
      KeepsMax(n, s, n', s, p);
    }
  }
}
