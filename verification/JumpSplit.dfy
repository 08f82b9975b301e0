// Splitting a jump node at a symbol inside it: a shorter jump, a bitmap and the tail
// of the old jump lead to the same leaves as before.
module JumpSplit {
  import opened Keys
  import opened Hashing
  import opened Store
  import opened Structure
  import opened Steps

  // The jump node at p is to be split before its symbol d.
  ghost predicate SplitAt(n: Nodes, s: Shape, p: Path, d: nat) {
    Has(n, s, p) && BodyAt(n, s, p).Jump? && d < |BodyAt(n, s, p).symbols|
  }

  ghost function OldSymbols(n: Nodes, s: Shape, p: Path, d: nat): Path
    requires SplitAt(n, s, p, d)
  {
    BodyAt(n, s, p).symbols
  }

  // The prefix of the bitmap.
  ghost function ForkPath(n: Nodes, s: Shape, p: Path, d: nat): Path
    requires SplitAt(n, s, p, d)
  {
    p + BodyAt(n, s, p).symbols[..d]
  }

  // The prefix of the old jump's child.
  ghost function EndPath(n: Nodes, s: Shape, p: Path, d: nat): Path
    requires SplitAt(n, s, p, d)
  {
    p + BodyAt(n, s, p).symbols
  }

  ghost predicate HasTail(n: Nodes, s: Shape, p: Path, d: nat)
    requires SplitAt(n, s, p, d)
  {
    d + 1 < |BodyAt(n, s, p).symbols|
  }

  function ForkBody(x: Symbol, maxLeaf: Loc): Body {
    Bitmap({x}, x, maxLeaf)
  }

  // What replaces the old jump node: its first d symbols, or the bitmap itself.
  function NewHead(node: Node, d: nat, bitmapColor: nat): Node
    requires node.body.Jump? && d < |node.body.symbols|
  {
    if d == 0 then node.(body := ForkBody(node.body.symbols[0], node.body.jumpMaxLeaf))
    else node.(body := Jump(node.body.symbols[..d], bitmapColor, node.body.jumpMaxLeaf))
  }

  function NewBitmap(node: Node, d: nat): Node
    requires node.body.Jump? && 0 < d < |node.body.symbols|
  {
    Node(INVALID_COLOR, node.body.symbols[d - 1], ForkBody(node.body.symbols[d], node.body.jumpMaxLeaf))
  }

  function NewTail(node: Node, d: nat, bitmapColor: nat): Node
    requires node.body.Jump? && d + 1 < |node.body.symbols|
  {
    Node(bitmapColor, node.body.symbols[d],
         Jump(node.body.symbols[d + 1..], node.body.childColor, node.body.jumpMaxLeaf))
  }

  // The bitmap is new, or takes the place of the jump node.
  ghost predicate BitmapStored(g: Geometry, n: Nodes, s: Shape, p: Path, d: nat, b: Loc, m: Nodes)
    requires SplitAt(n, s, p, d)
  {
    if d == 0 then b == s.at[p]
    else b !in n && b.hash == HashOf(g, ForkPath(n, s, p, d)) && b.color <= MAX_VALID_COLOR
         && b in m && m[b] == NewBitmap(n[s.at[p]], d)
  }

  // The tail is new, or the old jump's child takes the colour of the bitmap.
  ghost predicate TailStored(g: Geometry, n: Nodes, s: Shape, p: Path, d: nat, b: Loc, t: Loc, m: Nodes)
    requires SplitAt(n, s, p, d)
  {
    if HasTail(n, s, p, d) then
      t !in n && t != b && t.hash == HashOf(g, ForkPath(n, s, p, d) + [OldSymbols(n, s, p, d)[d]])
      && t.color <= MAX_VALID_COLOR && t in m && m[t] == NewTail(n[s.at[p]], d, b.color)
    else
      Has(n, s, EndPath(n, s, p, d))
      && var l := s.at[EndPath(n, s, p, d)]; l in m && m[l] == n[l].(parentColor := b.color)
  }

  ghost function NewLocs(n: Nodes, s: Shape, p: Path, d: nat, b: Loc, t: Loc): set<Loc>
    requires SplitAt(n, s, p, d)
  {
    (if d == 0 then {} else {b}) + (if HasTail(n, s, p, d) then {t} else {})
  }

  // All stores of the split were done, and no others.
  ghost predicate SplitStored(g: Geometry, n: Nodes, s: Shape, p: Path, d: nat, b: Loc, t: Loc, m: Nodes) {
    && SplitAt(n, s, p, d) && BitmapStored(g, n, s, p, d, b, m) && TailStored(g, n, s, p, d, b, t, m)
    && s.at[p] in m && m[s.at[p]] == NewHead(n[s.at[p]], d, b.color)
    && m.Keys == n.Keys + NewLocs(n, s, p, d, b, t)
    && forall l :: l in n && l != s.at[p] && (HasTail(n, s, p, d) || EndPath(n, s, p, d) !in s.at
                                              || l != s.at[EndPath(n, s, p, d)]) ==>
         l in m && m[l] == n[l]
  }

  // The old child of the jump node and what is below it.
  lemma {:induction false} OldEnd(g: Geometry, n: Nodes, s: Shape, p: Path, d: nat)
    requires Sound(g, n, s) && MaxAll(n, s) && SplitAt(n, s, p, d)
    ensures var e := EndPath(n, s, p, d);
            && Has(n, s, e) && p < e && e in s.up && s.up[e] == p && !BodyAt(n, s, e).Leaf?
            && n[s.at[e]].parentColor == INVALID_COLOR && n[s.at[e]].lastSymbol == e[|e| - 1]
            && s.at[e].color == BodyAt(n, s, p).childColor && SYMBOL_END !in e
            && BodyAt(n, s, p).jumpMaxLeaf == MaxLeafOf(s.at[e], n[s.at[e]])
            && |BodyAt(n, s, p).symbols| <= MAX_JUMP_SYMBOLS && SYMBOL_END !in BodyAt(n, s, p).symbols
               && SYMBOL_END !in p
            && s.at[p].hash == HashOf(g, p) && s.at[p].color <= MAX_VALID_COLOR
  {
    assert NodeOk(n, s, p) && MaxOk(n, s, p) && JumpChildHides(n, s, p) && NamedOk(g, n, s, p);
    var symbols := BodyAt(n, s, p).symbols;
    assert JumpChildOk(n, s, p, symbols, BodyAt(n, s, p).childColor);
    assert (p + symbols)[|p + symbols| - 1] == symbols[|symbols| - 1];
  }

  // The subtree below the old jump node is a subtree of the new table.
  lemma {:induction false} BelowStays(g: Geometry, n: Nodes, s: Shape, p: Path, d: nat, b: Loc, t: Loc, m: Nodes)
    requires Sound(g, n, s) && MaxAll(n, s) && SplitStored(g, n, s, p, d, b, t, m)
    ensures var e := EndPath(n, s, p, d); var u := At(s, e);
            && Subtree(g, m, u, e) && MaxAll(m, u) && JumpsHide(m, u) && e in u.at && u.at[e] == s.at[e]
            && u.of.Keys <= s.of.Keys && s.at[p] !in u.of
            && (forall q :: q in u.up ==> |q| > |e|)
            && Has(n, s, e) && m[s.at[e]] == if HasTail(n, s, p, d) then n[s.at[e]]
               else n[s.at[e]].(parentColor := b.color)
  {
    OldEnd(g, n, s, p, d);
    var e := EndPath(n, s, p, d);
    var u := At(s, e);
    TakeSubtree(g, n, s, [], e);
    TakeMax(g, n, s, [], e);
    if HasTail(n, s, p, d) {
      BelowSame(g, n, u, e, m);
    } else {
      RecolorRoot(g, n, u, e, b.color);
      BelowSame(g, n[s.at[e] := n[s.at[e]].(parentColor := b.color)], u, e, m);
    }
  }

  lemma {:induction false} BelowSame(g: Geometry, n: Nodes, u: Shape, e: Path, m: Nodes)
    requires Subtree(g, n, u, e) && MaxAll(n, u) && JumpsHide(n, u) && forall l :: l in u.of && l in n ==>
               l in m && m[l] == n[l]
    ensures Subtree(g, m, u, e) && MaxAll(m, u) && JumpsHide(m, u)
  {
    SubtreeFrame(g, n, u, m, e);
    forall q | Has(m, u, q)
      ensures MaxOk(m, u, q) && JumpChildHides(m, u, q)
    {
      assert NamedOk(g, n, u, q) && MaxOk(n, u, q) && JumpChildHides(n, u, q);
      if !BodyAt(n, u, q).Leaf? {
        LastChildIsChild(g, n, u, e, q);
      }
    }
  }

  lemma {:induction false} TakeMax(g: Geometry, n: Nodes, s: Shape, base: Path, c: Path)
    requires Subtree(g, n, s, base) && MaxAll(n, s) && JumpsHide(n, s) && c in s.at
    ensures MaxAll(n, At(s, c)) && JumpsHide(n, At(s, c))
  {
    TakeSubtree(g, n, s, base, c);
    var u := At(s, c);
    forall q | Has(n, u, q)
      ensures MaxOk(n, u, q) && JumpChildHides(n, u, q)
    {
      assert MaxOk(n, s, q) && JumpChildHides(n, s, q);
      if !BodyAt(n, u, q).Leaf? {
        LastChildIsChild(g, n, u, c, q);
      }
    }
  }

  // The tail and what is below it, or just the latter.
  ghost function TailShape(n: Nodes, s: Shape, p: Path, d: nat, t: Loc): Shape
    requires SplitAt(n, s, p, d)
  {
    var u, c := At(s, EndPath(n, s, p, d)), ForkPath(n, s, p, d) + [BodyAt(n, s, p).symbols[d]];
    if HasTail(n, s, p, d) then Above(u, EndPath(n, s, p, d), c, t) else u
  }

  lemma {:induction false} SplitPaths(p: Path, symbols: Path, d: nat)
    requires d < |symbols|
    ensures var c := p + symbols[..d];
            && c + [symbols[d]] <= p + symbols && |c + [symbols[d]]| == |c| + 1
            && (c + [symbols[d]])[|c|] == symbols[d]
            && c + [symbols[d]] + symbols[d + 1..] == p + symbols
            && p <= c && |c| == |p| + d
            && (d + 1 == |symbols| ==> c + [symbols[d]] == p + symbols)
            && (d == 0 ==> c == p)
            && (d > 0 ==> c[|c| - 1] == symbols[d - 1])
  {
    var c := p + symbols[..d];
    assert symbols == symbols[..d] + [symbols[d]] + symbols[d + 1..];
    assert c + [symbols[d]] + symbols[d + 1..] == p + symbols;
  }

  lemma {:induction false} RaiseTail(g: Geometry, n: Nodes, s: Shape, p: Path, d: nat, b: Loc, t: Loc, m: Nodes)
    requires Sound(g, n, s) && MaxAll(n, s) && SplitStored(g, n, s, p, d, b, t, m) && s.of.Keys <= n.Keys
    ensures var u := TailShape(n, s, p, d, t); var symbols := BodyAt(n, s, p).symbols;
            var c := ForkPath(n, s, p, d) + [symbols[d]];
            && Subtree(g, m, u, c) && MaxAll(m, u) && JumpsHide(m, u) && Has(m, u, c)
            && m[u.at[c]].lastSymbol == symbols[d] && m[u.at[c]].parentColor == b.color
            && MaxLeafOf(u.at[c], m[u.at[c]]) == BodyAt(n, s, p).jumpMaxLeaf
            && (forall q :: q in u.up ==> |q| > |c|)
            && u.of.Keys == At(s, EndPath(n, s, p, d)).of.Keys + (if HasTail(n, s, p, d) then {t} else {})
            && s.at[p] !in u.of && !m[u.at[c]].body.Leaf?
  {
    hide Subtree, MaxOk, BitmapStored;
    OldEnd(g, n, s, p, d);
    BelowStays(g, n, s, p, d, b, t, m);
    var symbols := BodyAt(n, s, p).symbols;
    SplitPaths(p, symbols, d);
    if HasTail(n, s, p, d) {
      var e := EndPath(n, s, p, d);
      var c := ForkPath(n, s, p, d) + [symbols[d]];
      assert forall z :: z in symbols[d + 1..] ==> z in symbols;
      assert forall z :: z in c ==> z in e;
      RaiseRoot(g, m, At(s, e), e, c, t);
    }
  }

  // The bitmap above the tail.
  ghost function ForkShape(n: Nodes, s: Shape, p: Path, d: nat, b: Loc, t: Loc): Shape
    requires SplitAt(n, s, p, d)
  {
    Above(TailShape(n, s, p, d, t), ForkPath(n, s, p, d) + [BodyAt(n, s, p).symbols[d]], ForkPath(n, s, p, d), b)
  }

  lemma {:induction false} RaiseBitmap(g: Geometry, n: Nodes, s: Shape, p: Path, d: nat, b: Loc, t: Loc, m: Nodes)
    requires Sound(g, n, s) && MaxAll(n, s) && SplitStored(g, n, s, p, d, b, t, m) && s.of.Keys <= n.Keys
    ensures var u := ForkShape(n, s, p, d, b, t); var c := ForkPath(n, s, p, d);
            && Subtree(g, m, u, c) && MaxAll(m, u) && JumpsHide(m, u) && Has(m, u, c) && u.at[c] == b
            && m[b].body == ForkBody(BodyAt(n, s, p).symbols[d], BodyAt(n, s, p).jumpMaxLeaf)
            && (forall q :: q in u.up ==> |q| > |c|)
            && u.of.Keys == TailShape(n, s, p, d, t).of.Keys + {b}
  {
    hide Subtree, MaxAll, JumpsHide, TailShape, Tree, Sound, NewLocs, HashOf;
    RaiseTail(g, n, s, p, d, b, t, m);
    OldEnd(g, n, s, p, d);
    var symbols := BodyAt(n, s, p).symbols;
    var u, c := TailShape(n, s, p, d, t), ForkPath(n, s, p, d);
    SplitPaths(p, symbols, d);
    assert forall z :: z in c ==> z in EndPath(n, s, p, d);
    assert b !in u.of;
    RaiseRoot(g, m, u, c + [symbols[d]], c, b);
  }

  // The whole new subtree at p.
  ghost function SplitShape(n: Nodes, s: Shape, p: Path, d: nat, b: Loc, t: Loc): Shape
    requires SplitAt(n, s, p, d)
  {
    if d == 0 then ForkShape(n, s, p, d, b, t)
    else Above(ForkShape(n, s, p, d, b, t), ForkPath(n, s, p, d), p, s.at[p])
  }

  lemma {:induction false} RaiseHead(g: Geometry, n: Nodes, s: Shape, p: Path, d: nat, b: Loc, t: Loc, m: Nodes)
    requires Sound(g, n, s) && MaxAll(n, s) && SplitStored(g, n, s, p, d, b, t, m) && s.of.Keys <= n.Keys
    ensures var u := SplitShape(n, s, p, d, b, t);
            && Subtree(g, m, u, p) && MaxAll(m, u) && JumpsHide(m, u) && Has(m, u, p) && u.at[p] == s.at[p]
            && MaxLeafOf(s.at[p], m[s.at[p]]) == BodyAt(n, s, p).jumpMaxLeaf
            && u.of.Keys == At(s, EndPath(n, s, p, d)).of.Keys + {s.at[p]} + NewLocs(n, s, p, d, b, t)
  {
    hide Subtree, MaxAll, JumpsHide, At, TailStored, Sound, BodyAt;
    RaiseTail(g, n, s, p, d, b, t, m);
    RaiseBitmap(g, n, s, p, d, b, t, m);
    SplitPaths(p, BodyAt(n, s, p).symbols, d);
    if d > 0 {
      HeadLeads(g, n, s, p, d, b, t, m);
      RaiseRoot(g, m, ForkShape(n, s, p, d, b, t), ForkPath(n, s, p, d), p, s.at[p]);
    }
  }

  lemma {:induction false} HeadLeads(g: Geometry, n: Nodes, s: Shape, p: Path, d: nat, b: Loc, t: Loc, m: Nodes)
    requires Sound(g, n, s) && MaxAll(n, s) && SplitStored(g, n, s, p, d, b, t, m) && d > 0 && s.of.Keys <= n.Keys
    requires var u, c := ForkShape(n, s, p, d, b, t), ForkPath(n, s, p, d);
             Has(m, u, c) && u.at[c] == b && m[b].body.Bitmap? && u.of.Keys == TailShape(n, s, p, d, t).of.Keys + {b}
    requires s.at[p] !in TailShape(n, s, p, d, t).of
    ensures LeadsTo(m, ForkShape(n, s, p, d, b, t), ForkPath(n, s, p, d), p, s.at[p])
    ensures s.at[p] !in ForkShape(n, s, p, d, b, t).of
    ensures s.at[p].hash == HashOf(g, p) && s.at[p].color <= MAX_VALID_COLOR && m[b].parentColor == INVALID_COLOR
  {
    OldEnd(g, n, s, p, d);
    var symbols := BodyAt(n, s, p).symbols;
    SplitPaths(p, symbols, d);
    assert forall z :: z in symbols[..d] ==> z in symbols;
    assert b != s.at[p];
  }

  // ------------------------------------------------------------------
  // The trie after the split
  // ------------------------------------------------------------------

  // The prefixes of the new nodes, when the jump leads on from c with the symbols from d on.
  ghost function JumpNodes(c: Path, symbols: Path, d: nat): set<Path>
    requires d < |symbols|
  {
    (if d > 0 then {c} else {}) + (if d + 1 < |symbols| then {c + [symbols[d]]} else {})
  }

  // The split adds nodes for these prefixes.
  ghost predicate SplitAdds(n: Nodes, s: Shape, p: Path, d: nat, b: Loc, t: Loc, paths: set<Path>) {
    SplitAt(n, s, p, d) && Grafted(s, p, SplitShape(n, s, p, d, b, t)).at.Keys == s.at.Keys + paths
  }

  lemma {:induction false} PathsOfSplit(g: Geometry, n: Nodes, s: Shape, p: Path, d: nat, b: Loc, t: Loc)
    requires Sound(g, n, s) && MaxAll(n, s) && SplitAt(n, s, p, d)
    ensures SplitAdds(n, s, p, d, b, t, JumpNodes(ForkPath(n, s, p, d), OldSymbols(n, s, p, d), d))
  {
    hide Subtree, MaxAll, JumpsHide;
    var e := EndPath(n, s, p, d);
    forall q | q in s.at && p <= q
      ensures q == p || e <= q
    {
      BelowJump(g, n, s, p, d, q);
    }
    OldEnd(g, n, s, p, d);
    SplitPaths(p, OldSymbols(n, s, p, d), d);
  }

  // None of them has a node yet, nor has any other way out of the jump.
  lemma {:induction false} NewInJump(g: Geometry, n: Nodes, s: Shape, p: Path, d: nat, x: Symbol)
    requires Sound(g, n, s) && SplitAt(n, s, p, d) && x != OldSymbols(n, s, p, d)[d]
    ensures var c := ForkPath(n, s, p, d);
            s.at.Keys !! JumpNodes(c, OldSymbols(n, s, p, d), d) + {c + [x]}
  {
    hide Subtree, JumpsHide;
    var c, e, symbols := ForkPath(n, s, p, d), EndPath(n, s, p, d), OldSymbols(n, s, p, d);
    SplitPaths(p, symbols, d);
    assert e[|c|] == symbols[d] && (c + [x])[|c|] == x;
    forall q | q in JumpNodes(c, symbols, d) + {c + [x]}
      ensures q !in s.at
    {
      if q in s.at {
        BelowJump(g, n, s, p, d, q);
      }
    }
  }

  // What each root-to-leaf path leads to.
  ghost function LeafPaths(n: Nodes, s: Shape): map<Path, Body> {
    map p | p in s.at && IsLeaf(n, s, p) :: BodyAt(n, s, p)
  }

  // Whatever is below p and not at p is below the old jump's child.
  lemma {:induction false} BelowJump(g: Geometry, n: Nodes, s: Shape, p: Path, d: nat, q: Path)
    requires Sound(g, n, s) && SplitAt(n, s, p, d) && q in s.at && p <= q
    ensures q == p || EndPath(n, s, p, d) <= q
  {
    if q != p {
      var c := Toward(g, n, s, [], p, q);
    }
  }

  lemma {:induction false} SplitGrafts(g: Geometry, n: Nodes, s: Shape, p: Path, d: nat, b: Loc, t: Loc, m: Nodes)
    requires Findable(g, n, s) && MaxAll(n, s) && SplitStored(g, n, s, p, d, b, t, m)
    ensures var u := SplitShape(n, s, p, d, b, t);
            CanGraft(g, n, s, [], p, m, u) && MaxAll(m, u) && JumpsHide(m, u)
            && MaxLeafOf(s.at[p], m[s.at[p]]) == MaxLeafOf(s.at[p], n[s.at[p]])
  {
    RaiseHead(g, n, s, p, d, b, t, m);
    OldEnd(g, n, s, p, d);
    var u, e := SplitShape(n, s, p, d, b, t), EndPath(n, s, p, d);
    assert SameOutside(n, s, p, m);
    forall l | l in u.of && l in s.of
      ensures p <= s.of[l]
    {
      assert l == s.at[p] || l in At(s, e).of;
    }
  }

  lemma {:induction false} SplitKeepsTrie(g: Geometry, n: Nodes, s: Shape, p: Path, d: nat, b: Loc, t: Loc, m: Nodes)
    requires Findable(g, n, s) && MaxAll(n, s) && SplitStored(g, n, s, p, d, b, t, m)
    ensures var s' := Grafted(s, p, SplitShape(n, s, p, d, b, t)); Findable(g, m, s') && MaxAll(m, s')
  {
    var u := SplitShape(n, s, p, d, b, t);
    SplitGrafts(g, n, s, p, d, b, t, m);
    Graft(g, n, s, [], p, m, u);
    GraftMax(g, n, s, [], p, m, u);
    GraftHides(g, n, s, [], p, m, u);
    SplitKeys(g, n, s, p, d, b, t, m);
    SplitKeepsRoot(g, n, s, p, m, u);
  }

  lemma {:induction false} SplitKeepsRoot(g: Geometry, n: Nodes, s: Shape, p: Path, m: Nodes, u: Shape)
    requires Sound(g, n, s) && CanGraft(g, n, s, [], p, m, u) && m[s.at[p]].parentColor == n[s.at[p]].parentColor
    ensures [] in Grafted(s, p, u).at && Grafted(s, p, u).at[[]] == RootLoc
    ensures RootLoc in m && m[RootLoc].parentColor == INVALID_COLOR
  {
    assert NamedOk(g, n, s, []);
    if [] in u.at {
      assert NamedOk(g, m, u, []);
      assert p == [];
    }
  }

  lemma {:induction false} SplitKeys(g: Geometry, n: Nodes, s: Shape, p: Path, d: nat, b: Loc, t: Loc, m: Nodes)
    requires Findable(g, n, s) && MaxAll(n, s) && SplitStored(g, n, s, p, d, b, t, m)
    ensures NoGarbage(m, Grafted(s, p, SplitShape(n, s, p, d, b, t)))
  {
    RaiseHead(g, n, s, p, d, b, t, m);
    var u, e := SplitShape(n, s, p, d, b, t), EndPath(n, s, p, d);
    var s' := Grafted(s, p, u);
    OldEnd(g, n, s, p, d);
    forall l
      ensures l in m <==> l in s'.of
    {
      if l in s.of {
        if p <= s.of[l] {
          BelowJump(g, n, s, p, d, s.of[l]);
        }
        assert l in At(s, e).of <==> e <= s.of[l];
      }
    }
  }

  // Splitting a jump node keeps the set of root-to-leaf paths and what is at their ends.
  lemma {:induction false} SplitKeepsPaths(g: Geometry, n: Nodes, s: Shape, p: Path, d: nat, b: Loc, t: Loc, m: Nodes)
    requires Findable(g, n, s) && MaxAll(n, s) && SplitStored(g, n, s, p, d, b, t, m)
    ensures LeafPaths(m, Grafted(s, p, SplitShape(n, s, p, d, b, t))) == LeafPaths(n, s)
  {
    hide Subtree, MaxAll, JumpsHide, BitmapStored, TailStored;
    var s' := Grafted(s, p, SplitShape(n, s, p, d, b, t));
    forall q
      ensures IsLeaf(m, s', q) <==> IsLeaf(n, s, q)
      ensures IsLeaf(n, s, q) && IsLeaf(m, s', q) ==> BodyAt(m, s', q) == BodyAt(n, s, q)
    {
      SplitKeepsPath(g, n, s, p, d, b, t, m, q);
    }
  }

  lemma {:induction false} SplitKeepsPath(g: Geometry, n: Nodes, s: Shape, p: Path, d: nat, b: Loc, t: Loc, m: Nodes,
                                          q: Path)
    requires Findable(g, n, s) && MaxAll(n, s) && SplitStored(g, n, s, p, d, b, t, m)
    ensures var s' := Grafted(s, p, SplitShape(n, s, p, d, b, t));
            && (IsLeaf(m, s', q) <==> IsLeaf(n, s, q))
            && (IsLeaf(n, s, q) && IsLeaf(m, s', q) ==> BodyAt(m, s', q) == BodyAt(n, s, q))
  {
    var u := SplitShape(n, s, p, d, b, t);
    SplitGrafts(g, n, s, p, d, b, t, m);
    GraftLeaves(g, n, s, [], p, m, u, q);
    if p <= q {
      SplitLeafPath(g, n, s, p, d, b, t, m, q);
    } else if IsLeaf(n, s, q) {
      assert s.of[s.at[q]] == q;
    }
  }

  // The leaves of the new subtree are those below the old jump's child.
  lemma {:induction false} SplitLeafPath(g: Geometry, n: Nodes, s: Shape, p: Path, d: nat, b: Loc, t: Loc, m: Nodes,
                                         q: Path)
    requires Findable(g, n, s) && MaxAll(n, s) && SplitStored(g, n, s, p, d, b, t, m) && p <= q
    ensures var u := SplitShape(n, s, p, d, b, t);
            && (IsLeaf(m, u, q) <==> IsLeaf(n, s, q))
            && (IsLeaf(n, s, q) && IsLeaf(m, u, q) ==> BodyAt(m, u, q) == BodyAt(n, s, q))
  {
    hide MaxAll, Sound, TailStored, NewHead;
    var u, e := SplitShape(n, s, p, d, b, t), EndPath(n, s, p, d);
    BelowStays(g, n, s, p, d, b, t, m);
    OldEnd(g, n, s, p, d);
    SplitPaths(p, BodyAt(n, s, p).symbols, d);
    if q in s.at {
      BelowJump(g, n, s, p, d, q);
    }
    if e <= q {
      assert q in u.at <==> q in s.at;
      if q in s.at {
        assert u.at[q] == s.at[q];
        assert q != e ==> s.at[q] != s.at[e] && s.at[q] != s.at[p];
      }
    } else {
      assert !IsLeaf(n, s, q);
      NewNodesBranch(g, n, s, p, d, b, t, m, q);
    }
  }

  lemma {:induction false} NewNodesBranch(g: Geometry, n: Nodes, s: Shape, p: Path, d: nat, b: Loc, t: Loc, m: Nodes,
                                          q: Path)
    requires Findable(g, n, s) && MaxAll(n, s) && SplitStored(g, n, s, p, d, b, t, m) && !(EndPath(n, s, p, d) <= q)
    ensures !IsLeaf(m, SplitShape(n, s, p, d, b, t), q)
  {
    OldEnd(g, n, s, p, d);
  }

  // Only branches were stored.
  lemma {:induction false} SplitKeepsLeaves(g: Geometry, n: Nodes, s: Shape, p: Path, d: nat, b: Loc, t: Loc, m: Nodes)
    requires Findable(g, n, s) && MaxAll(n, s) && SplitStored(g, n, s, p, d, b, t, m)
    ensures LeafBodies(m) == LeafBodies(n)
  {
    hide MaxAll, Sound;
    OldEnd(g, n, s, p, d);
    forall l
      ensures l in LeafBodies(m) <==> l in LeafBodies(n)
      ensures l in LeafBodies(n) && l in m ==> m[l].body == n[l].body
    {
    }
  }

  // The bitmap is where the finger stopped.
  lemma {:induction false} ForkIsThere(g: Geometry, n: Nodes, s: Shape, p: Path, d: nat, b: Loc, t: Loc, m: Nodes)
    requires Findable(g, n, s) && MaxAll(n, s) && SplitStored(g, n, s, p, d, b, t, m)
    ensures var s' := Grafted(s, p, SplitShape(n, s, p, d, b, t)); var c := ForkPath(n, s, p, d);
            && Has(m, s', c) && s'.at[c] == b
            && m[b].body == ForkBody(BodyAt(n, s, p).symbols[d], BodyAt(n, s, p).jumpMaxLeaf)
            && (d > 0 ==> c in s'.up && s'.up[c] == p && ChildVia(m, s', p, c))
  {
    hide Subtree, MaxAll, JumpsHide, Grafted, ForkBody;
    RaiseBitmap(g, n, s, p, d, b, t, m);
    SplitGrafts(g, n, s, p, d, b, t, m);
    SplitPaths(p, BodyAt(n, s, p).symbols, d);
    var u, c := SplitShape(n, s, p, d, b, t), ForkPath(n, s, p, d);
    assert c in u.at && u.at[c] == b;
    assert p in u.at && u.at[p] == s.at[p];
    assert d > 0 ==> c in u.up && u.up[c] == p && m[s.at[p]].body.Jump? && c == p + m[s.at[p]].body.symbols;
    hide SplitShape, SplitStored;
    InGrafted(s, p, u, c);
    InGrafted(s, p, u, p);
  }

  lemma {:induction false} InGrafted(s: Shape, p: Path, u: Shape, c: Path)
    requires c in u.at && p <= c
    ensures c in Grafted(s, p, u).at && Grafted(s, p, u).at[c] == u.at[c]
    ensures c != p && c in u.up ==> c in Grafted(s, p, u).up && Grafted(s, p, u).up[c] == u.up[c]
  {
  }

  // ------------------------------------------------------------------
  // After every single store
  // ------------------------------------------------------------------

  // A search by parent colour finds, for each child of a bitmap, that child and no other
  // entry.
  ghost predicate UniqueChildren(g: Geometry, m: Nodes, s: Shape) {
    forall p, x, l ::
      IsBitmap(m, s, p) && x in BodyAt(m, s, p).children && IsChild(m, l, HashOf(g, p + [x]), x, s.at[p].color) ==>
        p + [x] in s.at && l == s.at[p + [x]]
  }

  ghost predicate IsBitmap(m: Nodes, s: Shape, p: Path) {
    Has(m, s, p) && BodyAt(m, s, p).Bitmap?
  }

  // The table holds a tree with these root-to-leaf paths, and descents find their way.
  ghost predicate HoldsPaths(g: Geometry, m: Nodes, paths: map<Path, Body>) {
    exists s :: Tree(g, m, s) && UniqueChildren(g, m, s) && LeafPaths(m, s) == paths
  }

  lemma {:induction false} TrieHasUnique(g: Geometry, n: Nodes, s: Shape)
    requires Findable(g, n, s)
    ensures UniqueChildren(g, n, s)
  {
    forall p, x, l | IsBitmap(n, s, p) && x in BodyAt(n, s, p).children
                     && IsChild(n, l, HashOf(g, p + [x]), x, s.at[p].color)
      ensures p + [x] in s.at && l == s.at[p + [x]]
    {
      ChildByParentIsUnique(g, n, s, p, x, l);
    }
  }

  // No search for a child of a bitmap of s matches this node.
  ghost predicate Stranger(g: Geometry, n: Nodes, s: Shape, hash: nat, node: Node) {
    forall p :: IsBitmap(n, s, p) ==> !(hash == HashOf(g, p + [node.lastSymbol]) && node.parentColor == s.at[p].color)
  }

  lemma {:induction false} StillUnique(g: Geometry, n: Nodes, s: Shape, l: Loc, node: Node)
    requires UniqueChildren(g, n, s) && Stranger(g, n, s, l.hash, node)
    requires forall p :: p in s.at ==> s.at[p] in n && (s.at[p] == l ==> n[l].body == node.body)
    ensures UniqueChildren(g, n[l := node], s)
  {
    var m := n[l := node];
    forall p, x, k | IsBitmap(m, s, p) && x in BodyAt(m, s, p).children
                     && IsChild(m, k, HashOf(g, p + [x]), x, s.at[p].color)
      ensures p + [x] in s.at && k == s.at[p + [x]]
    {
      assert IsBitmap(n, s, p) && BodyAt(n, s, p) == BodyAt(m, s, p);
      assert k != l;
      assert IsChild(n, k, HashOf(g, p + [x]), x, s.at[p].color);
    }
  }

  // The new bitmap does not carry its parent's colour.
  lemma {:induction false} ForkIsStranger(g: Geometry, n: Nodes, s: Shape, hash: nat, node: Node, d: nat)
    requires Findable(g, n, s) && node.body.Jump? && 0 < d < |node.body.symbols|
    ensures Stranger(g, n, s, hash, NewBitmap(node, d))
  {
    forall p | IsBitmap(n, s, p)
      ensures s.at[p].color != INVALID_COLOR
    {
      assert NamedOk(g, n, s, p);
    }
  }

  // What follows the new bitmap carries its colour, and it is not in the tree as yet.
  lemma {:induction false} TailIsStranger(g: Geometry, n: Nodes, s: Shape, b: Loc, c: Path, node: Node)
    requires Findable(g, n, s) && b.hash == HashOf(g, c) && (b in n ==> !n[b].body.Bitmap?)
    requires node.parentColor == b.color
    ensures Stranger(g, n, s, HashOf(g, c + [node.lastSymbol]), node)
  {
    forall p | IsBitmap(n, s, p) && HashOf(g, c + [node.lastSymbol]) == HashOf(g, p + [node.lastSymbol])
      ensures s.at[p].color != b.color
    {
      assert NamedOk(g, n, s, p);
      SameParent(g, p, c, node.lastSymbol);
    }
  }

  lemma {:induction false} PathsAfterAdd(g: Geometry, n: Nodes, s: Shape, l: Loc, node: Node)
    requires Findable(g, n, s) && MaxAll(n, s) && l !in n && Stranger(g, n, s, l.hash, node)
    ensures Tree(g, n[l := node], s) && MaxAll(n[l := node], s) && LeafPaths(n[l := node], s) == LeafPaths(n, s)
    ensures UniqueChildren(g, n[l := node], s)
  {
    StoreOutside(g, n, s, n[l := node]);
    TrieHasUnique(g, n, s);
    StillUnique(g, n, s, l, node);
  }

  lemma {:induction false} PathsAfterTwo(g: Geometry, n: Nodes, s: Shape, l: Loc, node: Node, k: Loc, other: Node)
    requires Findable(g, n, s) && MaxAll(n, s) && l !in n && k !in n
    requires Stranger(g, n, s, l.hash, node) && Stranger(g, n, s, k.hash, other)
    ensures HoldsPaths(g, n[l := node][k := other], LeafPaths(n, s))
  {
    var m := n[l := node];
    StoreOutside(g, n, s, m[k := other]);
    assert LeafPaths(m[k := other], s) == LeafPaths(n, s);
    PathsAfterAdd(g, n, s, l, node);
    hide UniqueChildren;
    assert Stranger(g, m, s, k.hash, other) by {
      assert forall p :: IsBitmap(m, s, p) ==> IsBitmap(n, s, p);
    }
    StillUnique(g, m, s, k, other);
  }

  // The cells hold a table with these root-to-leaf paths, even if an entry is being moved.
  ghost predicate PathsIn(g: Geometry, paths: map<Path, Body>, cells: seq<Cell>) {
    exists m: Nodes :: EveryEntryPresent(g, m, cells) && HoldsPaths(g, m, paths)
  }

  ghost predicate PathsThroughout(g: Geometry, paths: map<Path, Body>, trace: seq<seq<Cell>>) {
    forall i :: 0 <= i < |trace| ==> PathsIn(g, paths, trace[i])
  }

  lemma {:induction false} PathsInAll(g: Geometry, paths: map<Path, Body>, trace: seq<seq<Cell>>,
                                      trace': seq<seq<Cell>>)
    requires PathsThroughout(g, paths, trace) && PathsThroughout(g, paths, trace')
    ensures PathsThroughout(g, paths, trace + trace')
  {
    hide PathsIn;
  }

  lemma {:induction false} PathsInOne(g: Geometry, paths: map<Path, Body>, m: Nodes, cells: seq<Cell>)
    requires EveryEntryPresent(g, m, cells) && HoldsPaths(g, m, paths)
    ensures PathsThroughout(g, paths, [cells])
  {
  }

  ghost predicate KeptByAdding(g: Geometry, m: Nodes, paths: map<Path, Body>, l: Loc, node: Node) {
    l !in m ==> HoldsPaths(g, m[l := node], paths)
  }

  // While an entry is added to a table, possibly moving others, the paths stay.
  lemma {:induction false} PathsWhileAdding(g: Geometry, m: Nodes, hash: nat, node: Node, paths: map<Path, Body>,
                                            trace: seq<seq<Cell>>)
    requires HoldsPaths(g, m, paths)
    requires forall color :: KeptByAdding(g, m, paths, Loc(hash, color), node)
    requires forall i :: 0 <= i < |trace| ==> AddingState(g, m, hash, node, trace[i])
    ensures PathsThroughout(g, paths, trace)
  {
    hide HoldsPaths, EveryEntryPresent;
    forall i | 0 <= i < |trace|
      ensures PathsIn(g, paths, trace[i])
    {
      assert AddingState(g, m, hash, node, trace[i]);
      if !EveryEntryPresent(g, m, trace[i]) {
        var color :| 0 <= color <= MAX_VALID_COLOR && Loc(hash, color) !in m
                     && EveryEntryPresent(g, m[Loc(hash, color) := node], trace[i]);
        assert KeptByAdding(g, m, paths, Loc(hash, color), node);
      }
    }
  }

  lemma {:induction false} PathsWhileAddingOne(g: Geometry, n: Nodes, s: Shape, hash: nat, node: Node,
                                               trace: seq<seq<Cell>>)
    requires Findable(g, n, s) && MaxAll(n, s) && Stranger(g, n, s, hash, node)
    requires forall i :: 0 <= i < |trace| ==> AddingState(g, n, hash, node, trace[i])
    ensures PathsThroughout(g, LeafPaths(n, s), trace)
  {
    hide LeafPaths, Tree, MaxAll, AddingState, UniqueChildren, Stranger;
    TrieHasUnique(g, n, s);
    assert HoldsPaths(g, n, LeafPaths(n, s));
    forall color
      ensures KeptByAdding(g, n, LeafPaths(n, s), Loc(hash, color), node)
    {
      if Loc(hash, color) !in n {
        PathsAfterAdd(g, n, s, Loc(hash, color), node);
      }
    }
    PathsWhileAdding(g, n, hash, node, LeafPaths(n, s), trace);
  }

  lemma {:induction false} PathsWhileAddingTwo(g: Geometry, n: Nodes, s: Shape, b: Loc, bitmap: Node, hash: nat,
                                               node: Node, trace: seq<seq<Cell>>)
    requires Findable(g, n, s) && MaxAll(n, s) && b !in n
    requires Stranger(g, n, s, b.hash, bitmap) && Stranger(g, n, s, hash, node)
    requires forall i :: 0 <= i < |trace| ==> AddingState(g, n[b := bitmap], hash, node, trace[i])
    ensures PathsThroughout(g, LeafPaths(n, s), trace)
  {
    hide LeafPaths, Tree, MaxAll, AddingState, UniqueChildren, Stranger;
    var m := n[b := bitmap];
    PathsAfterAdd(g, n, s, b, bitmap);
    assert HoldsPaths(g, m, LeafPaths(n, s));
    forall color
      ensures KeptByAdding(g, m, LeafPaths(n, s), Loc(hash, color), node)
    {
      if Loc(hash, color) !in m {
        PathsAfterTwo(g, n, s, b, bitmap, Loc(hash, color), node);
      }
    }
    PathsWhileAdding(g, m, hash, node, LeafPaths(n, s), trace);
  }

  lemma {:induction false} PathsKept(g: Geometry, n: Nodes, s: Shape, cells: seq<Cell>)
    requires Findable(g, n, s) && EveryEntryPresent(g, n, cells)
    ensures PathsThroughout(g, LeafPaths(n, s), [cells])
  {
    hide EveryEntryPresent;
    TrieHasUnique(g, n, s);
    assert HoldsPaths(g, n, LeafPaths(n, s));
  }

  // Changing the parent colour of a jump's child changes no path, as jumps find their
  // child by its own colour.
  lemma {:induction false} PathsAfterRecolor(g: Geometry, n: Nodes, s: Shape, p: Path, d: nat, m: Nodes, color: nat)
    requires Sound(g, m, s) && MaxAll(m, s) && SplitAt(m, s, p, d) && Has(m, s, EndPath(m, s, p, d))
    requires LeafPaths(m, s) == LeafPaths(n, s) && UniqueChildren(g, m, s)
    requires var l := s.at[EndPath(m, s, p, d)]; Stranger(g, m, s, l.hash, m[l].(parentColor := color))
    ensures var l := s.at[EndPath(m, s, p, d)]; HoldsPaths(g, m[l := m[l].(parentColor := color)], LeafPaths(n, s))
  {
    hide UniqueChildren, Stranger;
    RecoloredTree(g, m, s, p, d, color);
    RecoloredLeaves(m, s, s.at[EndPath(m, s, p, d)], color);
    StillUnique(g, m, s, s.at[EndPath(m, s, p, d)], m[s.at[EndPath(m, s, p, d)]].(parentColor := color));
  }

  lemma {:induction false} RecoloredLeaves(m: Nodes, s: Shape, l: Loc, color: nat)
    requires l in m
    ensures LeafPaths(m[l := m[l].(parentColor := color)], s) == LeafPaths(m, s)
  {
  }

  lemma {:induction false} RecoloredTree(g: Geometry, m: Nodes, s: Shape, p: Path, d: nat, color: nat)
    requires Sound(g, m, s) && MaxAll(m, s) && SplitAt(m, s, p, d) && Has(m, s, EndPath(m, s, p, d))
    ensures var l := s.at[EndPath(m, s, p, d)]; Tree(g, m[l := m[l].(parentColor := color)], s)
  {
    hide NodeOk, NamedOk, Linked;
    var l := s.at[EndPath(m, s, p, d)];
    var m' := m[l := m[l].(parentColor := color)];
    forall q | q in s.at
      ensures NamedOk(g, m', s, q) && NodeOk(m', s, q) && (q != [] ==> Linked(m', s, q))
    {
      RecolorKeeps(g, m, s, p, d, color, q);
    }
  }

  lemma {:induction false} RecolorKeeps(g: Geometry, m: Nodes, s: Shape, p: Path, d: nat, color: nat, q: Path)
    requires Sound(g, m, s) && MaxAll(m, s) && SplitAt(m, s, p, d) && Has(m, s, EndPath(m, s, p, d)) && q in s.at
    ensures var l := s.at[EndPath(m, s, p, d)]; var m' := m[l := m[l].(parentColor := color)];
            NamedOk(g, m', s, q) && NodeOk(m', s, q) && (q != [] ==> Linked(m', s, q))
  {
    OldEnd(g, m, s, p, d);
    var e := EndPath(m, s, p, d);
    var l := s.at[e];
    var m' := m[l := m[l].(parentColor := color)];
    assert NamedOk(g, m, s, q) && NodeOk(m, s, q);
    assert s.of[l] == e && s.of[s.at[q]] == q;
    if q == p {
      assert JumpChildOk(m', s, p, BodyAt(m, s, p).symbols, BodyAt(m, s, p).childColor);
    } else {
      forall c | c in s.at && c in s.up && s.up[c] == q
        ensures Kept(m, s, m', s, c)
      {
        assert s.of[s.at[c]] == c;
      }
      KeepsNode(m, s, m', s, q);
    }
    if q != [] {
      assert Linked(m, s, q);
      assert s.of[s.at[s.up[q]]] == s.up[q];
    }
  }

  // The stores of a split, one after the other.
  lemma {:induction false} AllStored(g: Geometry, n: Nodes, s: Shape, p: Path, d: nat, b: Loc, t: Loc, m1: Nodes,
                                     m2: Nodes)
    requires Sound(g, n, s) && MaxAll(n, s) && SplitAt(n, s, p, d)
    requires if d == 0 then b == s.at[p] && m1 == n
             else b !in n && b.hash == HashOf(g, ForkPath(n, s, p, d)) && b.color <= MAX_VALID_COLOR
                  && m1 == n[b := NewBitmap(n[s.at[p]], d)]
    requires if HasTail(n, s, p, d)
             then t !in m1 && t.hash == HashOf(g, ForkPath(n, s, p, d) + [OldSymbols(n, s, p, d)[d]])
                  && t.color <= MAX_VALID_COLOR && m2 == m1[t := NewTail(n[s.at[p]], d, b.color)]
             else Has(n, s, EndPath(n, s, p, d)) && var l := s.at[EndPath(n, s, p, d)];
                  m2 == m1[l := n[l].(parentColor := b.color)]
    ensures SplitStored(g, n, s, p, d, b, t, m2[s.at[p] := NewHead(n[s.at[p]], d, b.color)])
  {
    OldEnd(g, n, s, p, d);
    var m := m2[s.at[p] := NewHead(n[s.at[p]], d, b.color)];
    var e := EndPath(n, s, p, d);
    assert s.at[e] != s.at[p] by { assert s.of[s.at[e]] == e && s.of[s.at[p]] == p; }
    assert BitmapStored(g, n, s, p, d, b, m);
    assert TailStored(g, n, s, p, d, b, t, m);
    assert m.Keys == n.Keys + NewLocs(n, s, p, d, b, t);
  }
}
