// Turning a leaf into a path: the jump nodes for what two keys have in common, and a
// bitmap where they part.
module Splitting {
  import opened Keys
  import opened Hashing
  import opened Store
  import opened Structure
  import opened Order
  import opened Steps

  // ------------------------------------------------------------------
  // Building the nodes of the path
  // ------------------------------------------------------------------

  function ExtendJumpNode(node: Node, symbol: Symbol): Node
    requires node.body.Jump?
  {
    node.(body := node.body.(symbols := node.body.symbols + [symbol]))
  }

  // The jump node at c leads to d.
  ghost predicate JumpTo(node: Node, c: Path, d: Path) {
    && node.body.Jump? && 1 <= |node.body.symbols| <= MAX_JUMP_SYMBOLS && SYMBOL_END !in node.body.symbols
    && d == c + node.body.symbols
  }

  // The nodes' headers: all but the first are children of jump nodes.
  ghost predicate HeaderOk(g: Geometry, node: Node, hash: nat, c: Path, i: nat, head: Node) {
    && hash == HashOf(g, c)
    && if i == 0 then SameHeader(head, node)
       else node.parentColor == INVALID_COLOR && c != [] && node.lastSymbol == c[|c| - 1]
  }

  // Jump nodes that lead from cs[0] over cs[1], ... to cs[|nodes|].
  ghost predicate Jumps(g: Geometry, nodes: seq<Node>, hashes: seq<nat>, cs: seq<Path>, head: Node) {
    && |hashes| == |nodes| && |cs| == |nodes| + 1
    && (forall i :: 0 <= i < |nodes| ==> JumpTo(nodes[i], cs[i], cs[i + 1]) && nodes[i].body.jumpMaxLeaf == RootLoc)
    && (forall i :: 0 <= i < |nodes| ==> HeaderOk(g, nodes[i], hashes[i], cs[i], i, head))
  }

  lemma {:induction false} JumpsStart(g: Geometry, nodes: seq<Node>, hashes: seq<nat>, cs: seq<Path>, head: Node,
                                      node: Node, hash: nat, d: Path)
    requires Jumps(g, nodes, hashes, cs, head) && JumpTo(node, cs[|nodes|], d) && node.body.jumpMaxLeaf == RootLoc
    requires HeaderOk(g, node, hash, cs[|nodes|], |nodes|, head)
    ensures Jumps(g, nodes + [node], hashes + [hash], cs + [d], head)
  {
  }

  lemma {:induction false} JumpsExtend(g: Geometry, nodes: seq<Node>, hashes: seq<nat>, cs: seq<Path>, head: Node,
                                       x: Symbol)
    requires Jumps(g, nodes, hashes, cs, head) && |nodes| > 0 && x != SYMBOL_END
    requires nodes[|nodes| - 1].body.Jump? && |nodes[|nodes| - 1].body.symbols| < MAX_JUMP_SYMBOLS
    ensures var e := |nodes| - 1;
            Jumps(g, nodes[e := ExtendJumpNode(nodes[e], x)], hashes, cs[|nodes| := cs[|nodes|] + [x]], head)
  {
    var e := |nodes| - 1;
    assert cs[e] + nodes[e].body.symbols + [x] == cs[e] + (nodes[e].body.symbols + [x]);
  }

  // The symbols of two different keys differ before either ends.
  lemma {:induction false} PartBeforeEnd(a: Key, b: Key, len: nat)
    requires a != b && len <= |Symbols(a)| && len <= |Symbols(b)| && Symbols(a)[..len] == Symbols(b)[..len]
    ensures len < |Symbols(a)| && len < |Symbols(b)|
    ensures 5 * len < 8 * |a| + 5 && 5 * len < 8 * |b| + 5
    ensures Symbols(a)[len] == GetStringSymbol(a, len) && Symbols(b)[len] == GetStringSymbol(b, len)
  {
    if len == |Symbols(a)| {
      assert Symbols(a) == Symbols(b)[..len];
      EncodingPrefixFree(a, b);
    }
    if len == |Symbols(b)| {
      assert Symbols(b) == Symbols(a)[..len];
      EncodingPrefixFree(b, a);
    }
  }

  lemma {:induction false} SharedNotEnd(a: Key, b: Key, len: nat)
    requires a != b && len < |Symbols(a)| && len < |Symbols(b)|
    requires Symbols(a)[..len] == Symbols(b)[..len] && Symbols(a)[len] == Symbols(b)[len]
    ensures Symbols(a)[len] != SYMBOL_END && Symbols(a)[..len + 1] == Symbols(b)[..len + 1]
  {
    var s, t := Symbols(a), Symbols(b);
    assert s[..len + 1] == s[..len] + [s[len]] && t[..len + 1] == t[..len] + [t[len]];
    PartBeforeEnd(a, b, len + 1);
    EndIsLast(a, len);
  }

  // Creates the jump nodes for the symbols that the two keys share from position
  // `from` on. The first node gets the header of the leaf that it will replace.
  method BuildPath(g: Geometry, existing: Key, key: Key, from: nat, fromHash: nat, lastSymbol: Symbol, head: Node)
      returns (nodes: seq<Node>, hashes: seq<nat>, len: nat, prefixHash: nat, last: Symbol, ghost cs: seq<Path>)
    requires existing != key && from <= |Symbols(existing)| && from <= |Symbols(key)|
    requires Symbols(existing)[..from] == Symbols(key)[..from] && fromHash == HashOf(g, Symbols(key)[..from])
    requires head.lastSymbol == lastSymbol && head.body.Leaf?
    ensures from <= len < |Symbols(key)| && len < |Symbols(existing)|
    ensures Symbols(existing)[..len] == Symbols(key)[..len] && Symbols(existing)[len] != Symbols(key)[len]
    ensures PathBuilt(g, nodes, hashes, cs, head, Symbols(key), from, len, prefixHash, last, lastSymbol)
    ensures AllButLastFull(nodes, |nodes|)
  {
    hide Symbols, HashFrom;
    ghost var t := Symbols(key);
    nodes, hashes, len, prefixHash, last, cs := [], [], from, fromHash, lastSymbol, [t[..from]];
    while true
      invariant from <= len <= |t| && len <= |Symbols(existing)| && Symbols(existing)[..len] == t[..len]
      invariant PathBuilt(g, nodes, hashes, cs, head, t, from, len, prefixHash, last, lastSymbol)
      invariant AllButLastFull(nodes, |nodes|)
      decreases |t| - len
    {
      PartBeforeEnd(existing, key, len);
      var symbol := GetStringSymbol(key, len);
      if GetStringSymbol(existing, len) != symbol {
        return;
      }
      SharedNotEnd(existing, key, len);
      nodes, hashes, cs := AppendSymbol(g, nodes, hashes, cs, head, t, from, len, prefixHash, last, lastSymbol, symbol);
      HashFromSnoc(g, HASH_START_VALUE, t[..len], symbol);
      assert t[..len + 1] == t[..len] + [symbol];
      last, prefixHash, len := symbol, AccumulateHash(g, prefixHash, symbol), len + 1;
    }
  }

  // The nodes cover the symbols of t from `from` to `len`.
  ghost predicate PathBuilt(g: Geometry, nodes: seq<Node>, hashes: seq<nat>, cs: seq<Path>, head: Node, t: Path,
                            from: nat, len: nat, prefixHash: nat, last: Symbol, lastSymbol: Symbol)
  {
    && from <= len <= |t| && Jumps(g, nodes, hashes, cs, head) && cs[0] == t[..from] && cs[|nodes|] == t[..len]
    && prefixHash == HashOf(g, t[..len])
    && if |nodes| == 0 then last == lastSymbol else len > 0 && last == t[len - 1]
  }

  // The first n nodes are jumps, and all but the last of them hold as many symbols as they can.
  ghost predicate AllButLastFull(nodes: seq<Node>, n: nat) {
    n <= |nodes| && forall i :: 0 <= i < n ==>
      nodes[i].body.Jump? && (i < n - 1 ==> |nodes[i].body.symbols| == MAX_JUMP_SYMBOLS)
  }

  // Appends a symbol to the last jump node, or to a new one if that is full.
  method AppendSymbol(g: Geometry, nodes: seq<Node>, hashes: seq<nat>, ghost cs: seq<Path>, head: Node, ghost t: Path,
                      ghost from: nat, ghost len: nat, prefixHash: nat, last: Symbol, lastSymbol: Symbol,
                          symbol: Symbol)
      returns (nodes': seq<Node>, hashes': seq<nat>, ghost cs': seq<Path>)
    requires PathBuilt(g, nodes, hashes, cs, head, t, from, len, prefixHash, last, lastSymbol)
    requires len < |t| && symbol == t[len] && symbol != SYMBOL_END && head.lastSymbol == lastSymbol && head.body.Leaf?
    requires AllButLastFull(nodes, |nodes|)
    ensures AllButLastFull(nodes', |nodes'|)
    ensures Jumps(g, nodes', hashes', cs', head) && |nodes'| > 0 && cs'[0] == cs[0] && cs'[|nodes'|] == t[..len + 1]
  {
    assert t[..len + 1] == t[..len] + [symbol];
    if |nodes| == 0 || |nodes[|nodes| - 1].body.symbols| == MAX_JUMP_SYMBOLS {
      // The next jump starts here; the first one inherits the leaf's parent colour
      var node := Node(if |nodes| == 0 then head.parentColor else INVALID_COLOR, last, Jump([], 0, RootLoc));
      node := ExtendJumpNode(node, symbol);
      JumpsStart(g, nodes, hashes, cs, head, node, prefixHash, t[..len + 1]);
      nodes', hashes', cs' := nodes + [node], hashes + [prefixHash], cs + [t[..len + 1]];
    } else {
      JumpsExtend(g, nodes, hashes, cs, head, symbol);
      hashes', cs' := hashes, cs[|nodes| := t[..len + 1]];
      nodes' := nodes[|nodes| - 1 := ExtendJumpNode(nodes[|nodes| - 1], symbol)];
    }
  }

  // ------------------------------------------------------------------
  // The tree that the nodes of the path form
  // ------------------------------------------------------------------

  ghost function Listed(locs: seq<Loc>): set<Loc> {
    set l | l in locs
  }

  ghost predicate AllDistinct(locs: seq<Loc>) {
    forall i, j :: 0 <= i < j < |locs| ==> locs[i] != locs[j]
  }

  // Node i of the path is in the table, and is a jump to node i + 1.
  ghost predicate ChainLink(n: Nodes, locs: seq<Loc>, cs: seq<Path>, b: Loc, i: nat)
    requires |locs| == |cs| && i + 1 < |locs|
  {
    && locs[i] in n && locs[i + 1] in n && JumpTo(n[locs[i]], cs[i], cs[i + 1])
    && n[locs[i]].body.childColor == locs[i + 1].color && n[locs[i]].body.jumpMaxLeaf == b
    && n[locs[i + 1]].parentColor == INVALID_COLOR && n[locs[i + 1]].lastSymbol == cs[i + 1][|cs[i + 1]| - 1]
  }

  // The whole path is in the table: jumps, and a fork at the end.
  ghost predicate Chain(g: Geometry, n: Nodes, locs: seq<Loc>, cs: seq<Path>, x: Symbol, y: Symbol, a: Loc, b: Loc) {
    && |locs| == |cs| > 0 && AllDistinct(locs) && a !in locs && b !in locs && a != b
    && (forall i :: 0 <= i < |locs| ==> locs[i].hash == HashOf(g, cs[i]) && locs[i].color <= MAX_VALID_COLOR)
    && (forall i {:trigger ChainLink(n, locs, cs, b, i)} :: 0 <= i < |locs| - 1 ==> ChainLink(n, locs, cs, b, i))
    && IsFork(g, n, cs[|cs| - 1], x, y, locs[|locs| - 1], a, b)
  }

  ghost function PathSet(cs: seq<Path>): set<Path> { set c | c in cs }

  // The prefixes of the new nodes: all on the path but the head's, and the two leaves'.
  ghost function SplitNodes(cs: seq<Path>, x: Symbol, y: Symbol): set<Path>
    requires |cs| > 0
  {
    PathSet(cs[1..]) + {cs[|cs| - 1] + [x], cs[|cs| - 1] + [y]}
  }

  lemma {:induction false} FirstPath(cs: seq<Path>, i: nat)
    requires i < |cs|
    ensures PathSet(cs[i..]) == {cs[i]} + PathSet(cs[i + 1..])
    ensures i == |cs| - 1 ==> PathSet(cs[i..]) == {cs[i]}
  {
    assert cs[i..] == [cs[i]] + cs[i + 1..];
  }

  lemma {:induction false} ChainIsTree(g: Geometry, n: Nodes, locs: seq<Loc>, cs: seq<Path>, x: Symbol, y: Symbol,
                                       a: Loc, b: Loc, i: nat) returns (s: Shape)
    requires Chain(g, n, locs, cs, x, y, a, b) && i < |locs|
    ensures Subtree(g, n, s, cs[i]) && MaxAll(n, s) && JumpsHide(n, s) && s.up.Keys <= s.at.Keys
    ensures cs[i] in s.at && s.at[cs[i]] == locs[i] && s.of.Keys == Listed(locs[i..]) + {a, b}
    ensures locs[i] in n && MaxLeafOf(locs[i], n[locs[i]]) == b && !n[locs[i]].body.Leaf? && SYMBOL_END !in cs[i]
    ensures s.at.Keys == PathSet(cs[i..]) + {cs[|cs| - 1] + [x], cs[|cs| - 1] + [y]}
    decreases |locs| - i
  {
    hide MaxAll, HashOf, Above, Fork, Subtree, JumpsHide;
    FirstPath(cs, i);
    if i == |locs| - 1 {
      s := Fork(cs[i], x, y, locs[i], a, b);
      ForkIsTree(g, n, cs[i], x, y, locs[i], a, b);
      AtFork(cs[i], x, y, locs[i], a, b);
      assert locs[i..] == [locs[i]];
    } else {
      s := ChainIsTree(g, n, locs, cs, x, y, a, b, i + 1);
      assert ChainLink(n, locs, cs, b, i);
      FirstIsNew(locs, i);
      ChainStep(g, n, s, locs, cs, b, i);
      AtAbove(s, cs[i + 1], cs[i], locs[i]);
      s := Above(s, cs[i + 1], cs[i], locs[i]);
    }
  }

  // One more jump above the subtree.
  lemma {:induction false} ChainStep(g: Geometry, n: Nodes, s: Shape, locs: seq<Loc>, cs: seq<Path>, b: Loc, i: nat)
    requires |locs| == |cs| && i + 1 < |locs| && ChainLink(n, locs, cs, b, i)
    requires locs[i].hash == HashOf(g, cs[i]) && locs[i].color <= MAX_VALID_COLOR && locs[i] !in s.of
    requires Subtree(g, n, s, cs[i + 1]) && MaxAll(n, s) && JumpsHide(n, s) && s.up.Keys <= s.at.Keys
    requires s.at[cs[i + 1]] == locs[i + 1] && SYMBOL_END !in cs[i + 1]
    requires MaxLeafOf(locs[i + 1], n[locs[i + 1]]) == b && !n[locs[i + 1]].body.Leaf?
    ensures var t := Above(s, cs[i + 1], cs[i], locs[i]); Subtree(g, n, t, cs[i]) && MaxAll(n, t) && JumpsHide(n, t)
    ensures SYMBOL_END !in cs[i]
  {
    StepLeads(n, s, locs, cs, b, i);
    ShorterIsNew(g, n, s, cs[i + 1], cs[i]);
    hide Subtree, MaxAll, JumpsHide, Above;
    RootAbove(g, n, s, cs[i + 1], cs[i], locs[i]);
    MaxAbove(g, n, s, cs[i + 1], cs[i], locs[i]);
    HidesAbove(g, n, s, cs[i + 1], cs[i], locs[i]);
  }

  lemma {:induction false} ShorterIsNew(g: Geometry, n: Nodes, s: Shape, c: Path, p: Path)
    requires Subtree(g, n, s, c) && s.up.Keys <= s.at.Keys && |p| < |c|
    ensures c in s.at && s.at[c] in n && p !in s.at && p !in s.up
  {
  }

  lemma {:induction false} AtAbove(s: Shape, c: Path, p: Path, l: Loc)
    ensures var t := Above(s, c, p, l);
            t.at.Keys == s.at.Keys + {p} && t.at[p] == l && t.of.Keys == s.of.Keys + {l} && t.up.Keys == s.up.Keys + {c}
  {
  }

  lemma {:induction false} AtFork(c: Path, x: Symbol, y: Symbol, l: Loc, a: Loc, b: Loc)
    ensures var t := Fork(c, x, y, l, a, b);
            t.at.Keys == {c, c + [x], c + [y]} && t.at[c] == l && t.of.Keys == {l, a, b} && t.up.Keys <= t.at.Keys
  {
    assert (c + [x])[|c|] == x && (c + [y])[|c|] == y;
  }

  lemma {:induction false} FirstIsNew(locs: seq<Loc>, i: nat)
    requires AllDistinct(locs) && i + 1 < |locs|
    ensures locs[i] !in Listed(locs[i + 1..]) && Listed(locs[i..]) == Listed(locs[i + 1..]) + {locs[i]}
  {
    assert locs[i..] == [locs[i]] + locs[i + 1..];
  }

  lemma {:induction false} StepLeads(n: Nodes, s: Shape, locs: seq<Loc>, cs: seq<Path>, b: Loc, i: nat)
    requires |locs| == |cs| && i + 1 < |locs| && ChainLink(n, locs, cs, b, i)
    requires cs[i + 1] in s.at && s.at[cs[i + 1]] == locs[i + 1] && !n[locs[i + 1]].body.Leaf?
             && SYMBOL_END !in cs[i + 1]
    ensures LeadsTo(n, s, cs[i + 1], cs[i], locs[i])
  {
    assert forall z :: z in cs[i] ==> z in cs[i + 1];
  }

  // ------------------------------------------------------------------
  // Entries added and taken back
  // ------------------------------------------------------------------

  // m is n and the entries `extra`.
  ghost predicate Extends(n: Nodes, extra: set<Loc>, m: Nodes) {
    m.Keys == n.Keys + extra && extra !! n.Keys && forall l :: l in n ==> m[l] == n[l]
  }

  lemma {:induction false} ExtendsAdd(n: Nodes, extra: set<Loc>, m: Nodes, l: Loc, node: Node)
    requires Extends(n, extra, m) && l !in m
    ensures Extends(n, extra + {l}, m[l := node])
  {
  }

  lemma {:induction false} ExtendsRemove(n: Nodes, extra: set<Loc>, m: Nodes, l: Loc)
    requires Extends(n, extra, m) && l in extra
    ensures Extends(n, extra - {l}, m - {l})
  {
  }

  lemma {:induction false} ExtendsNone(n: Nodes, m: Nodes)
    requires Extends(n, {}, m)
    ensures m == n
  {
  }

  // ------------------------------------------------------------------
  // The path nodes in the table
  // ------------------------------------------------------------------

  function WithChildColor(node: Node, color: nat): Node {
    match node.body
    case Jump(_, _, _) => node.(body := node.body.(childColor := color))
    case _ => node
  }

  ghost predicate NodeWritten(m: Nodes, nodes: seq<Node>, hashes: seq<nat>, written: seq<Loc>, i: nat, j: nat)
    requires |hashes| == |nodes| == |written| + i && i <= j < |nodes|
  {
    var l := written[j - i];
    l in m && m[l] == nodes[j] && l.hash == hashes[j] && l.color <= MAX_VALID_COLOR
  }

  // Of the path nodes, those from i on are in the table, besides leaf b, and node
  // i - 1 knows the colour of node i.
  ghost predicate Written(n: Nodes, b: Loc, m: Nodes, nodes: seq<Node>, hashes: seq<nat>, written: seq<Loc>, i: nat) {
    && 1 <= i <= |nodes| && |hashes| == |nodes| == |written| + i
    && Extends(n, Listed(written) + {b}, m) && AllDistinct(written) && b !in written
    && (forall j {:trigger NodeWritten(m, nodes, hashes, written, i, j)} :: i <= j < |nodes| ==>
          NodeWritten(m, nodes, hashes, written, i, j))
    && (forall j :: i - 1 <= j < |nodes| - 1 ==>
         nodes[j].body.Jump? && nodes[j].body.childColor == written[j + 1 - i].color)
  }

  lemma {:induction false} WriteOne(n: Nodes, b: Loc, m: Nodes, nodes: seq<Node>, hashes: seq<nat>, written: seq<Loc>,
                                    i: nat, l: Loc)
    requires Written(n, b, m, nodes, hashes, written, i) && 2 <= i && nodes[i - 2].body.Jump?
    requires l !in m && l.hash == hashes[i - 1] && l.color <= MAX_VALID_COLOR
    ensures Written(n, b, m[l := nodes[i - 1]], nodes[i - 2 := WithChildColor(nodes[i - 2], l.color)], hashes,
                    [l] + written, i - 1)
  {
    var m', nodes', written' := m[l := nodes[i - 1]], nodes[i - 2 := WithChildColor(nodes[i - 2], l.color)],
        [l] + written;
    assert Listed(written') == Listed(written) + {l};
    ExtendsAdd(n, Listed(written) + {b}, m, l, nodes[i - 1]);
    assert Listed(written) + {b} + {l} == Listed(written') + {b};
    forall j {:trigger NodeWritten(m', nodes', hashes, written', i - 1, j)} | i - 1 <= j < |nodes|
      ensures NodeWritten(m', nodes', hashes, written', i - 1, j)
    {
      if i <= j {
        assert NodeWritten(m, nodes, hashes, written, i, j);
        assert written'[j - (i - 1)] == written[j - i];
      }
    }
    forall j | i - 2 <= j < |nodes| - 1
      ensures nodes'[j].body.Jump? && nodes'[j].body.childColor == written'[j + 1 - (i - 1)].color
    {
      assert j > i - 2 ==> written'[j + 1 - (i - 1)] == written[j + 1 - i];
    }
  }

  // The nodes as they were built, with the leaf b as their max_leaf.
  ghost predicate Templates(g: Geometry, nodes: seq<Node>, hashes: seq<nat>, cs: seq<Path>, head: Node, x: Symbol,
                            y: Symbol, b: Loc) {
    && |nodes| == |hashes| == |cs| > 0
    && (forall i :: 0 <= i < |nodes| - 1 ==> JumpTo(nodes[i], cs[i], cs[i + 1]) && nodes[i].body.jumpMaxLeaf == b)
    && nodes[|nodes| - 1].body == Bitmap({x, y}, y, b)
    && (forall i :: 0 <= i < |nodes| ==> HeaderOk(g, nodes[i], hashes[i], cs[i], i, head))
  }

  lemma {:induction false} TemplatesLength(g: Geometry, nodes: seq<Node>, hashes: seq<nat>, cs: seq<Path>, head: Node,
                                           x: Symbol, y: Symbol, b: Loc)
    requires Templates(g, nodes, hashes, cs, head, x, y, b)
    ensures |nodes| == |hashes| == |cs| > 0 && HeaderOk(g, nodes[0], hashes[0], cs[0], 0, head)
  {
    assert HeaderOk(g, nodes[0], hashes[0], cs[0], 0, head);
  }

  lemma {:induction false} TemplatesRecolored(g: Geometry, nodes: seq<Node>, hashes: seq<nat>, cs: seq<Path>,
                                              head: Node, x: Symbol, y: Symbol, b: Loc, i: nat, color: nat)
    requires Templates(g, nodes, hashes, cs, head, x, y, b) && i < |nodes| - 1 && head.body.Leaf?
    ensures nodes[i].body.Jump?
    ensures Templates(g, nodes[i := WithChildColor(nodes[i], color)], hashes, cs, head, x, y, b)
  {
    assert JumpTo(nodes[i], cs[i], cs[i + 1]);
  }

  // Written out, with the head in place of the old leaf, the nodes form a chain.
  lemma {:induction false} ChainWritten(g: Geometry, n: Nodes, m: Nodes, nodes: seq<Node>, hashes: seq<nat>,
                                        cs: seq<Path>, head: Node, written: seq<Loc>, h: Loc, x: Symbol, y: Symbol,
                                        a: Loc, b: Loc, m': Nodes)
    requires Templates(g, nodes, hashes, cs, head, x, y, b) && Written(n, b, m, nodes, hashes, written, 1)
    requires h in n && h.hash == hashes[0] && h.color <= MAX_VALID_COLOR
    requires a !in m && forall l :: l in written ==> l in m' && m'[l] == m[l]
    requires h in m' && m'[h] == nodes[0]
    requires IsFork(g, m', cs[|cs| - 1], x, y, ([h] + written)[|written|], a, b)
    ensures Chain(g, m', [h] + written, cs, x, y, a, b)
  {
    var locs := [h] + written;
    forall i | 0 <= i < |locs|
      ensures locs[i] in m' && m'[locs[i]] == nodes[i] && locs[i].hash == HashOf(g, cs[i])
              && locs[i].color <= MAX_VALID_COLOR
    {
      EntryWritten(g, n, m, nodes, hashes, cs, head, written, h, x, y, b, m', i);
    }
    forall i | 0 <= i < |locs| - 1
      ensures ChainLink(m', locs, cs, b, i)
    {
      EntryWritten(g, n, m, nodes, hashes, cs, head, written, h, x, y, b, m', i);
      EntryWritten(g, n, m, nodes, hashes, cs, head, written, h, x, y, b, m', i + 1);
      assert HeaderOk(g, nodes[i + 1], hashes[i + 1], cs[i + 1], i + 1, head);
      assert nodes[i].body.childColor == written[i + 1 - 1].color;
    }
    assert h !in written;
    assert forall i :: 1 <= i < |locs| ==> locs[i] == written[i - 1] && locs[i] in written;
    assert forall l :: l in written ==> l in m;
  }

  lemma {:induction false} EntryWritten(g: Geometry, n: Nodes, m: Nodes, nodes: seq<Node>, hashes: seq<nat>,
                                        cs: seq<Path>, head: Node, written: seq<Loc>, h: Loc, x: Symbol, y: Symbol,
                                        b: Loc, m': Nodes, i: nat)
    requires Templates(g, nodes, hashes, cs, head, x, y, b) && Written(n, b, m, nodes, hashes, written, 1)
    requires h.hash == hashes[0] && h.color <= MAX_VALID_COLOR && i <= |written|
    requires forall l :: l in written ==> l in m' && m'[l] == m[l]
    requires h in m' && m'[h] == nodes[0]
    ensures var l := ([h] + written)[i];
            l in m' && m'[l] == nodes[i] && l.hash == HashOf(g, cs[i]) && l.color <= MAX_VALID_COLOR
  {
    assert HeaderOk(g, nodes[i], hashes[i], cs[i], i, head);
    if i > 0 {
      assert ([h] + written)[i] == written[i - 1];
      assert NodeWritten(m, nodes, hashes, written, 1, i);
    }
  }

  // ------------------------------------------------------------------
  // The path in place of the leaf
  // ------------------------------------------------------------------

  ghost predicate CanSplit(g: Geometry, m: Nodes, s: Shape, p: Path, locs: seq<Loc>, cs: seq<Path>, x: Symbol,
                           y: Symbol, a: Loc, b: Loc, head: Node)
  {
    && Sound(g, m, s) && MaxAll(m, s) && IsLeaf(m, s, p)
    && |locs| == |cs| > 0 && locs[0] == s.at[p] && cs[0] == p
    && m.Keys == s.of.Keys + Listed(locs[1..]) + {a, b} && (Listed(locs[1..]) + {a, b}) !! s.of.Keys
    && Chain(g, m[locs[0] := head], locs, cs, x, y, a, b)
    && head.parentColor == m[locs[0]].parentColor && head.lastSymbol == m[locs[0]].lastSymbol
  }

  lemma {:induction false} SplitGraft(g: Geometry, m: Nodes, s: Shape, p: Path, locs: seq<Loc>, cs: seq<Path>,
                                      x: Symbol, y: Symbol, a: Loc, b: Loc, head: Node) returns (t: Shape)
    requires CanSplit(g, m, s, p, locs, cs, x, y, a, b, head)
    ensures !head.body.Leaf?
    ensures CanGraft(g, m, s, [], p, m[locs[0] := head], t)
    ensures var n', s' := m[locs[0] := head], Grafted(s, p, t);
            Findable(g, n', s') && MaxBut(n', s', p) && LeafBodies(n') == LeafBodies(m) - {locs[0]}
    ensures |cs| > 0 && Grafted(s, p, t).at.Keys == s.at.Keys + SplitNodes(cs, x, y)
  {
    hide LeafBodies, Chain, Subtree, MaxAll, JumpsHide, CanGraft, NoGarbage, MaxBut, Grafted;
    var n' := m[locs[0] := head];
    t := ChainIsTree(g, n', locs, cs, x, y, a, b, 0);
    assert locs[0..] == locs;
    assert !head.body.Leaf?;
    OnlyLeafBelow(g, m, s, p);
    LeavesAfterBranch(m, locs[0], head);
    ChainFits(g, m, s, p, locs, cs, x, y, a, b, head, t);
    SplitGrafted(g, m, s, p, n', t);
    assert cs[0..] == cs;
    NodesGrafted(g, m, s, p, cs, x, y, t);
  }

  lemma {:induction false} NodesGrafted(g: Geometry, n: Nodes, s: Shape, p: Path, cs: seq<Path>, x: Symbol, y: Symbol,
                                        t: Shape)
    requires Tree(g, n, s) && IsLeaf(n, s, p) && |cs| > 0 && cs[0] == p
    requires t.at.Keys == PathSet(cs) + {cs[|cs| - 1] + [x], cs[|cs| - 1] + [y]}
    ensures Grafted(s, p, t).at.Keys == s.at.Keys + SplitNodes(cs, x, y)
  {
    hide Subtree;
    forall q | q in s.at && p <= q
      ensures q == p
    {
      LeafHasNoChild(g, n, s, [], p, q);
    }
    assert cs[0..] == cs;
    FirstPath(cs, 0);
    assert p in s.at;
  }

  lemma {:induction false} ChainFits(g: Geometry, m: Nodes, s: Shape, p: Path, locs: seq<Loc>, cs: seq<Path>, x: Symbol,
                                     y: Symbol, a: Loc, b: Loc, head: Node, t: Shape)
    requires CanSplit(g, m, s, p, locs, cs, x, y, a, b, head)
    requires Subtree(g, m[locs[0] := head], t, p) && t.at[p] == locs[0] && t.of.Keys == Listed(locs) + {a, b}
    ensures CanGraft(g, m, s, [], p, m[locs[0] := head], t)
    ensures m[locs[0] := head].Keys == s.of.Keys + t.of.Keys && locs[0] in m
  {
    hide Subtree, Chain, MaxAll, JumpsHide;
    assert locs == [locs[0]] + locs[1..];
    assert Listed(locs) == Listed(locs[1..]) + {locs[0]};
    PlaceOfLeaf(g, m, s, p);
  }

  lemma {:induction false} PlaceOfLeaf(g: Geometry, n: Nodes, s: Shape, p: Path)
    requires Tree(g, n, s) && Has(n, s, p)
    ensures s.at[p] in s.of && s.of[s.at[p]] == p
  {
    assert NamedOk(g, n, s, p);
  }

  lemma {:induction false} SplitGrafted(g: Geometry, m: Nodes, s: Shape, p: Path, n': Nodes, t: Shape)
    requires Sound(g, m, s) && MaxAll(m, s) && CanGraft(g, m, s, [], p, n', t) && MaxAll(n', t) && JumpsHide(n', t)
    requires s.at[p] in m && n' == m[s.at[p] := n'[s.at[p]]] && n'[s.at[p]].parentColor == m[s.at[p]].parentColor
    requires n'.Keys == s.of.Keys + t.of.Keys && forall l :: l in s.of && p <= s.of[l] ==> l == s.at[p]
    ensures Findable(g, n', Grafted(s, p, t)) && MaxBut(n', Grafted(s, p, t), p)
  {
    Graft(g, m, s, [], p, n', t);
    GraftMax(g, m, s, [], p, n', t);
    GraftHides(g, m, s, [], p, n', t);
    GraftKeys(g, m, s, p, n', t);
    SplitRoot(g, m, s, p, n', t);
    hide Subtree, MaxAll, JumpsHide, CanGraft, Grafted, MaxBut, NoGarbage, MaxLeafOf;
  }

  lemma {:induction false} SplitRoot(g: Geometry, m: Nodes, s: Shape, p: Path, n': Nodes, t: Shape)
    requires Sound(g, m, s) && CanGraft(g, m, s, [], p, n', t)
    requires s.at[p] in m && n' == m[s.at[p] := n'[s.at[p]]] && n'[s.at[p]].parentColor == m[s.at[p]].parentColor
    ensures [] in Grafted(s, p, t).at && Grafted(s, p, t).at[[]] == RootLoc
    ensures RootLoc in n' && n'[RootLoc].parentColor == INVALID_COLOR
  {
    assert NamedOk(g, m, s, []);
    if [] in t.at {
      assert NamedOk(g, n', t, []);
      assert p == [];
    }
  }

  lemma {:induction false} OnlyLeafBelow(g: Geometry, n: Nodes, s: Shape, p: Path)
    requires Tree(g, n, s) && IsLeaf(n, s, p)
    ensures forall l :: l in s.of && p <= s.of[l] ==> l == s.at[p]
  {
    forall l | l in s.of && p <= s.of[l]
      ensures l == s.at[p]
    {
      LeafHasNoChild(g, n, s, [], p, s.of[l]);
    }
  }

  lemma {:induction false} GraftKeys(g: Geometry, m: Nodes, s: Shape, p: Path, n': Nodes, t: Shape)
    requires Sound(g, m, s) && CanGraft(g, m, s, [], p, n', t) && n'.Keys == s.of.Keys + t.of.Keys
    requires forall l :: l in s.of && p <= s.of[l] ==> l == s.at[p]
    ensures NoGarbage(n', Grafted(s, p, t))
  {
    assert t.at[p] in t.of by { assert NamedOk(g, n', t, p); }
    forall l
      ensures l in n' <==> l in Grafted(s, p, t).of
    {
    }
  }

  // ------------------------------------------------------------------
  // The plan of a split
  // ------------------------------------------------------------------

  // The path nodes, and the two leaves below them. The max_leaf fields and the colours
  // are not known yet.
  datatype Plan = Plan(nodes: seq<Node>, hashes: seq<nat>, minSymbol: Symbol, maxSymbol: Symbol, minKV: KV, maxKV: KV,
                       minHash: nat, maxHash: nat)

  ghost predicate PlanOk(g: Geometry, plan: Plan, cs: seq<Path>, leaf: KV, kv: KV, from: nat, head: Node) {
    && Templates(g, plan.nodes, plan.hashes, cs, head, plan.minSymbol, plan.maxSymbol, RootLoc)
    && from <= |Symbols(kv.key)| && cs[0] == Symbols(kv.key)[..from]
    && plan.minSymbol < plan.maxSymbol && SYMBOL_END !in cs[|cs| - 1]
    && cs[|cs| - 1] + [plan.minSymbol] <= Symbols(plan.minKV.key)
    && cs[|cs| - 1] + [plan.maxSymbol] <= Symbols(plan.maxKV.key)
    && plan.minHash == HashOf(g, cs[|cs| - 1] + [plan.minSymbol])
    && plan.maxHash == HashOf(g, cs[|cs| - 1] + [plan.maxSymbol])
    && if SymLess(Symbols(leaf.key), Symbols(kv.key)) then plan.minKV == leaf && plan.maxKV == kv
       else plan.minKV == kv && plan.maxKV == leaf
  }

  lemma {:induction false} PlanLength(g: Geometry, plan: Plan, cs: seq<Path>, leaf: KV, kv: KV, from: nat, head: Node)
    requires PlanOk(g, plan, cs, leaf, kv, from, head)
    ensures |plan.nodes| == |plan.hashes| == |cs| > 0
    ensures Templates(g, plan.nodes, plan.hashes, cs, head, plan.minSymbol, plan.maxSymbol, RootLoc)
    ensures plan.minHash == HashOf(g, cs[|cs| - 1] + [plan.minSymbol])
    ensures plan.maxHash == HashOf(g, cs[|cs| - 1] + [plan.maxSymbol])
  {
  }

  // The symbols at which two keys part, in order.
  lemma {:induction false} PartingSymbols(a: Key, b: Key, len: nat)
    requires a != b && len < |Symbols(a)| && len < |Symbols(b)|
    requires Symbols(a)[..len] == Symbols(b)[..len] && Symbols(a)[len] != Symbols(b)[len]
    ensures SymLess(Symbols(a), Symbols(b)) <==> Symbols(a)[len] < Symbols(b)[len]
    ensures SYMBOL_END !in Symbols(b)[..len]
    ensures Symbols(b)[..len] + [Symbols(a)[len]] <= Symbols(a) && Symbols(b)[..len] + [Symbols(b)[len]] <= Symbols(b)
  {
    PartDecides(Symbols(a), Symbols(b), len);
    forall i | 0 <= i < len
      ensures Symbols(b)[..len][i] != SYMBOL_END
    {
      EndIsLast(b, i);
    }
    assert Symbols(a)[..len + 1] == Symbols(b)[..len] + [Symbols(a)[len]];
    assert Symbols(b)[..len + 1] == Symbols(b)[..len] + [Symbols(b)[len]];
  }

  // Lays out the path for the common symbols of the two keys from position `from` on.
  method PlanSplit(g: Geometry, leaf: KV, kv: KV, from: nat, fromHash: nat, lastSymbol: Symbol, head: Node)
      returns (plan: Plan, ghost cs: seq<Path>)
    requires leaf.key != kv.key && from <= |Symbols(leaf.key)| && from <= |Symbols(kv.key)|
    requires Symbols(leaf.key)[..from] == Symbols(kv.key)[..from] && fromHash == HashOf(g, Symbols(kv.key)[..from])
    requires head.lastSymbol == lastSymbol && head.body.Leaf?
    ensures PlanOk(g, plan, cs, leaf, kv, from, head)
    ensures |plan.nodes| > 0 && AllButLastFull(plan.nodes, |plan.nodes| - 1)
  {
    hide GetStringSymbol, KeyCompare, HashFrom, Templates;
    var nodes: seq<Node>, hashes: seq<nat>, len: nat, prefixHash: nat, last: Symbol;
    nodes, hashes, len, prefixHash, last, cs := BuildPath(g, leaf.key, kv.key, from, fromHash, lastSymbol, head);
    ghost var c := Symbols(kv.key)[..len];
    PartBeforeEnd(leaf.key, kv.key, len);
    PartingSymbols(leaf.key, kv.key, len);
    EncodingOrderIsomorphism(leaf.key, kv.key);
    var existingSymbol, newSymbol := GetStringSymbol(leaf.key, len), GetStringSymbol(kv.key, len);
    var isMaximal := KeyCompare(leaf.key, kv.key) < 0;
    var minSymbol := if isMaximal then existingSymbol else newSymbol;
    var maxSymbol := if isMaximal then newSymbol else existingSymbol;
    var parent := if |nodes| == 0 then head.parentColor else INVALID_COLOR;
    var bitmap := Node(parent, last, Bitmap({minSymbol, maxSymbol}, maxSymbol, RootLoc));
    BitmapAtEnd(g, nodes, hashes, cs, head, bitmap, prefixHash, minSymbol, maxSymbol);
    HashFromSnoc(g, HASH_START_VALUE, c, minSymbol);
    HashFromSnoc(g, HASH_START_VALUE, c, maxSymbol);
    assert cs[|cs| - 1] == c;
    plan := Plan(nodes + [bitmap], hashes + [prefixHash], minSymbol, maxSymbol,
                 if isMaximal then leaf else kv, if isMaximal then kv else leaf,
                 AccumulateHash(g, prefixHash, minSymbol), AccumulateHash(g, prefixHash, maxSymbol));
  }

  lemma {:induction false} BitmapAtEnd(g: Geometry, nodes: seq<Node>, hashes: seq<nat>, cs: seq<Path>, head: Node,
                                       bitmap: Node, hash: nat, x: Symbol, y: Symbol)
    requires Jumps(g, nodes, hashes, cs, head) && HeaderOk(g, bitmap, hash, cs[|nodes|], |nodes|, head)
    requires bitmap.body == Bitmap({x, y}, y, RootLoc)
    ensures Templates(g, nodes + [bitmap], hashes + [hash], cs, head, x, y, RootLoc)
  {
  }

  // Sets the max_leaf of all path nodes.
  method SetMaxLeaves(nodes: seq<Node>, b: Loc) returns (nodes': seq<Node>)
    ensures |nodes'| == |nodes| && forall i :: 0 <= i < |nodes| ==> nodes'[i] == WithMaxLeaf(nodes[i], b)
  {
    nodes' := nodes;
    var i := 0;
    while i < |nodes|
      invariant 0 <= i <= |nodes| == |nodes'|
      invariant forall j :: 0 <= j < i ==> nodes'[j] == WithMaxLeaf(nodes[j], b)
      invariant forall j :: i <= j < |nodes| ==> nodes'[j] == nodes[j]
    {
      nodes' := nodes'[i := WithMaxLeaf(nodes'[i], b)];
      i := i + 1;
    }
  }

  lemma {:induction false} TemplatesMax(g: Geometry, nodes: seq<Node>, hashes: seq<nat>, cs: seq<Path>, head: Node,
                                        x: Symbol, y: Symbol, b: Loc, b': Loc, nodes': seq<Node>)
    requires Templates(g, nodes, hashes, cs, head, x, y, b) && |nodes'| == |nodes|
    requires forall i :: 0 <= i < |nodes| ==> nodes'[i] == WithMaxLeaf(nodes[i], b')
    ensures Templates(g, nodes', hashes, cs, head, x, y, b')
  {
    forall i | 0 <= i < |nodes|
      ensures HeaderOk(g, nodes'[i], hashes[i], cs[i], i, head)
    {
      assert HeaderOk(g, nodes[i], hashes[i], cs[i], i, head);
    }
    forall i | 0 <= i < |nodes| - 1
      ensures JumpTo(nodes'[i], cs[i], cs[i + 1]) && nodes'[i].body.jumpMaxLeaf == b'
    {
      assert JumpTo(nodes[i], cs[i], cs[i + 1]);
    }
  }

  // A chain only depends on its own entries.
  lemma {:induction false} ChainFrame(g: Geometry, n: Nodes, locs: seq<Loc>, cs: seq<Path>, x: Symbol, y: Symbol,
                                      a: Loc, b: Loc, n': Nodes)
    requires Chain(g, n, locs, cs, x, y, a, b)
    requires forall l :: l in n && (l in locs || l == a || l == b) ==> l in n' && n'[l] == n[l]
    ensures Chain(g, n', locs, cs, x, y, a, b)
  {
    forall i | 0 <= i < |locs| - 1
      ensures ChainLink(n', locs, cs, b, i)
    {
      assert ChainLink(n, locs, cs, b, i);
    }
  }

  // The path nodes and the maximal leaf are in the table, unreachable as yet.
  ghost predicate PathAdded(g: Geometry, n: Nodes, m: Nodes, plan: Plan, nodes: seq<Node>, cs: seq<Path>,
                            written: seq<Loc>, b: Loc, bNode: Node, head: Node)
  {
    && Templates(g, nodes, plan.hashes, cs, head, plan.minSymbol, plan.maxSymbol, b)
    && Written(n, b, m, nodes, plan.hashes, written, 1)
    && b in m && m[b] == bNode && LeafBodies(m) == LeafBodies(n)[b := bNode.body]
  }

  lemma {:induction false} PathIsAdded(g: Geometry, n: Nodes, m: Nodes, plan: Plan, nodes: seq<Node>, cs: seq<Path>,
                                       written: seq<Loc>, b: Loc, bNode: Node, head: Node)
    requires Templates(g, nodes, plan.hashes, cs, head, plan.minSymbol, plan.maxSymbol, b)
    requires Written(n, b, m, nodes, plan.hashes, written, 1)
    requires b in m && m[b] == bNode && LeafBodies(m) == LeafBodies(n)[b := bNode.body]
    ensures PathAdded(g, n, m, plan, nodes, cs, written, b, bNode, head)
  {
  }

  lemma {:induction false} PathNodeAt(g: Geometry, n: Nodes, m: Nodes, plan: Plan, nodes: seq<Node>, cs: seq<Path>,
                                      written: seq<Loc>, b: Loc, head: Node, i: nat)
    requires Templates(g, nodes, plan.hashes, cs, head, plan.minSymbol, plan.maxSymbol, b)
    requires Written(n, b, m, nodes, plan.hashes, written, i) && 2 <= i
    ensures i <= |nodes| == |plan.hashes| && !nodes[i - 1].body.Leaf? && nodes[i - 2].body.Jump?
  {
    assert i - 1 < |nodes| - 1 ==> JumpTo(nodes[i - 1], cs[i - 1], cs[i - 1 + 1]);
  }

  lemma {:induction false} WroteOne(g: Geometry, n: Nodes, m: Nodes, plan: Plan, nodes: seq<Node>, cs: seq<Path>,
                                    written: seq<Loc>, b: Loc, head: Node, i: nat, l: Loc)
    requires Templates(g, nodes, plan.hashes, cs, head, plan.minSymbol, plan.maxSymbol, b) && head.body.Leaf?
    requires Written(n, b, m, nodes, plan.hashes, written, i) && 2 <= i
    requires l !in m && l.hash == plan.hashes[i - 1] && l.color <= MAX_VALID_COLOR
    ensures !nodes[i - 1].body.Leaf? && nodes[i - 2].body.Jump?
    ensures var nodes' := nodes[i - 2 := WithChildColor(nodes[i - 2], l.color)];
            && Templates(g, nodes', plan.hashes, cs, head, plan.minSymbol, plan.maxSymbol, b)
            && Written(n, b, m[l := nodes[i - 1]], nodes', plan.hashes, [l] + written, i - 1)
    ensures LeafBodies(m[l := nodes[i - 1]]) == LeafBodies(m)
  {
    PathNodeAt(g, n, m, plan, nodes, cs, written, b, head, i);
    hide Templates, Written, LeafBodies;
    TemplatesRecolored(g, nodes, plan.hashes, cs, head, plan.minSymbol, plan.maxSymbol, b, i - 2, l.color);
    WriteOne(n, b, m, nodes, plan.hashes, written, i, l);
    LeavesAfterBranch(m, l, nodes[i - 1]);
  }

  lemma {:induction false} NothingWritten(n: Nodes, b: Loc, m: Nodes, nodes: seq<Node>, hashes: seq<nat>)
    requires |nodes| == |hashes| > 0 && Extends(n, {b}, m)
    ensures Written(n, b, m, nodes, hashes, [], |nodes|)
  {
    assert Listed([]) + {b} == {b};
  }

  lemma {:induction false} WrittenEntries(n: Nodes, b: Loc, m: Nodes, nodes: seq<Node>, hashes: seq<nat>,
                                          written: seq<Loc>, i: nat)
    requires Written(n, b, m, nodes, hashes, written, i)
    ensures Extends(n, Listed(written) + {b}, m) && AllDistinct(written) && b !in written
    ensures 1 <= i <= |nodes| == |hashes|
  {
  }

  // The maximal leaf can be changed, and everything taken back afterwards.
  lemma {:induction false} WrittenLeaf(n: Nodes, b: Loc, m: Nodes, nodes: seq<Node>, hashes: seq<nat>,
                                       written: seq<Loc>, leaf: Node)
    requires Written(n, b, m, nodes, hashes, written, 1) && b in m
    ensures Extends(n, Listed(written) + {b}, m[b := leaf]) && AllDistinct(written) && b !in written && n.Keys <= m.Keys
  {
  }

  // The colour of the bitmap at the end of the path.
  function BitmapColor(h: Loc, written: seq<Loc>): nat {
    if |written| == 0 then h.color else written[|written| - 1].color
  }

  lemma {:induction false} LeavesAfterTwo(n: Nodes, m: Nodes, b: Loc, bNode: Node, bNode': Node, a: Loc, aNode: Node)
    requires LeafBodies(m) == LeafBodies(n)[b := bNode.body] && bNode'.body.Leaf? && aNode.body.Leaf?
    ensures LeafBodies(m[b := bNode'][a := aNode]) == LeafBodies(n)[b := bNode'.body][a := aNode.body]
  {
    LeavesAfterLeaf(m, b, bNode');
    LeavesAfterLeaf(m[b := bNode'], a, aNode);
  }

  // The leaf a is added last; with the head in place of the leaf at h, the path is a
  // chain.
  lemma {:induction false} AllAdded(g: Geometry, n: Nodes, m: Nodes, plan: Plan, nodes: seq<Node>, cs: seq<Path>,
                                    written: seq<Loc>, a: Loc, b: Loc, bNode: Node, head: Node, h: Loc, leaf: KV,
                                    kv: KV, from: nat,
                                    aNode: Node, bNode': Node, m': Nodes)
    requires PathAdded(g, n, m, plan, nodes, cs, written, b, bNode, head) && PlanOk(g, plan, cs, leaf, kv, from, head)
    requires h in n && h.hash == plan.hashes[0] && h.color <= MAX_VALID_COLOR && b.color <= MAX_VALID_COLOR
    requires a !in m && a.hash == plan.minHash && a.color <= MAX_VALID_COLOR && b.hash == plan.maxHash
    requires aNode.parentColor == BitmapColor(h, written) && aNode.lastSymbol == plan.minSymbol
    requires aNode.body.Leaf? && aNode.body.kv == plan.minKV
    requires bNode'.parentColor == BitmapColor(h, written) && bNode'.lastSymbol == plan.maxSymbol
    requires bNode'.body.Leaf? && bNode'.body.kv == plan.maxKV
    requires m' == m[b := bNode'][a := aNode]
    ensures Chain(g, m'[h := nodes[0]], [h] + written, cs, plan.minSymbol, plan.maxSymbol, a, b)
    ensures Extends(n, Listed(written) + {a, b}, m')
    ensures LeafBodies(m') == LeafBodies(n)[b := bNode'.body][a := aNode.body]
  {
    LeavesAfterTwo(n, m, b, bNode, bNode', a, aNode);
    hide LeafBodies;
    var locs, last := [h] + written, |written|;
    assert b in m && h in m && a != h && a != b && b != h;
    ExtendsAdd(n, Listed(written) + {b}, m[b := bNode'], a, aNode);
    assert Listed(written) + {b} + {a} == Listed(written) + {a, b};
    BitmapNode(n, b, m, nodes, plan.hashes, written, h);
    assert HeaderOk(g, nodes[last], plan.hashes[last], cs[last], last, head);
    ChainWritten(g, n, m, nodes, plan.hashes, cs, head, written, h, plan.minSymbol, plan.maxSymbol, a, b,
                 m'[h := nodes[0]]);
  }

  lemma {:induction false} BitmapNode(n: Nodes, b: Loc, m: Nodes, nodes: seq<Node>, hashes: seq<nat>,
                                      written: seq<Loc>, h: Loc)
    requires Written(n, b, m, nodes, hashes, written, 1) && h in n
    ensures |nodes| == |written| + 1 && h !in written && ([h] + written)[|written|].color == BitmapColor(h, written)
    ensures |written| > 0 ==> written[|written| - 1] in m && m[written[|written| - 1]] == nodes[|written|]
                              && written[|written| - 1].hash == hashes[|written|]
                              && written[|written| - 1].color <= MAX_VALID_COLOR
  {
    if |written| > 0 {
      assert NodeWritten(m, nodes, hashes, written, 1, |written|);
    }
  }
}
