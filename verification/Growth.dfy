// Which nodes an insertion adds: for prefixes of the new key and at most one more prefix
// of a stored key, all without a node before. With room for these, it succeeds.
module Growth {
  import opened Keys
  import opened Hashing
  import opened Store
  import opened Structure
  import opened Order
  import opened Splitting
  import opened JumpSplit
  import opened Table
  import opened Fingers
  import opened Places
  import opened Demands

  // Every node of the trie stands for a prefix of a stored key.
  lemma {:induction false} NodeIsPrefix(g: Geometry, n: Nodes, s: Shape, dict: Dict, p: Path) returns (key: Key)
    requires Sound(g, n, s) && MaxAll(n, s) && DictOk(n, dict) && p in s.at
    ensures key in dict && p <= Symbols(key)
  {
    var bound := Longest(s.at.Keys);
    var r := RightmostLeaf(g, n, s, [], p, bound);
    assert NodeOk(n, s, r);
    key := BodyAt(n, s, r).kv.key;
    assert LeafAt(n, s.at[r]) && Stored(n, BodyAt(n, s, r).kv);
  }

  // A new child of a bitmap.
  lemma {:induction false} GapGrants(g: Geometry, n: Nodes, s: Shape, dict: Dict, q: Path, x: Symbol, t: Path,
                                     room: multiset<nat>, ok: bool, at': set<Path>, room': multiset<nat>)
    requires Tree(g, n, s) && q in s.at && BodyAt(n, s, q).Bitmap? && x !in BodyAt(n, s, q).children && q + [x] <= t
    requires Served(g, multiset{HashToBucket(AccumulateHash(g, HashOf(g, q), x))}, room, ok, room')
    requires ok ==> at' == s.at.Keys + {q + [x]}
    ensures Granted(g, RoomFor(g, room, s.at.Keys, dict, t), s.at.Keys, room, ok, at', room')
    ensures Needed(dict, t, s.at.Keys, {q + [x]})
  {
    hide Subtree, Served, RoomFor, Granted, Counts;
    NewChild(g, n, s, [], q, x);
    ChildCounts(g, q, HashOf(g, q), x);
    InOwn(t, q + [x]);
    GrantNodes(g, multiset{HashToBucket(AccumulateHash(g, HashOf(g, q), x))}, {q + [x]}, t, s.at.Keys, dict, t, room,
               ok, at', room');
  }

  // A path in the place of a leaf.
  lemma {:induction false} SplitGrants(g: Geometry, n: Nodes, s: Shape, dict: Dict, plan: Plan, cs: seq<Path>, p: Path,
                                       kv: KV, from: nat, room: multiset<nat>, ok: bool, at': set<Path>,
                                       room': multiset<nat>)
    requires Tree(g, n, s) && DictOk(n, dict) && IsLeaf(n, s, p) && from <= |Symbols(kv.key)|
    requires p == Symbols(kv.key)[..from] && PlanOk(g, plan, cs, BodyAt(n, s, p).kv, kv, from, n[s.at[p]])
    requires |plan.hashes| > 0 && |cs| > 0 && Served(g, SplitNeed(plan), room, ok, room')
    requires ok ==> at' == s.at.Keys + SplitNodes(cs, plan.minSymbol, plan.maxSymbol)
    ensures Granted(g, RoomFor(g, room, s.at.Keys, dict, Symbols(kv.key)), s.at.Keys, room, ok, at', room')
    ensures Needed(dict, Symbols(kv.key), s.at.Keys, SplitNodes(cs, plan.minSymbol, plan.maxSymbol))
  {
    var leaf, head := BodyAt(n, s, p).kv, n[s.at[p]];
    assert LeafAt(n, s.at[p]) && Stored(n, leaf);
    assert cs[0] == p;
    hide DictOk, Served, RoomFor, Granted, Counts, PlanOk, SplitNodes, SplitNeed, Needed, Symbols;
    var y := SplitIsNeeded(g, plan, cs, leaf, kv, from, head, dict);
    SplitCounts(g, plan, cs, leaf, kv, from, head);
    var nodes := SplitNodes(cs, plan.minSymbol, plan.maxSymbol);
    forall q | q in nodes
      ensures q !in s.at
    {
      if q in s.at {
        LeafHasNoChild(g, n, s, [], p, q);
      }
    }
    GrantNodes(g, SplitNeed(plan), nodes, y, s.at.Keys, dict, Symbols(kv.key), room, ok, at', room');
  }

  // A jump node split where the key leaves it, and a leaf below the new bitmap.
  lemma {:induction false} JumpGrants(g: Geometry, n: Nodes, s: Shape, dict: Dict, t: Path, len: nat, d: nat,
                                      e: PathEntry, room: multiset<nat>, ok: bool, at': set<Path>,
                                      room': multiset<nat>)
    requires Findable(g, n, s) && MaxAll(n, s) && DictOk(n, dict) && StandsAt(g, n, s, t, len, d, e)
    requires e.node.body.Jump? && d < |e.node.body.symbols| && len < |t| && e.node.body.symbols[d] != t[len]
    requires Served(g, JumpAndLeaf(g, t[..len], e.node.body.symbols, d, t[len]), room, ok, room')
    requires ok ==> at' == s.at.Keys + JumpNodes(t[..len], e.node.body.symbols, d) + {t[..len] + [t[len]]}
    ensures Granted(g, RoomFor(g, room, s.at.Keys, dict, t), s.at.Keys, room, ok, at', room')
    ensures Needed(dict, t, s.at.Keys, JumpNodes(t[..len], e.node.body.symbols, d) + {t[..len] + [t[len]]})
  {
    hide Findable, StandsAt;
    var c, x, symbols := t[..len], t[len], e.node.body.symbols;
    var key := NewBelowJump(g, n, s, dict, t, len, d, e);
    hide Findable, MaxAll, DictOk, Served, RoomFor, Granted, Counts, Needed, MayNeed, Symbols, JumpNodes, StandsAt, Own,
         HashOf, AccumulateHash, HashToBucket, ForkNeed, TailNeed;
    OneSibling(dict, t, c, x, symbols[d], key);
    JumpCounts(g, c, HashOf(g, c), symbols, d, x);
    JumpIsNeeded(t, c, symbols, d, x);
    var nodes := JumpNodes(c, symbols, d) + {c + [x]};
    assert s.at.Keys + JumpNodes(c, symbols, d) + {c + [x]} == s.at.Keys + nodes;
    GrantNodes(g, JumpAndLeaf(g, c, symbols, d, x), nodes, c + [symbols[d]], s.at.Keys, dict, t, room, ok, at', room');
  }

  lemma {:induction false} NewBelowJump(g: Geometry, n: Nodes, s: Shape, dict: Dict, t: Path, len: nat, d: nat,
                                        e: PathEntry) returns (key: Key)
    requires Findable(g, n, s) && MaxAll(n, s) && DictOk(n, dict) && StandsAt(g, n, s, t, len, d, e)
    requires e.node.body.Jump? && d < |e.node.body.symbols| && len < |t| && e.node.body.symbols[d] != t[len]
    ensures s.at.Keys !! JumpNodes(t[..len], e.node.body.symbols, d) + {t[..len] + [t[len]]}
    ensures key in dict && t[..len] + [e.node.body.symbols[d]] <= Symbols(key)
  {
    hide Subtree, JumpsHide, MaxAll, DictOk, NoGarbage;
    var p := t[..len - d];
    JumpPlace(g, n, s, t, len, d, e);
    NewInJump(g, n, s, p, d, t[len]);
    OldEnd(g, n, s, p, d);
    SplitPaths(p, e.node.body.symbols, d);
    key := NodeIsPrefix(g, n, s, dict, EndPath(n, s, p, d));
  }

  lemma {:induction false} JumpIsNeeded(t: Path, c: Path, symbols: Path, d: nat, x: Symbol)
    requires d < |symbols| && c + [x] <= t
    ensures JumpNodes(c, symbols, d) + {c + [x]} <= Own(t) + {c + [symbols[d]]}
  {
    assert c <= t by { assert c == (c + [x])[..|c|] == t[..|c|]; }
    InOwn(t, c);
    InOwn(t, c + [x]);
  }

  // The buckets of the new nodes.
  ghost function JumpAndLeaf(g: Geometry, c: Path, symbols: Path, d: nat, x: Symbol): multiset<nat>
    requires d < |symbols|
  {
    var hash := HashOf(g, c);
    ForkNeed(hash, d) + TailNeed(g, hash, symbols, d) + multiset{HashToBucket(AccumulateHash(g, hash, x))}
  }

  // ------------------------------------------------------------------
  // Attempts that were retried
  // ------------------------------------------------------------------

  // Between these points of the log an insertion was tried and had to be retried, for a
  // node that it needed.
  ghost predicate RetriedBetween(g: Geometry, log: seq<seq<Cell>>, dict: Dict, at: set<Path>, t: Path, from: int,
                                 to: int)
  {
    exists p :: p !in at && MayNeed(dict, t, p) && RetriedFor(g, log, from, to, HashOf(g, p))
  }

  // So it went n times from the given point to the end of the log: the marks are where one
  // attempt ends and the next begins.
  ghost predicate AllRetried(g: Geometry, log: seq<seq<Cell>>, n: nat, dict: Dict, at: set<Path>, t: Path, from: int) {
    exists marks: seq<int> ::
      && |marks| == n + 1 && marks[0] == from && marks[n] == |log| - 1
      && forall k :: 0 < k <= n ==> RetriedBetween(g, log, dict, at, t, marks[k - 1], marks[k])
  }

  lemma {:induction false} NoneRetried(g: Geometry, log: seq<seq<Cell>>, dict: Dict, at: set<Path>, t: Path)
    ensures AllRetried(g, log, 0, dict, at, t, |log| - 1)
  {
    var marks: seq<int> := [|log| - 1];
    assert marks[0] == |log| - 1;
  }

  lemma {:induction false} OneMoreRetried(g: Geometry, log: seq<seq<Cell>>, n: nat, dict: Dict, at: set<Path>,
                                          before: set<Path>, t: Path, from: int, log': seq<seq<Cell>>)
    requires AllRetried(g, log, n, dict, at, t, from) && log <= log' && at <= before
    requires RetriedBetween(g, log', dict, before, t, |log| - 1, |log'| - 1)
    ensures AllRetried(g, log', n + 1, dict, at, t, from)
  {
    hide MayNeed, RetriedFor;
    var marks: seq<int> :| && |marks| == n + 1 && marks[0] == from && marks[n] == |log| - 1
                           && forall k :: 0 < k <= n ==> RetriedBetween(g, log, dict, at, t, marks[k - 1], marks[k]);
    var marks' := marks + [|log'| - 1];
    var p :| p !in before && MayNeed(dict, t, p) && RetriedFor(g, log', |log| - 1, |log'| - 1, HashOf(g, p));
    assert RetriedBetween(g, log', dict, at, t, |log| - 1, |log'| - 1);
    hide RetriedBetween;
    forall k | 0 < k <= n + 1
      ensures RetriedBetween(g, log', dict, at, t, marks'[k - 1], marks'[k])
    {
      if k <= n {
        assert RetriedBetween(g, log, dict, at, t, marks[k - 1], marks[k]);
        StillBetween(g, log, dict, at, t, marks[k - 1], marks[k], log');
      }
    }
    assert |marks'| == n + 1 + 1 && marks'[0] == from && marks'[n + 1] == |log'| - 1;
  }

  lemma {:induction false} StillBetween(g: Geometry, log: seq<seq<Cell>>, dict: Dict, at: set<Path>, t: Path,
                                        from: int, to: int, log': seq<seq<Cell>>)
    requires RetriedBetween(g, log, dict, at, t, from, to) && log <= log'
    ensures RetriedBetween(g, log', dict, at, t, from, to)
  {
    hide MayNeed;
    var p :| p !in at && MayNeed(dict, t, p) && RetriedFor(g, log, from, to, HashOf(g, p));
    if g.Moves(HashOf(g, p)) {
      var i :| 0 <= i <= to && from <= i && PairFull(g, log[i], HashOf(g, p));
      assert log'[i] == log[i] && log'[to] == log[to];
    }
    assert RetriedFor(g, log', from, to, HashOf(g, p));
  }
}
