// How much room an insertion needs. An entry stands for a prefix, and as long as all
// entries are in their primary buckets, what is left in a bucket is four cells less one
// for every prefix whose primary place is there.
module Demands {
  import opened Keys
  import opened Hashing
  import opened Store
  import opened Order
  import opened Splitting
  import opened JumpSplit

  ghost function PlaceOf(g: Geometry, p: Path): nat { HashToBucket(HashOf(g, p)) }

  // How many of the prefixes have their primary place in the bucket.
  ghost function PlacesIn(g: Geometry, paths: set<Path>, b: nat): nat {
    |PlacedIn(g, paths, b)|
  }

  ghost function PlacedIn(g: Geometry, paths: set<Path>, b: nat): set<Path> {
    set p | p in paths && PlaceOf(g, p) == b
  }

  ghost function Own(t: Path): set<Path> { set i | 0 <= i <= |t| :: t[..i] }

  // A prefix one symbol off the path t that a stored key has.
  ghost predicate IsSibling(dict: Dict, t: Path, p: Path) {
    && |p| > 0 && p[..|p| - 1] < t && !(p <= t)
    && exists key :: key in dict && p <= Symbols(key)
  }

  // The prefixes that an insertion of a key with the path t may have to add entries for.
  ghost predicate MayNeed(dict: Dict, t: Path, p: Path) {
    p <= t || IsSibling(dict, t, p)
  }

  // There are enough unused cells for the key's own prefixes and any one sibling, as far as
  // they are not nodes yet.
  ghost predicate RoomFor(g: Geometry, room: multiset<nat>, at: set<Path>, dict: Dict, t: Path) {
    forall y: Path, b: nat :: MayNeed(dict, t, y) ==> PlacesIn(g, Own(t) + {y} - at, b) <= room[b]
  }

  // What was taken from the room are the primary places of the new nodes.
  ghost predicate Accounted(g: Geometry, at: set<Path>, room: multiset<nat>, at': set<Path>, room': multiset<nat>) {
    forall b: nat :: room'[b] + PlacesIn(g, at', b) == room[b] + PlacesIn(g, at, b)
  }

  // If no mix value is zero and there is enough room, the insertion succeeds and takes just
  // the places of its new nodes.
  ghost predicate Granted(g: Geometry, fits: bool, at: set<Path>, room: multiset<nat>, ok: bool, at': set<Path>,
                          room': multiset<nat>)
  {
    g.NoZeroMix() && fits ==> ok && Accounted(g, at, room, at', room')
  }

  ghost predicate AllMove(g: Geometry, paths: set<Path>) {
    forall p :: p in paths ==> g.Moves(HashOf(g, p))
  }

  // None of the prefixes has a node, and the insertion may have to add one for each.
  ghost predicate Needed(dict: Dict, t: Path, at: set<Path>, paths: set<Path>) {
    forall p :: p in paths ==> p !in at && MayNeed(dict, t, p)
  }

  // Nodes were added for such prefixes only, and only under hashes with two buckets.
  ghost predicate Grew(g: Geometry, dict: Dict, t: Path, at: set<Path>, at': set<Path>) {
    at <= at' && Needed(dict, t, at, at' - at) && AllMove(g, at' - at)
  }

  lemma {:induction false} GrewBy(g: Geometry, dict: Dict, t: Path, at: set<Path>, paths: set<Path>)
    requires Needed(dict, t, at, paths) && AllMove(g, paths)
    ensures Grew(g, dict, t, at, at + paths) && (paths != {} ==> at + paths != at)
  {
    if paths != {} {
      var p :| p in paths;
      assert p in at + paths;
    }
  }

  lemma {:induction false} GrewNot(g: Geometry, dict: Dict, t: Path, at: set<Path>)
    ensures Grew(g, dict, t, at, at)
  {
  }

  lemma {:induction false} GrewTwice(g: Geometry, dict: Dict, t: Path, at: set<Path>, at1: set<Path>, at2: set<Path>)
    requires Grew(g, dict, t, at, at1) && Grew(g, dict, t, at1, at2)
    ensures Grew(g, dict, t, at, at2) && (at1 != at2 ==> at != at2)
  {
    hide MayNeed;
  }

  // The insertion was not promised to succeed.
  ghost predicate Refused(g: Geometry, fits: bool) { !(g.NoZeroMix() && fits) }

  lemma {:induction false} WasRefused(g: Geometry, fits: bool, at: set<Path>, room: multiset<nat>)
    ensures forall at', room' :: Granted(g, fits, at, room, false, at', room') ==> Refused(g, fits)
    ensures forall ok, at', room' :: Refused(g, fits) ==> Granted(g, fits, at, room, ok, at', room')
  {
  }

  lemma {:induction false} InOwn(t: Path, p: Path)
    ensures p in Own(t) <==> p <= t
  {
    if p <= t {
      assert t[..|p|] == p;
    }
  }

  // ------------------------------------------------------------------
  // Counting places
  // ------------------------------------------------------------------

  lemma {:induction false} PlacesMonotone(g: Geometry, a: set<Path>, c: set<Path>, b: nat)
    requires a <= c
    ensures PlacesIn(g, a, b) <= PlacesIn(g, c, b)
  {
    SmallerSet(PlacedIn(g, a, b), PlacedIn(g, c, b));
  }

  lemma {:induction false} SmallerSet(a: set<Path>, c: set<Path>)
    requires a <= c
    ensures |a| <= |c|
  {
    assert c == a + (c - a);
  }

  lemma {:induction false} PlacesDisjoint(g: Geometry, a: set<Path>, c: set<Path>, b: nat)
    requires a !! c
    ensures PlacesIn(g, a + c, b) == PlacesIn(g, a, b) + PlacesIn(g, c, b)
  {
    assert PlacedIn(g, a + c, b) == PlacedIn(g, a, b) + PlacedIn(g, c, b);
  }

  // The buckets are those of the prefixes, each as often as prefixes have it.
  ghost predicate Counts(g: Geometry, need: multiset<nat>, paths: set<Path>) {
    forall b: nat :: need[b] == PlacesIn(g, paths, b)
  }

  lemma {:induction false} CountsNone(g: Geometry)
    ensures Counts(g, multiset{}, {})
  {
    assert forall b: nat :: PlacedIn(g, {}, b) == {};
  }

  lemma {:induction false} CountsOneMore(g: Geometry, need: multiset<nat>, paths: set<Path>, p: Path)
    requires Counts(g, need, paths) && p !in paths
    ensures Counts(g, need + multiset{PlaceOf(g, p)}, paths + {p})
  {
    forall b: nat
      ensures (need + multiset{PlaceOf(g, p)})[b] == PlacesIn(g, paths + {p}, b)
    {
      assert PlacedIn(g, paths + {p}, b) == PlacedIn(g, paths, b) + (if PlaceOf(g, p) == b then {p} else {});
    }
  }

  // An insertion that needs the places of new nodes among the key's own prefixes and one
  // sibling, and got just these if they were there.
  lemma {:induction false} GrantNodes(g: Geometry, need: multiset<nat>, nodes: set<Path>, y: Path, at: set<Path>,
                                      dict: Dict, t: Path, room: multiset<nat>, ok: bool, at': set<Path>,
                                      room': multiset<nat>)
    requires Counts(g, need, nodes) && MayNeed(dict, t, y) && nodes <= Own(t) + {y} && nodes !! at
    requires Served(g, need, room, ok, room') && (ok ==> at' == at + nodes)
    ensures Granted(g, RoomFor(g, room, at, dict, t), at, room, ok, at', room')
    ensures Needed(dict, t, at, nodes)
  {
    forall p | p in nodes
      ensures MayNeed(dict, t, p)
    {
      InOwn(t, p);
    }
    assert nodes <= Own(t) + {y} - at;
    if g.NoZeroMix() && RoomFor(g, room, at, dict, t) {
      forall b: nat
        ensures need[b] <= room[b]
      {
        PlacesMonotone(g, nodes, Own(t) + {y} - at, b);
      }
      assert need <= room;
      forall b: nat
        ensures room'[b] + PlacesIn(g, at', b) == room[b] + PlacesIn(g, at, b)
      {
        PlacesDisjoint(g, at, nodes, b);
      }
    }
  }

  // A key that is there already needs nothing.
  lemma {:induction false} NothingTaken(g: Geometry, fits: bool, at: set<Path>, room: multiset<nat>)
    ensures Granted(g, fits, at, room, true, at, room)
  {
  }

  // The first key takes the root's place.
  lemma {:induction false} RootTaken(g: Geometry, fits: bool, room: multiset<nat>, room': multiset<nat>)
    requires room' + multiset{0} == room
    ensures Granted(g, fits, {}, room, true, {[]}, room')
  {
    CountsNone(g);
    CountsOneMore(g, multiset{}, {}, []);
    var root, none: set<Path> := {[]}, {};
    assert none + root == root;
    forall b: nat
      ensures room'[b] + PlacesIn(g, {[]}, b) == room[b] + PlacesIn(g, {}, b)
    {
      assert room[b] == (room' + multiset{0})[b];
    }
  }

  lemma {:induction false} PlacesOneMore(g: Geometry, paths: set<Path>, p: Path, b: nat)
    ensures PlacesIn(g, paths + {p}, b) <= PlacesIn(g, paths, b) + (if PlaceOf(g, p) == b then 1 else 0)
  {
    var one: set<Path> := if PlaceOf(g, p) == b then {p} else {};
    SmallerSet(PlacedIn(g, paths + {p}, b), PlacedIn(g, paths, b) + one);
  }

  // Whatever nodes there are: room for all the key's prefixes but the root and for one more
  // entry beside any of them is enough.
  lemma {:induction false} SiblingRoomSuffices(g: Geometry, room: multiset<nat>, at: set<Path>, dict: Dict, t: Path)
    requires [] in at
    requires forall b: nat :: PlacesIn(g, Own(t) - {[]}, b) <= room[b]
    requires forall q: Path, x: Symbol, b: nat :: q < t ==>
               PlacesIn(g, Own(t) - {[]}, b) + (if PlaceOf(g, q + [x]) == b then 1 else 0) <= room[b]
    ensures RoomFor(g, room, at, dict, t)
  {
    hide PlacesIn, PlaceOf;
    forall y: Path, b: nat | MayNeed(dict, t, y)
      ensures PlacesIn(g, Own(t) + {y} - at, b) <= room[b]
    {
      InOwn(t, y);
      var own := Own(t) - {[]};
      if y <= t {
        PlacesMonotone(g, Own(t) + {y} - at, own, b);
      } else {
        assert y == y[..|y| - 1] + [y[|y| - 1]];
        PlacesMonotone(g, Own(t) + {y} - at, own + {y}, b);
        PlacesOneMore(g, own, y, b);
      }
    }
  }

  // ------------------------------------------------------------------
  // Splitting a leaf
  // ------------------------------------------------------------------

  ghost function PlacesOf(hashes: seq<nat>): multiset<nat> {
    if |hashes| == 0 then multiset{} else multiset{HashToBucket(hashes[0])} + PlacesOf(hashes[1..])
  }

  lemma {:induction false} PlacesSnoc(hashes: seq<nat>, h: nat)
    ensures PlacesOf(hashes + [h]) == PlacesOf(hashes) + multiset{HashToBucket(h)}
  {
    if |hashes| > 0 {
      assert (hashes + [h])[1..] == hashes[1..] + [h];
      PlacesSnoc(hashes[1..], h);
    } else {
      assert (hashes + [h])[1..] == [];
    }
  }

  lemma {:induction false} PlacesConcat(a: seq<nat>, b: seq<nat>)
    ensures PlacesOf(a + b) == PlacesOf(a) + PlacesOf(b)
  {
    if |a| > 0 {
      assert (a + b)[1..] == a[1..] + b;
      PlacesConcat(a[1..], b);
    } else {
      assert a + b == b;
    }
  }

  lemma {:induction false} ServedNothing(g: Geometry, hashes: seq<nat>, room: multiset<nat>)
    ensures Served(g, PlacesOf(hashes[|hashes|..]), room, true, room)
  {
    assert hashes[|hashes|..] == [] && room - multiset{} == room;
  }

  // The nodes are added from the last to the first.
  lemma {:induction false} PlacesServed(g: Geometry, hashes: seq<nat>, i: nat, before: multiset<nat>,
                                        mid: multiset<nat>, ok: bool, after: multiset<nat>)
    requires 0 < i <= |hashes| && Served(g, PlacesOf(hashes[i..]), before, true, mid)
    requires Served(g, multiset{HashToBucket(hashes[i - 1])}, mid, ok, after)
    ensures Served(g, PlacesOf(hashes[i - 1..]), before, ok, after)
  {
    hide Served;
    assert hashes[i - 1..][1..] == hashes[i..];
    ServedTwice(g, PlacesOf(hashes[i..]), before, mid, multiset{HashToBucket(hashes[i - 1])}, ok, after);
    assert PlacesOf(hashes[i - 1..]) == PlacesOf(hashes[i..]) + multiset{HashToBucket(hashes[i - 1])};
  }

  lemma {:induction false} PlacesRefused(g: Geometry, hashes: seq<nat>, i: nat, before: multiset<nat>,
                                         mid: multiset<nat>, after: multiset<nat>)
    requires 0 < i <= |hashes| && Served(g, PlacesOf(hashes[i..]), before, false, mid)
    ensures Served(g, PlacesOf(hashes[1..]), before, false, after)
  {
    hide Served;
    assert hashes[1..] == hashes[1..i] + hashes[i..];
    PlacesConcat(hashes[1..i], hashes[i..]);
    NotServed(g, PlacesOf(hashes[i..]), PlacesOf(hashes[1..i]), before, mid, after);
    assert PlacesOf(hashes[1..]) == PlacesOf(hashes[i..]) + PlacesOf(hashes[1..i]);
  }

  // The path nodes below the head, and the two leaves.
  ghost function SplitNeed(plan: Plan): multiset<nat>
    requires |plan.hashes| > 0
  {
    PlacesOf(plan.hashes[1..]) + multiset{HashToBucket(plan.maxHash)} + multiset{HashToBucket(plan.minHash)}
  }

  // The prefixes of the path nodes get longer, and their hashes are the planned ones.
  ghost predicate Ascends(g: Geometry, hashes: seq<nat>, cs: seq<Path>) {
    && |hashes| == |cs| && (forall i :: 0 <= i < |cs| ==> hashes[i] == HashOf(g, cs[i]))
    && forall i, j :: 0 <= i < j < |cs| ==> cs[i] < cs[j]
  }

  lemma {:induction false} PathAscends(g: Geometry, nodes: seq<Node>, hashes: seq<nat>, cs: seq<Path>, head: Node,
                                       x: Symbol, y: Symbol, b: Loc)
    requires Templates(g, nodes, hashes, cs, head, x, y, b)
    ensures |cs| > 0 && Ascends(g, hashes, cs)
  {
    forall i | 0 <= i < |cs|
      ensures hashes[i] == HashOf(g, cs[i])
    {
      assert HeaderOk(g, nodes[i], hashes[i], cs[i], i, head);
    }
    forall i, j | 0 <= i < j < |cs|
      ensures cs[i] < cs[j]
    {
      OneAscends(g, nodes, hashes, cs, head, x, y, b, i, j);
    }
  }

  lemma {:induction false} OneAscends(g: Geometry, nodes: seq<Node>, hashes: seq<nat>, cs: seq<Path>, head: Node,
                                      x: Symbol, y: Symbol, b: Loc, i: nat, j: nat)
    requires Templates(g, nodes, hashes, cs, head, x, y, b) && i < j < |cs|
    ensures cs[i] < cs[j]
  {
    assert JumpTo(nodes[j - 1], cs[j - 1], cs[j]);
    if i < j - 1 {
      OneAscends(g, nodes, hashes, cs, head, x, y, b, i, j - 1);
    }
  }

  lemma {:induction false} PathNodesCount(g: Geometry, hashes: seq<nat>, cs: seq<Path>, k: nat)
    requires Ascends(g, hashes, cs) && k < |cs|
    ensures Counts(g, PlacesOf(hashes[1..k + 1]), PathSet(cs[1..k + 1]))
  {
    hide Counts, PlacesOf;
    if k > 0 {
      PathNodesCount(g, hashes, cs, k - 1);
      assert hashes[1..k + 1] == hashes[1..k] + [hashes[k]];
      PlacesSnoc(hashes[1..k], hashes[k]);
      assert cs[1..k + 1] == cs[1..k] + [cs[k]];
      assert PathSet(cs[1..k + 1]) == PathSet(cs[1..k]) + {cs[k]};
      CountsOneMore(g, PlacesOf(hashes[1..k]), PathSet(cs[1..k]), cs[k]);
    } else {
      CountsNone(g);
      NoPlaces(hashes[1..1]);
      assert PathSet(cs[1..1]) == {};
    }
  }

  lemma {:induction false} NoPlaces(hashes: seq<nat>)
    requires |hashes| == 0
    ensures PlacesOf(hashes) == multiset{}
  {
  }

  lemma {:induction false} PathsInOrder(g: Geometry, hashes: seq<nat>, cs: seq<Path>, q: Path)
    requires Ascends(g, hashes, cs) && |cs| > 0 && q in PathSet(cs[1..])
    ensures cs[0] < q <= cs[|cs| - 1]
  {
    var i :| 0 <= i < |cs[1..]| && cs[1..][i] == q;
    assert q == cs[i + 1];
    assert cs[i + 1] <= cs[|cs| - 1];
  }

  lemma {:induction false} MovesBefore(g: Geometry, cs: seq<Path>, i: nat)
    requires 0 < i <= |cs| && AllMove(g, PathSet(cs[i..])) && g.Moves(HashOf(g, cs[i - 1]))
    ensures AllMove(g, PathSet(cs[i - 1..]))
  {
    FirstPath(cs, i - 1);
  }

  lemma {:induction false} NoneMove(g: Geometry, cs: seq<Path>)
    ensures AllMove(g, PathSet(cs[|cs|..]))
  {
  }

  lemma {:induction false} SplitMoves(g: Geometry, cs: seq<Path>, x: Symbol, y: Symbol)
    requires |cs| > 0 && AllMove(g, PathSet(cs[1..]))
    requires g.Moves(HashOf(g, cs[|cs| - 1] + [x])) && g.Moves(HashOf(g, cs[|cs| - 1] + [y]))
    ensures AllMove(g, SplitNodes(cs, x, y))
  {
  }

  lemma {:induction false} SplitParts(cs: seq<Path>, x: Symbol, y: Symbol)
    requires |cs| > 0
    ensures PathSet(cs[1..]) <= SplitNodes(cs, x, y)
    ensures cs[|cs| - 1] + [x] in SplitNodes(cs, x, y) && cs[|cs| - 1] + [y] in SplitNodes(cs, x, y)
  {
  }

  lemma {:induction false} OnThePath(cs: seq<Path>, i: nat)
    requires 0 < i < |cs|
    ensures cs[i] in PathSet(cs[1..])
  {
    assert cs[1..][i - 1] == cs[i];
  }

  lemma {:induction false} SplitCounts(g: Geometry, plan: Plan, cs: seq<Path>, leaf: KV, kv: KV, from: nat, head: Node)
    requires PlanOk(g, plan, cs, leaf, kv, from, head)
    ensures |plan.hashes| > 0 && |cs| > 0
    ensures Counts(g, SplitNeed(plan), SplitNodes(cs, plan.minSymbol, plan.maxSymbol))
    ensures forall q :: q in SplitNodes(cs, plan.minSymbol, plan.maxSymbol) ==> cs[0] < q
  {
    PathAscends(g, plan.nodes, plan.hashes, cs, head, plan.minSymbol, plan.maxSymbol, RootLoc);
    hide Templates;
    var top := cs[|cs| - 1];
    assert plan.minHash == HashOf(g, top + [plan.minSymbol]) && plan.maxHash == HashOf(g, top + [plan.maxSymbol]);
    CountSplit(g, plan.hashes, cs, plan.minSymbol, plan.maxSymbol);
    forall q | q in SplitNodes(cs, plan.minSymbol, plan.maxSymbol)
      ensures cs[0] < q
    {
      assert cs[0] <= top;
      if q in PathSet(cs[1..]) {
        PathsInOrder(g, plan.hashes, cs, q);
      }
    }
  }

  lemma {:induction false} CountSplit(g: Geometry, hashes: seq<nat>, cs: seq<Path>, x: Symbol, y: Symbol)
    requires Ascends(g, hashes, cs) && |cs| > 0 && x != y
    ensures var top := cs[|cs| - 1];
            Counts(g, PlacesOf(hashes[1..]) + multiset{PlaceOf(g, top + [y])} + multiset{PlaceOf(g, top + [x])},
                   SplitNodes(cs, x, y))
  {
    hide Counts, PlacesOf;
    var k, top, inner := |cs| - 1, cs[|cs| - 1], PathSet(cs[1..]);
    PathNodesCount(g, hashes, cs, k);
    assert hashes[1..k + 1] == hashes[1..] && cs[1..k + 1] == cs[1..];
    var hi, lo := top + [y], top + [x];
    assert hi[|top|] == y && lo[|top|] == x;
    forall q | q in inner
      ensures |q| <= |top|
    {
      PathsInOrder(g, hashes, cs, q);
    }
    CountsOneMore(g, PlacesOf(hashes[1..]), inner, hi);
    CountsOneMore(g, PlacesOf(hashes[1..]) + multiset{PlaceOf(g, hi)}, inner + {hi}, lo);
    assert SplitNodes(cs, x, y) == inner + {hi} + {lo};
  }

  // All new nodes of a leaf split but one are prefixes of the new key, and that one is a
  // prefix of the key that was there.
  lemma {:induction false} SplitIsNeeded(g: Geometry, plan: Plan, cs: seq<Path>, leaf: KV, kv: KV, from: nat,
                                         head: Node, dict: Dict) returns (y: Path)
    requires PlanOk(g, plan, cs, leaf, kv, from, head) && leaf.key in dict
    ensures |cs| > 0 && MayNeed(dict, Symbols(kv.key), y)
    ensures SplitNodes(cs, plan.minSymbol, plan.maxSymbol) <= Own(Symbols(kv.key)) + {y}
  {
    PathAscends(g, plan.nodes, plan.hashes, cs, head, plan.minSymbol, plan.maxSymbol, RootLoc);
    hide Templates, Symbols;
    var c := cs[|cs| - 1];
    var mine, theirs := if plan.maxKV == kv then plan.maxSymbol else plan.minSymbol,
                        if plan.maxKV == kv then plan.minSymbol else plan.maxSymbol;
    y := c + [theirs];
    OneSibling(dict, Symbols(kv.key), c, mine, theirs, leaf.key);
    forall q | q in SplitNodes(cs, plan.minSymbol, plan.maxSymbol)
      ensures q in Own(Symbols(kv.key)) + {y}
    {
      InOwn(Symbols(kv.key), q);
      if q in PathSet(cs[1..]) {
        PathsInOrder(g, plan.hashes, cs, q);
      }
    }
  }

  lemma {:induction false} OneSibling(dict: Dict, t: Path, c: Path, mine: Symbol, theirs: Symbol, key: Key)
    requires c + [mine] <= t && mine != theirs && key in dict && c + [theirs] <= Symbols(key)
    ensures c < t && MayNeed(dict, t, c + [theirs])
  {
    var y := c + [theirs];
    assert (c + [mine])[|c|] == mine && y[|c|] == theirs && y[..|y| - 1] == c;
  }

  // ------------------------------------------------------------------
  // Splitting a jump node
  // ------------------------------------------------------------------

  // The bitmap, unless it takes the place of the jump node.
  ghost function ForkNeed(hash: nat, d: nat): multiset<nat> {
    if d > 0 then multiset{HashToBucket(hash)} else multiset{}
  }

  // The jump node for what follows, if anything does.
  ghost function TailNeed(g: Geometry, hash: nat, symbols: Path, d: nat): multiset<nat>
    requires d < |symbols|
  {
    if d + 1 < |symbols| then multiset{HashToBucket(AccumulateHash(g, hash, symbols[d]))} else multiset{}
  }

  lemma {:induction false} TailInJump(c: Path, symbols: Path, d: nat)
    requires d < |symbols|
    ensures d + 1 < |symbols| ==> c + [symbols[d]] in JumpNodes(c, symbols, d)
    ensures d > 0 ==> c in JumpNodes(c, symbols, d)
  {
  }

  lemma {:induction false} JumpMoves(g: Geometry, c: Path, symbols: Path, d: nat)
    requires d < |symbols| && (d > 0 ==> g.Moves(HashOf(g, c)))
    requires d + 1 < |symbols| ==> g.Moves(HashOf(g, c + [symbols[d]]))
    ensures AllMove(g, JumpNodes(c, symbols, d))
  {
  }

  lemma {:induction false} JumpCounts(g: Geometry, c: Path, hash: nat, symbols: Path, d: nat, x: Symbol)
    requires hash == HashOf(g, c) && d < |symbols| && symbols[d] != x
    ensures var need := ForkNeed(hash, d) + TailNeed(g, hash, symbols, d);
            Counts(g, need + multiset{HashToBucket(AccumulateHash(g, hash, x))}, JumpNodes(c, symbols, d) + {c + [x]})
    ensures c + [x] !in JumpNodes(c, symbols, d)
  {
    HashFromSnoc(g, HASH_START_VALUE, c, symbols[d]);
    HashFromSnoc(g, HASH_START_VALUE, c, x);
    var y := c + [symbols[d]];
    assert y[|c|] == symbols[d] && (c + [x])[|c|] == x;
    CountsNone(g);
    hide Counts;
    var fork: set<Path> := if d > 0 then {c} else {};
    if d > 0 {
      CountsOneMore(g, multiset{}, {}, c);
      assert {} + {c} == fork && multiset{} + multiset{PlaceOf(g, c)} == ForkNeed(hash, d);
    }
    assert Counts(g, ForkNeed(hash, d), fork);
    if d + 1 < |symbols| {
      CountsOneMore(g, ForkNeed(hash, d), fork, y);
    } else {
      assert ForkNeed(hash, d) + multiset{} == ForkNeed(hash, d) && fork + {} == fork;
    }
    CountsOneMore(g, ForkNeed(hash, d) + TailNeed(g, hash, symbols, d), JumpNodes(c, symbols, d), c + [x]);
  }

  lemma {:induction false} ChildCounts(g: Geometry, c: Path, hash: nat, x: Symbol)
    requires hash == HashOf(g, c)
    ensures Counts(g, multiset{HashToBucket(AccumulateHash(g, hash, x))}, {c + [x]})
    ensures HashOf(g, c + [x]) == AccumulateHash(g, hash, x)
  {
    HashFromSnoc(g, HASH_START_VALUE, c, x);
    CountsNone(g);
    CountsOneMore(g, multiset{}, {}, c + [x]);
    assert {} + {c + [x]} == {c + [x]};
    assert multiset{} + multiset{PlaceOf(g, c + [x])} == multiset{PlaceOf(g, c + [x])};
  }

  // ------------------------------------------------------------------
  // One addition after the other
  // ------------------------------------------------------------------

  lemma {:induction false} RefusedAnyhow(g: Geometry, need: multiset<nat>, before: multiset<nat>, mid: multiset<nat>,
                                         after: multiset<nat>)
    requires Served(g, need, before, false, mid)
    ensures Served(g, need, before, false, after)
  {
  }

  lemma {:induction false} MaxRefused(g: Geometry, plan: Plan, before: multiset<nat>, mid: multiset<nat>,
                                      after: multiset<nat>)
    requires |plan.hashes| > 0 && Served(g, multiset{HashToBucket(plan.maxHash)}, before, false, mid)
    ensures Served(g, SplitNeed(plan), before, false, after)
  {
    hide Served;
    var top, rest := multiset{HashToBucket(plan.maxHash)}, PlacesOf(plan.hashes[1..]);
    var low := multiset{HashToBucket(plan.minHash)};
    NotServed(g, top, rest + low, before, mid, after);
    assert SplitNeed(plan) == top + (rest + low);
  }

  // The maximal leaf was added; the path nodes are added or not.
  lemma {:induction false} NodesServed(g: Geometry, plan: Plan, before: multiset<nat>, room1: multiset<nat>, ok: bool,
                                       room2: multiset<nat>)
    requires |plan.hashes| > 0 && Served(g, multiset{HashToBucket(plan.maxHash)}, before, true, room1)
    requires Served(g, PlacesOf(plan.hashes[1..]), room1, ok, room2)
    ensures !ok ==> Served(g, SplitNeed(plan), before, false, room2)
  {
    hide Served;
    var top, rest := multiset{HashToBucket(plan.maxHash)}, PlacesOf(plan.hashes[1..]);
    ServedTwice(g, top, before, room1, rest, ok, room2);
    if !ok {
      NotServed(g, top + rest, multiset{HashToBucket(plan.minHash)}, before, room2, room2);
      assert top + rest == rest + top;
    }
  }

  lemma {:induction false} SplitServed(g: Geometry, plan: Plan, before: multiset<nat>, room1: multiset<nat>,
                                       room2: multiset<nat>, ok: bool, after: multiset<nat>)
    requires |plan.hashes| > 0 && Served(g, multiset{HashToBucket(plan.maxHash)}, before, true, room1)
    requires Served(g, PlacesOf(plan.hashes[1..]), room1, true, room2)
    requires Served(g, multiset{HashToBucket(plan.minHash)}, room2, ok, after)
    ensures Served(g, SplitNeed(plan), before, ok, after)
  {
    hide Served;
    var top, rest := multiset{HashToBucket(plan.maxHash)}, PlacesOf(plan.hashes[1..]);
    ServedTwice(g, top, before, room1, rest, true, room2);
    ServedTwice(g, top + rest, before, room2, multiset{HashToBucket(plan.minHash)}, ok, after);
    assert top + rest == rest + top;
  }
}
