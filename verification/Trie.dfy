// The trie: lookups, insertions and updates over the cuckoo hash table.
module Trie {
  import opened Keys
  import opened Hashing
  import opened Store
  import opened Structure
  import opened Order
  import opened Table
  import opened Fingers
  import opened Steps
  import opened Splitting
  import opened JumpSplit
  import opened Places
  import opened Demands
  import opened Growth

  // Answers of the interface; the last one says that the allowed attempts are used up.
  datatype ApiStatus = S_OK | S_ALREADYIN | S_NOTFOUND | S_OVERFLOW | S_RETRIES_EXHAUSTED

  class CuckooTrie {
    const table: CuckooTable
    var isEmpty: bool
    // The head of the linked list of leaves.
    var minNext: Option<Loc>
    var minDirty: bool
    ghost var shape: Shape
    ghost var order: seq<Loc>
    // The abstract state: the value stored under each key.
    ghost var dict: Dict

    ghost predicate Valid()
      reads this, table, table.cells, table.seqs
    {
      && table.Valid() && !minDirty
      && if isEmpty then table.Contents() == map[] && minNext == None && order == [] && dict == map[]
         else Good(table.g, table.Contents(), shape, order, minNext, dict)
    }

    // The prefixes that have nodes.
    ghost function Paths(): set<Path>
      reads this
    {
      if isEmpty then {} else shape.at.Keys
    }

    // The table has room for the nodes that an insertion of the key may add.
    ghost predicate HasRoom(key: Key)
      reads this, table, table.cells
    {
      RoomFor(table.g, table.Room(), Paths(), dict, Symbols(key))
    }

    // An insertion of a key with the path t may have to add a node that does not fit.
    ghost predicate JammedFor(stored: Dict, at: set<Path>, t: Path)
      reads table, table.cells
    {
      exists p :: p !in at && MayNeed(stored, t, p) && table.Jammed(HashOf(table.g, p))
    }

    // An insertion of a key with the path t was retried for a node that it needed.
    ghost predicate RetriedAt(stored: Dict, at: set<Path>, t: Path, from: int)
      reads table
    {
      exists p :: p !in at && MayNeed(stored, t, p) && table.Retried(from, HashOf(table.g, p))
    }

    lemma {:induction false} RetriedNode(stored: Dict, at: set<Path>, t: Path, nodes: set<Path>, from: int)
      requires table.RetriedAmong(from, nodes) && Needed(stored, t, at, nodes)
      ensures RetriedAt(stored, at, t, from)
    {
      hide MayNeed;
    }

    lemma {:induction false} JammedNode(stored: Dict, at: set<Path>, t: Path, nodes: set<Path>)
      requires table.JammedIn(nodes) && Needed(stored, t, at, nodes)
      ensures JammedFor(stored, at, t)
    {
      hide MayNeed;
    }

    // An empty trie.
    constructor (g: Geometry)
      requires g.Valid()
      ensures Valid() && isEmpty && dict == map[] && table.g == g
      ensures forall b :: 0 <= b < g.numBuckets ==> table.Room()[b] == 4
      ensures fresh(table) && fresh(table.cells) && fresh(table.seqs)
    {
      table := new CuckooTable(g);
      isEmpty, minNext, minDirty := true, None, false;
      order, dict := [], map[];
      new;
    }

    // Updates the ghost state at the end of an operation.
    ghost method Record(s: Shape, order': seq<Loc>, dict': Dict)
      requires table.Valid() && !minDirty && !isEmpty && Good(table.g, table.Contents(), s, order', minNext, dict')
      modifies this`shape, this`order, this`dict
      ensures Valid() && dict == dict' && shape == s && order == order'
    {
      hide Subtree, ListOk, DictOk, PathOk, Placed, MaxAll, JumpsHide, RoomOf, WriteLog, EveryEntryPresent;
      shape, order, dict := s, order', dict';
      assert unchanged(table) && unchanged(table.cells) && unchanged(table.seqs);
      assert table.Valid();
    }

    // ----------------------------------------------------------------
    // Stores to the predecessor, which is a leaf or the head of the list
    // ----------------------------------------------------------------

    method NextOf(pred: Option<Loc>) returns (next: Option<Loc>)
      requires table.Valid() && (pred.Some? ==> LeafAt(table.Contents(), pred.value))
      ensures next == if pred.None? then minNext else table.Contents()[pred.value].body.next
    {
      if pred.None? {
        next := minNext;
      } else {
        var node := table.Find(pred.value);
        next := node.body.next;
      }
    }

    method MarkPred(pred: Option<Loc>, dirty: bool)
      requires table.Valid() && (pred.Some? ==> LeafAt(table.Contents(), pred.value))
      modifies this`minDirty, table`history, table.cells, table.seqs
      ensures table.Room() == old(table.Room())
      ensures table.Valid() && PredEdited(old(table.Contents()), pred, table.Contents())
      ensures LeafBodies(table.Contents()) == PredDirty(LeafBodies(old(table.Contents())), pred, dirty)
      ensures minDirty == if pred.None? then dirty else old(minDirty)
    {
      hide Placed, RoomOf, WriteLog, EveryEntryPresent;
      if pred.None? {
        minDirty := dirty;
      } else {
        var node := table.Find(pred.value);
        var node' := node.(body := node.body.(dirty := dirty));
        LeavesAfterLeaf(table.Contents(), pred.value, node');
        table.Update(pred.value, node');
      }
    }

    method LinkPred(pred: Option<Loc>, next: Loc)
      requires table.Valid() && (pred.Some? ==> LeafAt(table.Contents(), pred.value))
      modifies this`minNext, table`history, table.cells, table.seqs
      ensures table.Room() == old(table.Room())
      ensures table.Valid() && PredEdited(old(table.Contents()), pred, table.Contents())
      ensures LeafBodies(table.Contents()) == PredNext(LeafBodies(old(table.Contents())), pred, next)
      ensures minNext == if pred.None? then Some(next) else old(minNext)
    {
      hide Placed, RoomOf, WriteLog, EveryEntryPresent;
      if pred.None? {
        minNext := Some(next);
      } else {
        var node := table.Find(pred.value);
        var node' := node.(body := node.body.(next := Some(next)));
        LeavesAfterLeaf(table.Contents(), pred.value, node');
        table.Update(pred.value, node');
      }
    }

    // ----------------------------------------------------------------
    // max_leaf
    // ----------------------------------------------------------------

    // Copies the max_leaf of the node at the end of the path upwards, as far as the
    // path comes from last children.
    method PropagateMaxLeaf(f: Finger, ghost s: Shape, ghost last: nat)
      requires table.Valid() && f.g == table.g && Findable(f.g, table.Contents(), s)
      requires PathOk(f.g, table.Contents(), s, f.t, f.path, f.lens, last)
               && MaxBut(table.Contents(), s, Prefix(f.t, last))
      modifies f`path, table`history, table.cells, table.seqs
      ensures table.Room() == old(table.Room())
      ensures table.Valid() && Findable(f.g, table.Contents(), s) && MaxAll(table.Contents(), s)
      ensures LeafBodies(table.Contents()) == LeafBodies(old(table.Contents()))
      ensures old(table.Contents()).Keys == table.Contents().Keys
      ensures ChangedAbove(old(table.Contents()), table.Contents(), old(f.path), 0)
    {
      hide SamePath, ChangedAbove, ClimbsTo, FromLast, WroteParent, Placed, RoomOf, WriteLog, EveryEntryPresent, MaxBut,
           MaxAll, LeafBodies, Subtree, JumpsHide;
      ghost var n0, path := table.Contents(), f.path;
      NoneChanged(n0, path);
      var pos, done := |f.path| - 1, false;
      while 0 < pos && !done
        invariant 0 <= pos < |f.path| && table.Valid() && Findable(f.g, table.Contents(), s)
        invariant done ==> MaxAll(table.Contents(), s)
        invariant PathOk(f.g, table.Contents(), s, f.t, f.path, f.lens, last)
        invariant !done ==> MaxBut(table.Contents(), s, Prefix(f.t, f.lens[pos]))
        invariant LeafBodies(table.Contents()) == LeafBodies(n0) && table.Contents().Keys == n0.Keys
        invariant table.Room() == old(table.Room())
        invariant SamePath(path, f.path) && |f.path| == |path| && ChangedAbove(n0, table.Contents(), path, pos)
        invariant !done && pos < |path| - 1 ==> ClimbsTo(path, pos, |path| - 1)
        decreases !done, pos
      {
        done := Climb(f, s, last, pos, n0, path);
        pos := if done then pos else pos - 1;
      }
      if !done {
        MaxButRoot(f.g, table.Contents(), s, []);
      }
      FewerChanged(n0, table.Contents(), path, pos);
    }

    // One step of the propagation, and what has been written so far.
    method Climb(f: Finger, ghost s: Shape, ghost last: nat, pos: nat, ghost n0: Nodes, ghost path: seq<PathEntry>)
        returns (done: bool)
      requires table.Valid() && f.g == table.g && Findable(f.g, table.Contents(), s)
      requires PathOk(f.g, table.Contents(), s, f.t, f.path, f.lens, last) && 0 < pos < |f.path|
      requires MaxBut(table.Contents(), s, Prefix(f.t, f.lens[pos]))
      requires SamePath(path, f.path) && ChangedAbove(n0, table.Contents(), path, pos)
      requires pos < |path| - 1 ==> ClimbsTo(path, pos, |path| - 1)
      modifies f`path, table`history, table.cells, table.seqs
      ensures table.Room() == old(table.Room())
      ensures table.Valid() && Findable(f.g, table.Contents(), s) && |f.path| == old(|f.path|)
      ensures PathOk(f.g, table.Contents(), s, f.t, f.path, f.lens, last)
      ensures if done then MaxAll(table.Contents(), s) else MaxBut(table.Contents(), s, Prefix(f.t, f.lens[pos - 1]))
      ensures LeafBodies(table.Contents()) == LeafBodies(old(table.Contents()))
      ensures old(table.Contents()).Keys == table.Contents().Keys
      ensures SamePath(path, f.path) && ChangedAbove(n0, table.Contents(), path, if done then pos else pos - 1)
      ensures !done ==> ClimbsTo(path, pos - 1, |path| - 1)
    {
      hide SamePath, ChangedAbove, ClimbsTo, FromLast, WroteParent, Placed, RoomOf, WriteLog, EveryEntryPresent, MaxBut,
           MaxAll, LeafBodies, Findable, PathOk;
      ghost var n1, now := table.Contents(), f.path;
      done := StepUp(f, s, last, pos);
      SameAfter(path, now, f.path);
      if !done {
        OneMoreChanged(n0, n1, table.Contents(), path, now, pos);
      }
    }

    // Propagates from path[pos] to path[pos - 1], unless the child is not the last one.
    method StepUp(f: Finger, ghost s: Shape, ghost last: nat, pos: nat) returns (done: bool)
      requires table.Valid() && f.g == table.g && Findable(f.g, table.Contents(), s)
      requires PathOk(f.g, table.Contents(), s, f.t, f.path, f.lens, last) && 0 < pos < |f.path|
      requires MaxBut(table.Contents(), s, Prefix(f.t, f.lens[pos]))
      modifies f`path, table`history, table.cells, table.seqs
      ensures table.Room() == old(table.Room())
      ensures table.Valid() && Findable(f.g, table.Contents(), s) && |f.path| == old(|f.path|)
      ensures PathOk(f.g, table.Contents(), s, f.t, f.path, f.lens, last)
      ensures if done then MaxAll(table.Contents(), s) else MaxBut(table.Contents(), s, Prefix(f.t, f.lens[pos - 1]))
      ensures LeafBodies(table.Contents()) == LeafBodies(old(table.Contents()))
      ensures old(table.Contents()).Keys == table.Contents().Keys
      ensures SamePath(old(f.path), f.path) && (done ==> table.Contents() == old(table.Contents()))
      ensures !done ==> WroteParent(old(table.Contents()), table.Contents(), old(f.path), pos)
    {
      var parent := f.path[pos - 1].node;
      if parent.body.Bitmap? && f.path[pos].node.lastSymbol < parent.body.maxChild {
        // The fields above depend on another child
        NotLast(f.g, table.Contents(), s, f.t, f.path, f.lens, last, pos);
        SamePathSelf(f.path);
        return true;
      }
      CopyUp(f, s, last, pos);
      return false;
    }

    method CopyUp(f: Finger, ghost s: Shape, ghost last: nat, pos: nat)
      requires table.Valid() && f.g == table.g && Findable(f.g, table.Contents(), s)
      requires PathOk(f.g, table.Contents(), s, f.t, f.path, f.lens, last) && 0 < pos < |f.path|
      requires MaxBut(table.Contents(), s, Prefix(f.t, f.lens[pos]))
      requires f.path[pos - 1].node.body.Bitmap? ==> f.path[pos - 1].node.body.maxChild <= f.path[pos].node.lastSymbol
      modifies f`path, table`history, table.cells, table.seqs
      ensures table.Room() == old(table.Room())
      ensures table.Valid() && Findable(f.g, table.Contents(), s) && |f.path| == old(|f.path|)
      ensures PathOk(f.g, table.Contents(), s, f.t, f.path, f.lens, last)
      ensures MaxBut(table.Contents(), s, Prefix(f.t, f.lens[pos - 1]))
      ensures LeafBodies(table.Contents()) == LeafBodies(old(table.Contents()))
      ensures old(table.Contents()).Keys == table.Contents().Keys
      ensures SamePath(old(f.path), f.path) && WroteParent(old(table.Contents()), table.Contents(), old(f.path), pos)
    {
      hide Subtree, Findable, PathOk, MaxBut, Placed, RoomOf, WriteLog, EveryEntryPresent, LeafBodies;
      ghost var n := table.Contents();
      var child, parent := f.path[pos], f.path[pos - 1];
      var node := WithMaxLeaf(parent.node, MaxLeafOf(child.loc, child.node));
      CopiedUp(f.g, n, s, f.t, f.path, f.lens, last, pos);
      table.Update(parent.loc, node);
      f.path := f.path[pos - 1 := parent.(node := node)];
    }

    // ----------------------------------------------------------------
    // A new child of a bitmap
    // ----------------------------------------------------------------

    ghost predicate CanAttach(f: Finger, n: Nodes, s: Shape, q: Path, x: Symbol, loc: Loc)
      reads this, table, table.cells, table.seqs, f
    {
      && table.Valid() && f.g == table.g && table.Contents() == n
      && Attachable(f.g, n, s, f.t, f.path, f.lens, q, x, loc)
    }

    // Sets the bit of the new child in the bitmap at the end of the path; a new last
    // child becomes the bitmap's max_leaf.
    method MarkBitmapChild(f: Finger, x: Symbol, loc: Loc, ghost n: Nodes, ghost s: Shape, ghost q: Path)
      requires CanAttach(f, n, s, q, x, loc)
      modifies f`path, table`history, table.cells, table.seqs
      ensures table.Room() == old(table.Room())
      ensures table.Valid()
      ensures var s' := WithChild(s, q, x, loc); var n' := table.Contents();
              && Findable(f.g, n', s') && MaxBut(n', s', q)
              && PathOk(f.g, n', s', f.t, f.path, f.lens, |q|)
              && LeafBodies(n') == LeafBodies(n)
    {
      hide Subtree, ListOk, DictOk, Placed, MaxAll, JumpsHide, RoomOf, WriteLog, EveryEntryPresent, MaxBut, NoGarbage;
      var e := f.path[|f.path| - 1];
      var b := e.node.body;
      var maximal := b.maxChild < x;
      var body := Bitmap(b.children + {x}, if maximal then x else b.maxChild, if maximal then loc else b.maxLeaf);
      var node := e.node.(body := body);
      assert Marked(e.node, node, x);
      ChildAttached(f.g, n, s, q, x, loc, node);
      PathMarked(f.g, n, s, f.t, f.path, f.lens, |q|, q, x, loc, node);
      StorePathEnd(f, node, n);
    }

    // Changes the node at the end of the path, in the table and in the path.
    method StorePathEnd(f: Finger, node: Node, ghost n: Nodes)
      requires table.Valid() && table.Contents() == n && |f.path| > 0 && f.path[|f.path| - 1].loc in n
      modifies f`path, table`history, table.cells, table.seqs
      ensures table.Room() == old(table.Room())
      ensures table.Valid() && table.Contents() == n[old(f.path[|f.path| - 1].loc) := node]
      ensures f.path == old(f.path)[old(|f.path|) - 1 := old(f.path[|f.path| - 1]).(node := node)]
      ensures table.history == old(table.history) + [table.cells[..]]
      ensures EveryEntryPresent(table.g, table.Contents(), table.cells[..])
    {
      hide Placed, RoomOf, WriteLog, EveryEntryPresent;
      var e := f.path[|f.path| - 1];
      table.Update(e.loc, node);
      f.path := f.path[|f.path| - 1 := e.(node := node)];
    }

    // The finger is at a bitmap that has no child on the way to the new key.
    ghost predicate AtGap(f: Finger, kv: KV, symbol: Symbol, n: Nodes)
      reads this, table, table.cells, table.seqs, f
    {
      && Valid() && !isEmpty && n == table.Contents() && kv.key !in dict
      && f.g == table.g && f.savePath && f.t == Symbols(kv.key) && f.Ok(n, shape) && f.prefixLen <= |f.t|
      && f.depthInJump == 0 && EntryOk(f.g, n, shape, f.containing, f.t[..f.prefixLen])
      && f.containing.node.body.Bitmap? && Stuck(n, shape, f.t[..f.prefixLen], f.t)
      && f.prefixLen < |f.t| && symbol == f.t[f.prefixLen]
    }

    // Adds a leaf for the new key below the bitmap that the finger is at.
    method InsertBitmapChild(f: Finger, kv: KV, symbol: Symbol, ghost n: Nodes) returns (status: Status)
      requires AtGap(f, kv, symbol, n)
      modifies this, f`path, table`spot, table`history, table.cells, table.seqs
      ensures status == SI_OK || status == SI_RETRY || status == SI_FAIL
      ensures status == SI_RETRY ==> table.RetriedAmong(old(table.Mark()), {f.t[..f.prefixLen] + [symbol]})
      ensures status == SI_RETRY ==> old(table.history) <= table.history
      ensures status == SI_FAIL ==> table.JammedIn({f.t[..f.prefixLen] + [symbol]})
      ensures status == SI_OK ==> Paths() == old(Paths()) + {f.t[..f.prefixLen] + [symbol]}
      ensures status == SI_OK ==> AllMove(f.g, {f.t[..f.prefixLen] + [symbol]})
      ensures Served(table.g, multiset{HashToBucket(AccumulateHash(f.g, f.prefixHash, symbol))},
                     old(table.Room()), status == SI_OK, table.Room())
      ensures status == SI_OK ==> Valid() && !isEmpty && dict == old(dict)[kv.key := kv.value]
      ensures status != SI_OK ==> table.Valid() && table.Contents() == n && unchanged(this)
    {
      hide RetriedFor, NoFuller, Subtree, ListOk, DictOk, PathOk, Placed, MaxAll, JumpsHide, RoomOf, WriteLog,
           EveryEntryPresent, Served, Stuck, LeafBodies, Attachable, EntryOk, HashToBucket, AllMove, AccumulateHash,
           Spliced;
      ghost var s, q := shape, f.t[..f.prefixLen];
      var pred, loc;
      ghost var k;
      status, pred, loc, k := PrepareChild(f, kv, symbol, n);
      if status != SI_OK {
        return;
      }
      JoinChild(f, kv, symbol, pred, loc, n, q, k);
      Record(WithChild(s, q, symbol, loc), Spliced(order, k, 0, [loc]), dict[kv.key := kv.value]);
    }

    // The new leaf is in the table; makes it part of the trie and of the list.
    method JoinChild(f: Finger, kv: KV, symbol: Symbol, pred: Option<Loc>, loc: Loc, ghost n: Nodes, ghost q: Path,
                     ghost k: nat)
      requires !minDirty && Good(table.g, n, shape, order, minNext, dict) && kv.key !in dict
      requires table.Valid() && f.g == table.g && loc !in n
      requires Attachable(f.g, table.Contents(), shape, f.t, f.path, f.lens, q, symbol, loc)
      requires IsRank(n, order, Symbols(kv.key), k) && pred == PredAt(order, k)
      requires LeafBodies(table.Contents()) == LeafBodies(n)[loc := Leaf(kv, NextAt(order, k), false)]
      modifies this`minNext, this`minDirty, f`path, table`history, table.cells, table.seqs
      ensures table.Room() == old(table.Room())
      ensures table.Valid() && !minDirty
      ensures Good(table.g, table.Contents(), WithChild(shape, q, symbol, loc), Spliced(order, k, 0, [loc]), minNext,
                   dict[kv.key := kv.value])
    {
      hide Subtree, ListOk, DictOk, PathOk, Placed, MaxAll, JumpsHide, RoomOf, WriteLog, EveryEntryPresent;
      assert pred.Some? ==> LeafAt(n, pred.value);
      OldLeafStays(n, loc, table.Contents(), pred);
      AttachChild(f, pred, symbol, loc, table.Contents(), shape, q);
      BitmapInserted(table.g, n, shape, order, old(minNext), dict, k, kv, loc, table.Contents(),
                     WithChild(shape, q, symbol, loc));
    }

    method PrepareChild(f: Finger, kv: KV, symbol: Symbol, ghost n: Nodes)
        returns (status: Status, pred: Option<Loc>, loc: Loc, ghost k: nat)
      requires AtGap(f, kv, symbol, n)
      modifies table`spot, table`history, table.cells, table.seqs
      ensures status == SI_OK || status == SI_RETRY || status == SI_FAIL
      ensures status == SI_RETRY ==> table.RetriedAmong(old(table.Mark()), {f.t[..f.prefixLen] + [symbol]})
      ensures status == SI_RETRY ==> old(table.history) <= table.history
      ensures status == SI_FAIL ==> table.JammedIn({f.t[..f.prefixLen] + [symbol]})
      ensures status == SI_OK ==> AllMove(f.g, {f.t[..f.prefixLen] + [symbol]})
      ensures Served(table.g, multiset{HashToBucket(AccumulateHash(f.g, f.prefixHash, symbol))},
                     old(table.Room()), status == SI_OK, table.Room())
      ensures table.Valid() && (status != SI_OK ==> table.Contents() == n)
      ensures (forall i :: 0 <= i < |order| ==> LeafAt(n, order[i])) && IsRank(n, order, Symbols(kv.key), k)
      ensures pred == PredAt(order, k) && (pred.Some? ==> LeafAt(n, pred.value))
      ensures status == SI_OK ==>
                && loc !in n
                && Attachable(f.g, table.Contents(), shape, f.t, f.path, f.lens, f.t[..f.prefixLen], symbol, loc)
                && LeafBodies(table.Contents()) == LeafBodies(n)[loc := Leaf(kv, NextAt(order, k), false)]
    {
      hide RetriedFor, NoFuller, Served, Placed, WriteLog, RoomOf, Subtree, ListOk, DictOk, PathOk, MaxAll, JumpsHide,
           Stuck, LeafBodies, Attachable;
      var next;
      pred, next, k := FindGap(f, kv, symbol, n);
      status, loc := AddChildLeaf(f, kv, symbol, next, n);
    }

    // The leaves between which the new key belongs.
    method FindGap(f: Finger, kv: KV, symbol: Symbol, ghost n: Nodes)
        returns (pred: Option<Loc>, next: Option<Loc>, ghost k: nat)
      requires AtGap(f, kv, symbol, n)
      ensures (forall i :: 0 <= i < |order| ==> LeafAt(n, order[i])) && IsRank(n, order, Symbols(kv.key), k)
      ensures pred == PredAt(order, k) && next == NextAt(order, k) && (pred.Some? ==> LeafAt(n, pred.value))
    {
      hide Placed, WriteLog, Subtree, DictOk, MaxAll, JumpsHide;
      ghost var q := f.t[..f.prefixLen];
      ghost var m;
      GapOf(n, shape, q, f.t);
      pred, m := f.FindPredecessor(table, |f.path| - 1, symbol, n, shape);
      CutAtGap(f.g, n, shape, q, symbol, f.t);
      k := PredIs(f.g, n, shape, order, minNext, q, symbol, f.t, pred, m);
      next := NextOf(pred);
    }

    // Adds the leaf, unreachable as yet, with the given successor in the list.
    method AddChildLeaf(f: Finger, kv: KV, symbol: Symbol, next: Option<Loc>, ghost n: Nodes)
        returns (status: Status, loc: Loc)
      requires AtGap(f, kv, symbol, n)
      modifies table`spot, table`history, table.cells, table.seqs
      ensures status == SI_OK || status == SI_RETRY || status == SI_FAIL
      ensures status == SI_RETRY ==> table.RetriedAmong(old(table.Mark()), {f.t[..f.prefixLen] + [symbol]})
      ensures status == SI_RETRY ==> old(table.history) <= table.history
      ensures status == SI_FAIL ==> table.JammedIn({f.t[..f.prefixLen] + [symbol]})
      ensures status == SI_OK ==> AllMove(f.g, {f.t[..f.prefixLen] + [symbol]})
      ensures Served(table.g, multiset{HashToBucket(AccumulateHash(f.g, f.prefixHash, symbol))},
                     old(table.Room()), status == SI_OK, table.Room())
      ensures table.Valid() && (status != SI_OK ==> table.Contents() == n)
      ensures status == SI_OK ==>
                && loc !in n
                && Attachable(f.g, table.Contents(), shape, f.t, f.path, f.lens, f.t[..f.prefixLen], symbol, loc)
                && LeafBodies(table.Contents()) == LeafBodies(n)[loc := Leaf(kv, next, false)]
    {
      hide RetriedFor, NoFuller, Served, Placed, RoomOf, WriteLog, Subtree, ListOk, DictOk, PathOk, MaxAll, JumpsHide,
           LeafBodies, Attachable;
      ghost var q := f.t[..f.prefixLen];
      var hash := AccumulateHash(f.g, f.prefixHash, symbol);
      ChildHash(f.g, q, symbol);
      var leaf := Node(f.containing.loc.color, symbol, Leaf(kv, next, false));
      GapOf(n, shape, q, f.t);
      status, loc := AddLeaf(hash, leaf, Some(f.containing.loc), n);
      if status == SI_OK {
        ReadyToAttach(f.g, n, shape, f.t, f.path, f.lens, q, symbol, loc, leaf);
      }
    }

    // Adds a leaf and then stores its next field, which nobody can see yet.
    method AddLeaf(hash: nat, leaf: Node, keep: Option<Loc>, ghost n: Nodes) returns (status: Status, loc: Loc)
      requires table.Valid() && n == table.Contents() && leaf.body.Leaf? && hash < table.g.NumPairs() && RootLoc in n
      requires keep.Some? ==> keep.value in n
      modifies table`spot, table`history, table.cells, table.seqs
      ensures status == SI_OK || status == SI_RETRY || status == SI_FAIL
      ensures status == SI_RETRY ==> table.Retried(old(table.Mark()), hash)
      ensures old(table.history) <= table.history
      ensures status == SI_FAIL ==> table.Jammed(hash)
      ensures status == SI_OK ==> table.g.Moves(hash)
      ensures Served(table.g, multiset{HashToBucket(hash)}, old(table.Room()), status == SI_OK, table.Room())
      ensures table.Valid() && (status != SI_OK ==> table.Contents() == n)
      ensures status == SI_OK ==> loc.hash == hash && Added(n, table.Contents(), loc, leaf)
    {
      hide RetriedFor, NoFuller, Placed, RoomOf, WriteLog, EveryEntryPresent, Served, AddingState, Subtree;
      var color;
      ghost var trace;
      status, color, trace := table.AddBeside(hash, leaf.(body := leaf.body.(next := None)), keep);
      loc := Loc(hash, color);
      if status == SI_OK {
        table.Update(loc, leaf);
      }
    }

    // Links the new leaf in behind its predecessor and makes it reachable.
    method AttachChild(f: Finger, pred: Option<Loc>, x: Symbol, loc: Loc, ghost n: Nodes, ghost s: Shape, ghost q: Path)
      requires CanAttach(f, n, s, q, x, loc)
      requires !minDirty && (pred.Some? ==> LeafAt(n, pred.value) && pred.value != loc && !n[pred.value].body.dirty)
      modifies this`minNext, this`minDirty, f`path, table`history, table.cells, table.seqs
      ensures table.Room() == old(table.Room())
      ensures table.Valid()
      ensures var s' := WithChild(s, q, x, loc); var n' := table.Contents();
              && Findable(f.g, n', s') && MaxAll(n', s')
              && LeafBodies(n') == PredNext(LeafBodies(n), pred, loc)
      ensures !minDirty && minNext == if pred.None? then Some(loc) else old(minNext)
    {
      hide Subtree, ListOk, DictOk, PathOk, Placed, MaxAll, JumpsHide, RoomOf, WriteLog, EveryEntryPresent, LeafAt,
           Findable, LeafBodies;
      LinkDirty(f, pred, x, loc, n, s, q);
      ghost var n2 := table.Contents();
      MakeReachable(f, x, loc, n2, s, q);
      ghost var n4 := table.Contents();
      AttachedLeaves(n, n2, pred, loc);
      SameLeafAt(n2, n4, pred);
      MarkPred(pred, false);
      PredEditFindable(f.g, n4, WithChild(s, q, x, loc), pred, table.Contents());
    }

    // Makes the predecessor point to the new leaf, and leaves it marked dirty.
    method LinkDirty(f: Finger, pred: Option<Loc>, x: Symbol, loc: Loc, ghost n: Nodes, ghost s: Shape, ghost q: Path)
      requires CanAttach(f, n, s, q, x, loc)
      requires pred.Some? ==> LeafAt(n, pred.value) && pred.value != loc
      modifies this`minNext, this`minDirty, table`history, table.cells, table.seqs
      ensures table.Room() == old(table.Room())
      ensures table.Valid() && CanAttach(f, table.Contents(), s, q, x, loc)
      ensures LeafBodies(table.Contents()) == PredNext(PredDirty(LeafBodies(n), pred, true), pred, loc)
      ensures pred.Some? ==> LeafAt(table.Contents(), pred.value)
      ensures if pred.None? then minDirty && minNext == Some(loc)
              else minDirty == old(minDirty) && minNext == old(minNext)
    {
      hide Subtree, ListOk, DictOk, PathOk, Placed, MaxAll, JumpsHide, RoomOf, WriteLog, EveryEntryPresent;
      MarkPred(pred, true);
      ghost var n1 := table.Contents();
      LinkPred(pred, loc);
      AttachableEdited(f.g, n, s, f.t, f.path, f.lens, q, x, loc, pred, n1);
      AttachableEdited(f.g, n1, s, f.t, f.path, f.lens, q, x, loc, pred, table.Contents());
    }

    method MakeReachable(f: Finger, x: Symbol, loc: Loc, ghost n: Nodes, ghost s: Shape, ghost q: Path)
      requires CanAttach(f, n, s, q, x, loc)
      modifies f`path, table`history, table.cells, table.seqs
      ensures table.Room() == old(table.Room())
      ensures table.Valid()
      ensures var s' := WithChild(s, q, x, loc); var n' := table.Contents();
              Findable(f.g, n', s') && MaxAll(n', s') && LeafBodies(n') == LeafBodies(n)
    {
      MarkBitmapChild(f, x, loc, n, s, q);
      PropagateMaxLeaf(f, WithChild(s, q, x, loc), |q|);
    }

    // ----------------------------------------------------------------
    // Splitting a jump node
    // ----------------------------------------------------------------

    // The finger is inside a jump node whose next symbol is not that of the new key.
    ghost predicate AtJump(f: Finger, n: Nodes)
      reads this, table, table.cells, table.seqs, f
    {
      && Valid() && !isEmpty && n == table.Contents()
      && f.g == table.g && f.savePath && f.Ok(n, shape) && f.prefixLen < |f.t| && f.depthInJump <= f.prefixLen
      && f.containing.node.body.Jump? && f.Blocked(n, shape)
    }

    // The prefix of the jump node that the finger is in.
    ghost function JumpPath(f: Finger): Path
      reads f
      requires f.depthInJump <= f.prefixLen <= |f.t|
    {
      f.t[..f.prefixLen - f.depthInJump]
    }

    // The finger is at a bitmap that has no child for the next symbol.
    ghost predicate AtFork(f: Finger)
      reads f
    {
      && f.depthInJump == 0 && f.containing.node.body.Bitmap?
      && f.prefixLen < |f.t| && f.t[f.prefixLen] !in f.containing.node.body.children
    }

    // What a split of the jump node needs in the table.
    ghost function JumpNeed(f: Finger): multiset<nat>
      reads f
      requires f.containing.node.body.Jump? && f.depthInJump < |f.containing.node.body.symbols|
    {
      ForkNeed(f.prefixHash, f.depthInJump) + TailNeed(f.g, f.prefixHash, f.containing.node.body.symbols, f.depthInJump)
    }

    // The prefixes of the nodes that it adds.
    ghost function JumpPaths(f: Finger): set<Path>
      reads f
      requires f.containing.node.body.Jump? && f.depthInJump < |f.containing.node.body.symbols|
      requires f.prefixLen <= |f.t|
    {
      JumpNodes(f.t[..f.prefixLen], f.containing.node.body.symbols, f.depthInJump)
    }

    // Turns the symbol after the finger into a bitmap, and moves the finger there. `trace`
    // lists the cells after each write made on the way, relocations and taking back
    // included: they always hold the same root-to-leaf paths as before.
    method SplitJumpNode(f: Finger, ghost n: Nodes) returns (status: Status, ghost trace: seq<seq<Cell>>)
      requires AtJump(f, n)
      modifies this`shape, this`order, this`dict, f`depthInJump, f`containing, f`path, f`lens, table`spot,
               table`history, table.cells, table.seqs
      ensures status == SI_OK || status == SI_RETRY || status == SI_FAIL
      ensures status == SI_RETRY ==> table.RetriedAmong(old(table.Mark()), old(JumpPaths(f)))
      ensures status == SI_FAIL ==> table.JammedIn(old(JumpPaths(f)))
      ensures status == SI_OK ==> AllMove(f.g, old(JumpPaths(f))) && Paths() == old(Paths()) + old(JumpPaths(f))
      ensures Served(table.g, old(JumpNeed(f)), old(table.Room()), status == SI_OK, table.Room())
      ensures order == old(order) && dict == old(dict)
      ensures table.history == old(table.history) + trace
      ensures PathsThroughout(table.g, old(LeafPaths(n, shape)), trace)
      ensures status == SI_RETRY ==> table.Valid() && table.Contents() == n && shape == old(shape) && unchanged(f)
      ensures status == SI_OK ==> AtFork(f) && Valid() && f.Ok(table.Contents(), shape)
    {
      hide RetriedFor, NoFuller, Subtree, ListOk, DictOk, PathOk, Placed, MaxAll, JumpsHide, RoomOf, WriteLog,
           EveryEntryPresent, Stuck, LeafPaths, HoldsPaths, BeforeHead, EntryOk, Served, PathsThroughout, TailNeed,
           ForkNeed, ForkPut, TailPut, PathsIn, BodyAt, SplitAdds, JumpNodes, AllMove, HashOf;
      JumpPlace(f.g, n, shape, f.t, f.prefixLen, f.depthInJump, f.containing);
      var b, tail;
      ghost var m1, m2;
      status, b, tail, m1, m2, trace := AddForkNodes(f, n);
      if status != SI_OK {
        return;
      }
      HeadReady(f.g, n, shape, order, minNext, dict, f.t, f.path, f.lens, f.prefixLen, f.depthInJump, f.containing,
                b, tail, m1, m2);
      ghost var paths, added := LeafPaths(n, shape), JumpPaths(f);
      PathsOfSplit(f.g, n, shape, JumpPath(f), f.depthInJump, b, tail);
      WriteHead(f, b, n, m2, tail, added);
      PathsInAll(f.g, paths, trace, [table.cells[..]]);
      trace := trace + [table.cells[..]];
    }

    lemma {:induction false} JumpFacts(f: Finger, n: Nodes)
      requires AtJump(f, n)
      ensures table.Valid() && n == table.Contents() && f.g == table.g && Findable(f.g, n, shape) && MaxAll(n, shape)
      ensures f.Ok(n, shape) && f.containing.node.body.Jump? && f.depthInJump < |f.containing.node.body.symbols|
      ensures f.depthInJump <= f.prefixLen < |f.t| && f.prefixHash == HashOf(f.g, f.t[..f.prefixLen])
    {
      hide Subtree, PathOk, MaxAll, ListOk, DictOk, Placed, HashOf;
    }

    // Everything but the new head, which makes the new nodes part of the trie.
    method AddForkNodes(f: Finger, ghost n: Nodes)
        returns (status: Status, b: Loc, tail: Loc, ghost m1: Nodes, ghost m2: Nodes, ghost trace: seq<seq<Cell>>)
      requires AtJump(f, n) && SplitAt(n, shape, JumpPath(f), f.depthInJump) && f.containing.node == n[f.containing.loc]
      requires HashOf(f.g, f.t[..f.prefixLen]) < f.g.NumPairs() && RootLoc in n && f.containing.loc in n
      modifies table`spot, table`history, table.cells, table.seqs
      ensures table.Valid() && (status == SI_OK || status == SI_RETRY || status == SI_FAIL)
      ensures status == SI_RETRY ==> table.RetriedAmong(old(table.Mark()), old(JumpPaths(f)))
      ensures status == SI_FAIL ==> table.JammedIn(old(JumpPaths(f)))
      ensures status == SI_OK ==> AllMove(f.g, old(JumpPaths(f)))
      ensures Served(table.g, old(JumpNeed(f)), old(table.Room()), status == SI_OK, table.Room())
      ensures table.history == old(table.history) + trace && PathsThroughout(table.g, LeafPaths(n, shape), trace)
      ensures status == SI_RETRY ==> table.Contents() == n
      ensures status == SI_OK ==>
                && m2 == table.Contents() && ForkPut(f.g, n, f.t, f.prefixLen, f.depthInJump, f.containing, b, m1)
                && TailPut(f.g, n, shape, f.t, f.prefixLen, f.depthInJump, f.containing, b, tail, m1, m2)
    {
      hide AtJump, Findable, RetriedIn, JumpNodes, AllMove, SplitAt, RetriedFor, NoFuller, Subtree, ListOk, DictOk,
           PathOk, Placed, MaxAll, JumpsHide, RoomOf, WriteLog, EveryEntryPresent, Stuck, LeafPaths, EntryOk, Served,
           PathsThroughout, TailNeed, ForkNeed, ForkPut, TailPut, HashOf;
      JumpFacts(f, n);
      ghost var room := table.Room();
      ghost var fork := ForkNeed(f.prefixHash, f.depthInJump);
      ghost var rest := TailNeed(f.g, f.prefixHash, f.containing.node.body.symbols, f.depthInJump);
      status, b, m1, trace := AddForkBitmap(f, n);
      tail, m2 := b, m1;
      if status != SI_OK {
        NotServed(f.g, fork, rest, room, table.Room(), table.Room());
        return;
      }
      ghost var room1 := table.Room();
      ghost var trace';
      status, tail, m2, trace' := AddTailOrRecolor(f, b, n, m1, old(table.Mark()));
      ServedTwice(f.g, fork, room, room1, rest, status == SI_OK, table.Room());
      PathsInAll(f.g, LeafPaths(n, shape), trace, trace');
      trace := trace + trace';
      if status == SI_OK {
        JumpMoves(f.g, f.t[..f.prefixLen], f.containing.node.body.symbols, f.depthInJump);
      }
    }

    // Adds the bitmap, unless it will take the place of the jump node.
    method AddForkBitmap(f: Finger, ghost n: Nodes)
        returns (status: Status, b: Loc, ghost m1: Nodes, ghost trace: seq<seq<Cell>>)
      requires AtJump(f, n) && SplitAt(n, shape, JumpPath(f), f.depthInJump) && f.containing.node == n[f.containing.loc]
      requires HashOf(f.g, f.t[..f.prefixLen]) < f.g.NumPairs() && RootLoc in n && f.containing.loc in n
      modifies table`spot, table`history, table.cells, table.seqs
      ensures table.Valid() && (status == SI_OK || status == SI_RETRY || status == SI_FAIL)
      ensures status == SI_RETRY ==> table.RetriedAmong(old(table.Mark()), JumpPaths(f))
      ensures status == SI_FAIL ==> table.JammedIn(JumpPaths(f))
      ensures status == SI_OK && f.depthInJump > 0 ==> f.g.Moves(HashOf(f.g, f.t[..f.prefixLen]))
      ensures Served(table.g, ForkNeed(f.prefixHash, f.depthInJump),
                     old(table.Room()), status == SI_OK, table.Room())
      ensures table.history == old(table.history) + trace && PathsThroughout(table.g, LeafPaths(n, shape), trace)
      ensures status != SI_OK ==> table.Contents() == n
      ensures status == SI_OK ==>
                m1 == table.Contents() && ForkPut(f.g, n, f.t, f.prefixLen, f.depthInJump, f.containing, b, m1)
    {
      hide Subtree, ListOk, DictOk, PathOk, Placed, MaxAll, JumpsHide, RoomOf, WriteLog, EveryEntryPresent, Stuck,
           LeafPaths, AddingState;
      status, b, m1, trace := SI_OK, f.containing.loc, n, [];
      assert table.Room() - multiset{} == table.Room();
      if f.depthInJump > 0 {
        var bitmap, color := NewBitmap(f.containing.node, f.depthInJump), 0;
        status, color, trace := table.AddBeside(f.prefixHash, bitmap, None);
        m1 := table.Contents();
        ForkIsStranger(f.g, n, shape, f.prefixHash, f.containing.node, f.depthInJump);
        PathsWhileAddingOne(f.g, n, shape, f.prefixHash, bitmap, trace);
        if status == SI_OK {
          b := Loc(f.prefixHash, color);
        }
      }
    }

    // Adds a jump node for the symbols after the split, or, if there are none, gives the
    // old jump's child the colour of its new parent.
    method AddTailOrRecolor(f: Finger, b: Loc, ghost n: Nodes, ghost m1: Nodes, ghost from: int)
        returns (status: Status, tail: Loc, ghost m2: Nodes, ghost trace: seq<seq<Cell>>)
      requires table.Valid() && m1 == table.Contents() && f.g == table.g && Findable(f.g, n, shape) && MaxAll(n, shape)
      requires f.Ok(n, shape) && f.containing.node.body.Jump? && f.depthInJump < |f.containing.node.body.symbols|
      requires f.depthInJump <= f.prefixLen <= |f.t| && SplitAt(n, shape, JumpPath(f), f.depthInJump)
      requires ForkPut(f.g, n, f.t, f.prefixLen, f.depthInJump, f.containing, b, m1)
      requires from <= table.Mark()
      modifies table`spot, table`history, table.cells, table.seqs
      ensures table.Valid() && (status == SI_OK || status == SI_RETRY || status == SI_FAIL)
      ensures status == SI_RETRY ==> table.RetriedAmong(from, JumpPaths(f))
      ensures status == SI_FAIL ==> table.JammedIn(JumpPaths(f))
      ensures status == SI_OK && f.depthInJump + 1 < |f.containing.node.body.symbols| ==>
                f.g.Moves(HashOf(f.g, f.t[..f.prefixLen] + [f.containing.node.body.symbols[f.depthInJump]]))
      ensures Served(table.g, TailNeed(table.g, f.prefixHash, f.containing.node.body.symbols, f.depthInJump),
                     old(table.Room()), status == SI_OK, table.Room())
      ensures table.history == old(table.history) + trace && PathsThroughout(table.g, LeafPaths(n, shape), trace)
      ensures status == SI_RETRY ==> table.Contents() == n
      ensures status == SI_OK ==>
                && m2 == table.Contents()
                && TailPut(f.g, n, shape, f.t, f.prefixLen, f.depthInJump, f.containing, b, tail, m1, m2)
    {
      hide JumpNodes, RetriedFor, NoFuller, Subtree, PathOk, Placed, MaxAll, JumpsHide, RoomOf, WriteLog,
           EveryEntryPresent, Stuck, LeafPaths, AddingState, PathsThroughout;
      JumpPlace(f.g, n, shape, f.t, f.prefixLen, f.depthInJump, f.containing);
      var node, d := f.containing.node, f.depthInJump;
      var tailHash := AccumulateHash(f.g, f.prefixHash, node.body.symbols[d]);
      tail := b;
      TailInJump(f.t[..f.prefixLen], node.body.symbols, d);
      if d + 1 < |node.body.symbols| {
        status, tail, trace := AddTail(f, b, tailHash, n, m1, from);
        m2 := table.Contents();
      } else {
        status := SI_OK;
        trace := Recolor(f, Loc(tailHash, node.body.childColor), b, n, m1);
        m2 := table.Contents();
      }
    }

    method AddTail(f: Finger, b: Loc, tailHash: nat, ghost n: Nodes, ghost m1: Nodes, ghost from: int)
        returns (status: Status, tail: Loc, ghost trace: seq<seq<Cell>>)
      requires table.Valid() && m1 == table.Contents() && f.g == table.g && Findable(f.g, n, shape) && MaxAll(n, shape)
      requires f.containing.node.body.Jump? && f.depthInJump + 1 < |f.containing.node.body.symbols|
      requires from <= table.Mark()
      requires tailHash < f.g.NumPairs() && f.prefixLen <= |f.t| && b.hash == HashOf(f.g, f.t[..f.prefixLen])
      requires tailHash == HashOf(f.g, f.t[..f.prefixLen] + [f.containing.node.body.symbols[f.depthInJump]])
      requires if f.depthInJump == 0 then b == f.containing.loc && m1 == n && b in n && n[b].body.Jump?
               else b !in n && m1 == n[b := NewBitmap(f.containing.node, f.depthInJump)]
      modifies table`spot, table`history, table.cells, table.seqs
      ensures table.Valid() && (status == SI_OK || status == SI_RETRY || status == SI_FAIL)
      ensures status == SI_RETRY ==> table.Retried(from, tailHash)
      ensures status == SI_FAIL ==> table.Jammed(tailHash)
      ensures status == SI_OK ==> f.g.Moves(tailHash)
      ensures Served(table.g, multiset{HashToBucket(tailHash)}, old(table.Room()), status == SI_OK, table.Room())
      ensures table.history == old(table.history) + trace && PathsThroughout(table.g, LeafPaths(n, shape), trace)
      ensures status == SI_RETRY ==> table.Contents() == n
      ensures status == SI_OK ==>
                && tail !in m1 && tail.hash == tailHash && tail.color <= MAX_VALID_COLOR
                && table.Contents() == m1[tail := NewTail(f.containing.node, f.depthInJump, b.color)]
    {
      hide RetriedFor, NoFuller, Subtree, Placed, MaxAll, JumpsHide, RoomOf, WriteLog, EveryEntryPresent, LeafPaths,
           AddingState, PathsThroughout, NewBitmap, NoGarbage, Tree;
      var node, color := NewTail(f.containing.node, f.depthInJump, b.color), 0;
      status, color, trace := table.AddBeside(tailHash, node, if f.depthInJump > 0 then Some(b) else None);
      if status == SI_RETRY {
        RetriedSooner(table.g, table.history, old(table.Mark()), table.Mark(), tailHash, from);
      }
      tail := Loc(tailHash, color);
      TailIsStranger(f.g, n, shape, b, f.t[..f.prefixLen], node);
      if f.depthInJump > 0 {
        ForkIsStranger(f.g, n, shape, b.hash, f.containing.node, f.depthInJump);
        PathsWhileAddingTwo(f.g, n, shape, b, NewBitmap(f.containing.node, f.depthInJump), tailHash, node, trace);
      } else {
        PathsWhileAddingOne(f.g, n, shape, tailHash, node, trace);
      }
      if status == SI_RETRY && f.depthInJump > 0 {
        // Take back the bitmap
        RemoveRetried(b, from, tailHash);
        assert m1 - {b} == n;
        PathsKept(f.g, n, shape, table.cells[..]);
        PathsInAll(f.g, LeafPaths(n, shape), trace, [table.cells[..]]);
        trace := trace + [table.cells[..]];
      }
    }

    method Recolor(f: Finger, child: Loc, b: Loc, ghost n: Nodes, ghost m1: Nodes) returns (ghost trace: seq<seq<Cell>>)
      requires table.Valid() && m1 == table.Contents() && f.g == table.g && Findable(f.g, n, shape) && MaxAll(n, shape)
      requires f.depthInJump <= f.prefixLen <= |f.t| && SplitAt(n, shape, JumpPath(f), f.depthInJump)
      requires !HasTail(n, shape, JumpPath(f), f.depthInJump)
      requires f.containing.node == BodyNode(n, shape, JumpPath(f))
      requires child == Loc(HashOf(f.g, ForkPath(n, shape, JumpPath(f), f.depthInJump)
                                        + [OldSymbols(n, shape, JumpPath(f), f.depthInJump)[f.depthInJump]]),
                            BodyAt(n, shape, JumpPath(f)).childColor)
      requires b.hash == HashOf(f.g, ForkPath(n, shape, JumpPath(f), f.depthInJump))
      requires if f.depthInJump == 0 then m1 == n && b == shape.at[JumpPath(f)]
               else b !in n && m1 == n[b := NewBitmap(f.containing.node, f.depthInJump)]
      modifies table`history, table.cells, table.seqs
      ensures table.Room() == old(table.Room())
      ensures table.Valid()
      ensures table.history == old(table.history) + trace && PathsThroughout(table.g, LeafPaths(n, shape), trace)
      ensures Has(n, shape, EndPath(n, shape, JumpPath(f), f.depthInJump))
      ensures var l := shape.at[EndPath(n, shape, JumpPath(f), f.depthInJump)];
              table.Contents() == m1[l := n[l].(parentColor := b.color)]
    {
      hide Subtree, Placed, MaxAll, JumpsHide, RoomOf, WriteLog, EveryEntryPresent, LeafPaths, PathsThroughout,
           AddingState;
      ghost var p, d := JumpPath(f), f.depthInJump;
      ChildPlace(f.g, n, shape, p, d);
      var node := table.Find(child);
      RecolorPlace(f.g, n, shape, p, d, b, m1);
      table.Update(child, node.(parentColor := b.color));
      trace := [table.cells[..]];
      PathsInOne(f.g, LeafPaths(n, shape), table.Contents(), table.cells[..]);
    }

    // Writes the new head, and moves the finger to the bitmap.
    method WriteHead(f: Finger, b: Loc, ghost n: Nodes, ghost m2: Nodes, ghost tail: Loc, ghost added: set<Path>)
      requires table.Valid() && m2 == table.Contents() && f.g == table.g && !minDirty && !isEmpty && f.savePath
      requires f.prefixLen < |f.t| && f.depthInJump <= f.prefixLen && f.containing.node.body.Jump?
      requires f.prefixHash == HashOf(f.g, f.t[..f.prefixLen]) && (f.prefixLen > 0 ==>
                                                                     f.lastPrefixSymbol == f.t[f.prefixLen - 1])
      requires f.depthInJump < |f.containing.node.body.symbols|
               && f.containing.node.body.symbols[f.depthInJump] != f.t[f.prefixLen]
      requires BeforeHead(f.g, n, shape, order, minNext, dict, f.t, f.path, f.lens, f.prefixLen, f.depthInJump,
                          f.containing, b, tail, m2)
      requires SplitAdds(n, shape, JumpPath(f), f.depthInJump, b, tail, added)
      modifies this`shape, this`order, this`dict, f`depthInJump, f`containing, f`path, f`lens, table`history,
               table.cells, table.seqs
      ensures table.Room() == old(table.Room())
      ensures order == old(order) && dict == old(dict)
      ensures Paths() == old(Paths()) + added
      ensures table.history == old(table.history) + [table.cells[..]]
      ensures PathsThroughout(f.g, old(LeafPaths(n, shape)), [table.cells[..]])
      ensures AtFork(f) && Valid() && f.Ok(table.Contents(), shape)
    {
      hide Subtree, ListOk, DictOk, PathOk, Placed, MaxAll, JumpsHide, RoomOf, WriteLog, EveryEntryPresent, LeafPaths,
           HoldsPaths, SplitShape, Grafted, PathsThroughout, HashOf, Good, EntryOk;
      ghost var p := JumpPath(f);
      ghost var s' := Grafted(shape, p, SplitShape(n, shape, p, f.depthInJump, b, tail));
      var head := NewHead(f.containing.node, f.depthInJump, b.color);
      var bitmap := if f.depthInJump == 0 then head else NewBitmap(f.containing.node, f.depthInJump);
      ghost var paths := LeafPaths(n, shape);
      StorePathEnd(f, head, m2);
      PathsInOne(f.g, paths, table.Contents(), table.cells[..]);
      Record(s', order, dict);
      MoveToFork(f, PathEntry(b, bitmap, f.prefixHash), table.Contents(), s');
    }

    method MoveToFork(f: Finger, e: PathEntry, ghost m: Nodes, ghost s: Shape)
      requires f.prefixLen <= |f.t| && f.savePath && EntryOk(f.g, m, s, e, f.t[..f.prefixLen])
      requires f.prefixHash == HashOf(f.g, f.t[..f.prefixLen]) && (f.prefixLen > 0 ==>
                                                                     f.lastPrefixSymbol == f.t[f.prefixLen - 1])
      requires if f.depthInJump == 0 then PathOk(f.g, m, s, f.t, f.path, f.lens, f.prefixLen)
               else PathOk(f.g, m, s, f.t, f.path + [e], f.lens + [f.prefixLen], f.prefixLen)
      modifies f`depthInJump, f`containing, f`path, f`lens
      ensures f.Ok(m, s) && f.depthInJump == 0 && f.containing == e
    {
      if f.depthInJump > 0 {
        f.path, f.lens := f.path + [e], f.lens + [f.prefixLen];
      }
      f.containing, f.depthInJump := e, 0;
    }

    // ----------------------------------------------------------------
    // Splitting a leaf
    // ----------------------------------------------------------------

    // The finger is at a leaf with another key than the new one.
    ghost predicate AtLeaf(f: Finger, kv: KV, n: Nodes)
      reads this, table, table.cells, table.seqs, f
    {
      && Valid() && !isEmpty && n == table.Contents() && kv.key !in dict
      && f.g == table.g && f.savePath && f.t == Symbols(kv.key) && f.Ok(n, shape) && f.prefixLen <= |f.t|
      && f.depthInJump == 0 && EntryOk(f.g, n, shape, f.containing, f.t[..f.prefixLen])
      && f.containing.node.body.Leaf? && f.containing.node.body.kv.key != kv.key
    }

    // The predecessor of the leaf that the finger is at.
    method FindLeafPredecessor(f: Finger, kv: KV, ghost n: Nodes) returns (pred: Option<Loc>, ghost k: nat)
      requires AtLeaf(f, kv, n)
      ensures k < |order| && order[k] == f.containing.loc && pred == PredAt(order, k)
      ensures pred.Some? ==> LeafAt(n, pred.value)
    {
      hide Subtree, ListOk, DictOk, PathOk, Placed, MaxAll, JumpsHide, RoomOf, WriteLog, EveryEntryPresent, Cut, IsRank,
           LeafAt, KeyOf, Symbols;
      PathEndsAt(f.g, n, shape, f.t, f.path, f.lens, f.prefixLen, f.containing);
      if |f.path| == 1 {
        // The leaf is the root
        RootLeafIsFirst(f.g, n, shape, order, minNext);
        return None, 0;
      }
      LeafPosition(f.g, n, shape, f.t, f.path, f.lens, f.prefixLen);
      pred, k := FindSibling(f, |f.path| - 2, KeyOf(n, f.containing.loc), n);
      LeafRank(n, order, minNext, f.containing.loc, k);
    }

    method FindSibling(f: Finger, start: nat, ghost t: Path, ghost n: Nodes) returns (pred: Option<Loc>, ghost k: nat)
      requires table.Valid() && n == table.Contents() && f.g == table.g && f.savePath && f.Ok(n, shape)
      requires Findable(f.g, n, shape) && MaxAll(n, shape) && ListOk(n, order, minNext)
      requires start < |f.path| && f.path[start].node.body.Bitmap?
      requires start < |f.lens| && Cut(n, shape, Prefix(f.t, f.lens[start]), f.lastPrefixSymbol, t)
      ensures IsRank(n, order, t, k) && pred == PredAt(order, k) && (pred.Some? ==> LeafAt(n, pred.value))
    {
      ghost var m;
      pred, m := f.FindPredecessor(table, start, f.lastPrefixSymbol, n, shape);
      k := PredIs(f.g, n, shape, order, minNext, Prefix(f.t, f.lens[start]), f.lastPrefixSymbol, t, pred, m);
    }

    // Takes back the path nodes and the leaf that were added, which does not take away the
    // reason for it.
    method Unwind(written: seq<Loc>, b: Loc, ghost n: Nodes, ghost from: int, ghost hash: nat)
      requires table.Valid() && Extends(n, Listed(written) + {b}, table.Contents()) && RootLoc in n
      requires AllDistinct(written) && b !in written && table.Retried(from, hash)
      modifies table`spot, table`history, table.cells, table.seqs
      ensures table.Valid() && table.Contents() == n
      ensures old(table.history) <= table.history && table.Retried(from, hash)
    {
      hide RetriedFor, Placed, WriteLog, EveryEntryPresent, NoFuller;
      var i := |written|;
      assert written[..i] == written;
      while 0 < i
        invariant 0 <= i <= |written| && table.Valid()
        invariant Extends(n, Listed(written[..i]) + {b}, table.Contents())
        invariant old(table.history) <= table.history && table.Retried(from, hash)
      {
        i := i - 1;
        LastListed(written, i, b);
        ExtendsRemove(n, Listed(written[..i + 1]) + {b}, table.Contents(), written[i]);
        RemoveRetried(written[i], from, hash);
      }
      assert Listed(written[..0]) + {b} == {b} && {b} - {b} == {};
      ExtendsRemove(n, {b}, table.Contents(), b);
      RemoveRetried(b, from, hash);
      ExtendsNone(n, table.Contents());
    }

    // The same, when the node at cs[i] was to be added.
    method UnwindNode(written: seq<Loc>, b: Loc, ghost n: Nodes, ghost since: int, ghost cs: seq<Path>, ghost i: nat,
                      ghost from: int, ghost among: set<Path>)
      requires table.Valid() && Extends(n, Listed(written) + {b}, table.Contents()) && RootLoc in n
      requires AllDistinct(written) && b !in written && from <= since && 0 < i < |cs| && PathSet(cs[1..]) <= among
      requires table.Retried(since, HashOf(table.g, cs[i]))
      modifies table`spot, table`history, table.cells, table.seqs
      ensures table.Valid() && table.Contents() == n
      ensures old(table.history) <= table.history && table.RetriedAmong(from, among)
    {
      hide RetriedFor, Placed, WriteLog, EveryEntryPresent;
      Unwind(written, b, n, since, HashOf(table.g, cs[i]));
      OnThePath(cs, i);
      assert RetriedIn(table.g, table.history, since, {cs[i]});
      table.Sooner(since, {cs[i]}, from, among);
    }

    method RemoveRetried(loc: Loc, ghost from: int, ghost hash: nat)
      requires table.Valid() && loc in table.Contents() && loc != RootLoc && RootLoc in table.Contents()
      requires table.Retried(from, hash)
      modifies table`spot, table`history, table.cells, table.seqs
      ensures table.Valid() && table.Contents() == old(table.Contents()) - {loc}
      ensures table.history == old(table.history) + [table.cells[..]]
      ensures EveryEntryPresent(table.g, table.Contents(), table.cells[..])
      ensures table.Retried(from, hash)
    {
      hide RetriedFor, Placed, WriteLog, EveryEntryPresent, NoFuller;
      ghost var log, cells := table.history, table.cells[..];
      table.Remove(loc);
      RetriedLater(table.g, log, cells, from, table.history, table.cells[..], from, hash);
    }

    // Adds all path nodes but the head, bottom to top. Each tells its parent its colour.
    method AddPathNodes(plan: Plan, nodes: seq<Node>, b: Loc, ghost n: Nodes, ghost cs: seq<Path>, ghost head: Node,
                        ghost from: int, ghost among: set<Path>)
        returns (status: Status, nodes': seq<Node>, written: seq<Loc>)
      requires table.Valid() && Extends(n, {b}, table.Contents()) && RootLoc in n && head.body.Leaf?
      requires Templates(table.g, nodes, plan.hashes, cs, head, plan.minSymbol, plan.maxSymbol, b)
      requires from <= table.Mark() && PathSet(cs[1..]) <= among
      modifies table`spot, table`history, table.cells, table.seqs
      ensures table.Valid() && (status == SI_OK || status == SI_RETRY || status == SI_FAIL)
      ensures status == SI_RETRY ==> table.RetriedAmong(from, among)
      ensures old(table.history) <= table.history
      ensures status == SI_FAIL ==> table.JammedIn(PathSet(cs[1..]))
      ensures status == SI_OK ==> AllMove(table.g, PathSet(cs[1..]))
      ensures Served(table.g, PlacesOf(plan.hashes[1..]), old(table.Room()), status == SI_OK, table.Room())
      ensures status == SI_RETRY ==> table.Contents() == n
      ensures status == SI_OK ==>
                && Templates(table.g, nodes', plan.hashes, cs, head, plan.minSymbol, plan.maxSymbol, b)
                && Written(n, b, table.Contents(), nodes', plan.hashes, written, 1)
                && LeafBodies(table.Contents()) == LeafBodies(old(table.Contents()))
                && b in table.Contents() && table.Contents()[b] == old(table.Contents()[b])
    {
      assert b in table.Contents();
      TemplatesLength(table.g, nodes, plan.hashes, cs, head, plan.minSymbol, plan.maxSymbol, b);
      hide RetriedFor, NoFuller, Placed, RoomOf, WriteLog, EveryEntryPresent, Served, Subtree, PlacesOf, Templates,
           Written, Extends, AllMove, PathSet, LeafBodies, RetriedIn;
      ghost var m0 := table.Contents();
      nodes', written := nodes, [];
      status := SI_OK;
      var i := |nodes|;
      NothingWritten(n, b, m0, nodes, plan.hashes);
      ServedNothing(table.g, plan.hashes, table.Room());
      NoneMove(table.g, cs);
      while 1 < i
        invariant 1 <= i <= |nodes| && table.Valid()
        invariant Templates(table.g, nodes', plan.hashes, cs, head, plan.minSymbol, plan.maxSymbol, b)
        invariant Written(n, b, table.Contents(), nodes', plan.hashes, written, i)
        invariant LeafBodies(table.Contents()) == LeafBodies(m0)
        invariant b in table.Contents() && table.Contents()[b] == m0[b] && status == SI_OK
        invariant Served(table.g, PlacesOf(plan.hashes[i..]), old(table.Room()), true, table.Room())
        invariant old(table.history) <= table.history && from <= table.Mark()
        invariant |nodes'| == |plan.hashes| == |cs| && AllMove(table.g, PathSet(cs[i..]))
      {
        OnThePath(cs, i - 1);
        status, nodes', written := AddOrUnwind(plan, nodes', written, b, i, n, cs, head, old(table.Room()),
                                               from, among);
        if status != SI_OK {
          return;
        }
        MovesBefore(table.g, cs, i);
        i := i - 1;
      }
    }

    // Adds one path node; if it must be retried, everything is taken back.
    method AddOrUnwind(plan: Plan, nodes: seq<Node>, written: seq<Loc>, b: Loc, i: nat, ghost n: Nodes,
                       ghost cs: seq<Path>, ghost head: Node, ghost before: multiset<nat>, ghost from: int,
                       ghost among: set<Path>)
        returns (status: Status, nodes': seq<Node>, written': seq<Loc>)
      requires table.Valid() && RootLoc in n && head.body.Leaf? && 1 < i
      requires Templates(table.g, nodes, plan.hashes, cs, head, plan.minSymbol, plan.maxSymbol, b)
      requires Written(n, b, table.Contents(), nodes, plan.hashes, written, i) && i <= |plan.hashes|
      requires Served(table.g, PlacesOf(plan.hashes[i..]), before, true, table.Room()) && from <= table.Mark()
               && PathSet(cs[1..]) <= among
      modifies table`spot, table`history, table.cells, table.seqs
      ensures table.Valid() && (status == SI_OK || status == SI_RETRY || status == SI_FAIL)
      ensures status == SI_RETRY ==> table.RetriedAmong(from, among)
      ensures old(table.history) <= table.history
      ensures status == SI_FAIL ==> table.Jammed(HashOf(table.g, cs[i - 1]))
      ensures status == SI_OK ==> table.g.Moves(HashOf(table.g, cs[i - 1]))
      ensures status == SI_OK ==> Served(table.g, PlacesOf(plan.hashes[i - 1..]), before, true, table.Room())
      ensures status != SI_OK ==> Served(table.g, PlacesOf(plan.hashes[1..]), before, false, table.Room())
      ensures status == SI_RETRY ==> table.Contents() == n
      ensures status == SI_OK ==>
                && |nodes'| == |nodes|
                && Templates(table.g, nodes', plan.hashes, cs, head, plan.minSymbol, plan.maxSymbol, b)
                && Written(n, b, table.Contents(), nodes', plan.hashes, written', i - 1)
                && LeafBodies(table.Contents()) == LeafBodies(old(table.Contents()))
                && b in table.Contents() && table.Contents()[b] == old(table.Contents()[b])
    {
      TemplatesLength(table.g, nodes, plan.hashes, cs, head, plan.minSymbol, plan.maxSymbol, b);
      hide RetriedIn, PathSet, RetriedFor, NoFuller, Placed, RoomOf, WriteLog, EveryEntryPresent, Served, Subtree,
           PlacesOf, Templates, Written, Extends, Listed, LeafBodies;
      ghost var room := table.Room();
      WrittenEntries(n, b, table.Contents(), nodes, plan.hashes, written, i);
      status, nodes', written' := AddPathNode(plan, nodes, written, b, i, n, cs, head);
      ghost var room' := table.Room();
      PlacesServed(table.g, plan.hashes, i, before, room, status == SI_OK, room');
      if status == SI_RETRY {
        UnwindNode(written, b, n, old(table.Mark()), cs, i - 1, from, among);
      }
      if status != SI_OK {
        PlacesRefused(table.g, plan.hashes, i - 1, before, room', table.Room());
      }
    }

    method AddPathNode(plan: Plan, nodes: seq<Node>, written: seq<Loc>, b: Loc, i: nat, ghost n: Nodes,
                       ghost cs: seq<Path>, ghost head: Node)
        returns (status: Status, nodes': seq<Node>, written': seq<Loc>)
      requires table.Valid() && RootLoc in n && head.body.Leaf? && 1 < i
      requires Templates(table.g, nodes, plan.hashes, cs, head, plan.minSymbol, plan.maxSymbol, b)
      requires Written(n, b, table.Contents(), nodes, plan.hashes, written, i)
      modifies table`spot, table`history, table.cells, table.seqs
      ensures table.Valid() && (status == SI_OK || status == SI_RETRY || status == SI_FAIL)
      ensures status == SI_RETRY ==> table.Retried(old(table.Mark()), HashOf(table.g, cs[i - 1]))
      ensures old(table.history) <= table.history
      ensures status == SI_FAIL ==> table.Jammed(HashOf(table.g, cs[i - 1]))
      ensures status == SI_OK ==> table.g.Moves(HashOf(table.g, cs[i - 1]))
      ensures Served(table.g, multiset{HashToBucket(plan.hashes[i - 1])},
                     old(table.Room()), status == SI_OK, table.Room())
      ensures status == SI_RETRY ==> table.Contents() == old(table.Contents()) && written' == written
      ensures status == SI_OK ==>
                && |nodes'| == |nodes|
                && Templates(table.g, nodes', plan.hashes, cs, head, plan.minSymbol, plan.maxSymbol, b)
                && Written(n, b, table.Contents(), nodes', plan.hashes, written', i - 1)
                && LeafBodies(table.Contents()) == LeafBodies(old(table.Contents()))
                && b in table.Contents() && table.Contents()[b] == old(table.Contents()[b])
    {
      hide RetriedFor, NoFuller, Placed, RoomOf, WriteLog, EveryEntryPresent, Served, AddingState, Subtree;
      ghost var m := table.Contents();
      assert HeaderOk(table.g, nodes[i - 1], plan.hashes[i - 1], cs[i - 1], i - 1, head);
      HashInRange(table.g, HASH_START_VALUE, cs[i - 1]);
      var color;
      nodes', written' := nodes, written;
      ghost var trace;
      status, color, trace := table.AddBeside(plan.hashes[i - 1], nodes[i - 1], None);
      if status == SI_OK {
        var loc := Loc(plan.hashes[i - 1], color);
        WroteOne(table.g, n, m, plan, nodes, cs, written, b, head, i, loc);
        nodes', written' := nodes[i - 2 := WithChildColor(nodes[i - 2], color)], [loc] + written;
      }
    }

    // Adds the maximal leaf, the path nodes and the minimal leaf, all unreachable as
    // yet. If one of them must be retried, everything is taken back.
    method AddSplit(plan: Plan, h: Loc, next: Option<Loc>, ghost n: Nodes, ghost cs: seq<Path>, ghost leaf: KV,
                    ghost kv: KV, ghost from: nat, ghost head: Node)
        returns (status: Status, headNode: Node, a: Loc, b: Loc, written: seq<Loc>)
      requires table.Valid() && table.Contents() == n && RootLoc in n && head.body.Leaf?
      requires PlanOk(table.g, plan, cs, leaf, kv, from, head)
      requires h in n && h.hash == plan.hashes[0] && h.color <= MAX_VALID_COLOR
      modifies table`spot, table`history, table.cells, table.seqs
      ensures table.Valid() && (status == SI_OK || status == SI_RETRY || status == SI_FAIL)
      ensures status == SI_RETRY ==>
                table.RetriedAmong(old(table.Mark()), SplitNodes(cs, plan.minSymbol, plan.maxSymbol))
      ensures status == SI_RETRY ==> old(table.history) <= table.history
      ensures status == SI_FAIL ==> table.JammedIn(SplitNodes(cs, plan.minSymbol, plan.maxSymbol))
      ensures status == SI_OK ==> AllMove(table.g, SplitNodes(cs, plan.minSymbol, plan.maxSymbol))
      ensures Served(table.g, SplitNeed(plan), old(table.Room()), status == SI_OK, table.Room())
      ensures status == SI_RETRY ==> table.Contents() == n
      ensures status == SI_OK ==> Extends(n, Listed(written) + {a, b}, table.Contents())
      ensures status == SI_OK ==>
                && Chain(table.g, table.Contents()[h := headNode], [h] + written, cs, plan.minSymbol, plan.maxSymbol,
                         a, b)
                && headNode.parentColor == head.parentColor && headNode.lastSymbol == head.lastSymbol
                && LeafBodies(table.Contents()) ==
                     LeafBodies(n)[b := Leaf(plan.maxKV, next, false)][a := Leaf(plan.minKV, Some(b), false)]
    {
      hide PlanOk, RetriedFor, PathSet, NoFuller, Placed, RoomOf, WriteLog, EveryEntryPresent, Served, Subtree,
           LeafBodies, Symbols, SymLess, AllMove, SplitNodes, SplitNeed, Templates, Chain, Written;
      PlanLength(table.g, plan, cs, leaf, kv, from, head);
      ghost var room, top, nodes0 := table.Room(), cs[|cs| - 1], SplitNodes(cs, plan.minSymbol, plan.maxSymbol);
      SplitParts(cs, plan.minSymbol, plan.maxSymbol);
      headNode, a, written := plan.nodes[0], h, [];
      HashInRange(table.g, HASH_START_VALUE, top + [plan.maxSymbol]);
      // The parent colour is not known yet
      var maxLeaf := Node(0, plan.maxSymbol, Leaf(plan.maxKV, next, false));
      status, b := AddLeaf(plan.maxHash, maxLeaf, None, n);
      ghost var room1 := table.Room();
      if status != SI_OK {
        assert status == SI_FAIL ==> table.Jammed(HashOf(table.g, top + [plan.maxSymbol]));
        assert status == SI_RETRY ==> table.Retried(old(table.Mark()), HashOf(table.g, top + [plan.maxSymbol]));
        MaxRefused(table.g, plan, room, room1, room1);
        return;
      }
      var nodes := SetMaxLeaves(plan.nodes, b);
      TemplatesMax(table.g, plan.nodes, plan.hashes, cs, head, plan.minSymbol, plan.maxSymbol, RootLoc, b, nodes);
      LeavesAfterLeaf(n, b, maxLeaf);
      status, headNode, a, written := AddBelowMax(plan, nodes, h, b, maxLeaf, n, cs, leaf, kv, from, head, room,
                                                  old(table.Mark()), nodes0);
    }

    // The maximal leaf is in the table; adds the path nodes and the minimal leaf.
    method AddBelowMax(plan: Plan, nodes0: seq<Node>, h: Loc, b: Loc, maxLeaf: Node, ghost n: Nodes,
                       ghost cs: seq<Path>, ghost leaf: KV, ghost kv: KV, ghost from: nat, ghost head: Node,
                       ghost before: multiset<nat>, ghost since: int, ghost among: set<Path>)
        returns (status: Status, headNode: Node, a: Loc, written: seq<Loc>)
      requires table.Valid() && RootLoc in n && head.body.Leaf? && PlanOk(table.g, plan, cs, leaf, kv, from, head)
      requires Templates(table.g, nodes0, plan.hashes, cs, head, plan.minSymbol, plan.maxSymbol, b)
      requires Extends(n, {b}, table.Contents()) && b in table.Contents() && table.Contents()[b] == maxLeaf
      requires LeafBodies(table.Contents()) == LeafBodies(n)[b := maxLeaf.body]
      requires h in n && h.hash == plan.hashes[0] && h.color <= MAX_VALID_COLOR
      requires b.hash == plan.maxHash && b.color <= MAX_VALID_COLOR
      requires maxLeaf.lastSymbol == plan.maxSymbol && maxLeaf.body.Leaf? && maxLeaf.body.kv == plan.maxKV
      requires since <= table.Mark() && among == SplitNodes(cs, plan.minSymbol, plan.maxSymbol)
      requires Served(table.g, multiset{HashToBucket(plan.maxHash)}, before, true, table.Room())
      requires table.g.Moves(plan.maxHash)
      modifies table`spot, table`history, table.cells, table.seqs
      ensures table.Valid() && (status == SI_OK || status == SI_RETRY || status == SI_FAIL)
      ensures status == SI_RETRY ==> table.RetriedAmong(since, among) && old(table.history) <= table.history
      ensures status == SI_FAIL ==> table.JammedIn(among)
      ensures status == SI_OK ==> AllMove(table.g, among)
      ensures Served(table.g, SplitNeed(plan), before, status == SI_OK, table.Room())
      ensures status == SI_RETRY ==> table.Contents() == n
      ensures status == SI_OK ==> Extends(n, Listed(written) + {a, b}, table.Contents())
      ensures status == SI_OK ==>
                && Chain(table.g, table.Contents()[h := headNode], [h] + written, cs, plan.minSymbol, plan.maxSymbol,
                         a, b)
                && headNode.parentColor == head.parentColor && headNode.lastSymbol == head.lastSymbol
                && LeafBodies(table.Contents()) ==
                     LeafBodies(n)[b := maxLeaf.body][a := Leaf(plan.minKV, Some(b), false)]
    {
      hide PathAdded, PlanOk, RetriedFor, PathSet, NoFuller, Placed, RoomOf, WriteLog, EveryEntryPresent, Served,
           Subtree, LeafBodies, Symbols, SymLess, AllMove, SplitNodes, SplitNeed, Templates, Chain, Written, Extends;
      PlanLength(table.g, plan, cs, leaf, kv, from, head);
      SplitParts(cs, plan.minSymbol, plan.maxSymbol);
      ghost var top, room1 := cs[|cs| - 1], table.Room();
      headNode, a := plan.nodes[0], h;
      var nodes;
      status, nodes, written := AddPathNodes(plan, nodes0, b, n, cs, head, since, among);
      ghost var room2 := table.Room();
      NodesServed(table.g, plan, before, room1, status == SI_OK, room2);
      if status != SI_OK {
        return;
      }
      PathIsAdded(table.g, n, table.Contents(), plan, nodes, cs, written, b, maxLeaf, head);
      status, a := AddMinLeaf(plan, nodes, written, h, b, maxLeaf, n, cs, leaf, kv, from, head, since);
      SplitServed(table.g, plan, before, room1, room2, status == SI_OK, table.Room());
      assert status == SI_FAIL ==> table.Jammed(HashOf(table.g, top + [plan.minSymbol]));
      assert status == SI_RETRY ==> table.Retried(since, HashOf(table.g, top + [plan.minSymbol]));
      if status == SI_OK {
        SplitMoves(table.g, cs, plan.minSymbol, plan.maxSymbol);
      }
      TemplatesLength(table.g, nodes, plan.hashes, cs, head, plan.minSymbol, plan.maxSymbol, b);
      headNode := nodes[0];
    }

    method AddMinLeaf(plan: Plan, nodes: seq<Node>, written: seq<Loc>, h: Loc, b: Loc, maxLeaf: Node,
                      ghost n: Nodes, ghost cs: seq<Path>, ghost leaf: KV, ghost kv: KV, ghost from: nat,
                          ghost head: Node, ghost since: int)
        returns (status: Status, a: Loc)
      requires table.Valid() && RootLoc in n && head.body.Leaf? && PlanOk(table.g, plan, cs, leaf, kv, from, head)
      requires PathAdded(table.g, n, table.Contents(), plan, nodes, cs, written, b, maxLeaf, head)
      requires h in n && h.hash == plan.hashes[0] && h.color <= MAX_VALID_COLOR
      requires b.hash == plan.maxHash && b.color <= MAX_VALID_COLOR
      requires maxLeaf.lastSymbol == plan.maxSymbol && maxLeaf.body.Leaf? && maxLeaf.body.kv == plan.maxKV
      requires since <= table.Mark()
      modifies table`spot, table`history, table.cells, table.seqs
      ensures table.Valid() && (status == SI_OK || status == SI_RETRY || status == SI_FAIL)
      ensures status == SI_RETRY ==> table.Retried(since, plan.minHash)
      ensures status == SI_RETRY ==> old(table.history) <= table.history
      ensures status == SI_FAIL ==> table.Jammed(plan.minHash)
      ensures status == SI_OK ==> table.g.Moves(plan.minHash)
      ensures Served(table.g, multiset{HashToBucket(plan.minHash)}, old(table.Room()), status == SI_OK, table.Room())
      ensures status == SI_RETRY ==> table.Contents() == n
      ensures status == SI_OK ==> Extends(n, Listed(written) + {a, b}, table.Contents())
      ensures status == SI_OK ==>
                && Chain(table.g, table.Contents()[h := nodes[0]], [h] + written, cs, plan.minSymbol, plan.maxSymbol,
                         a, b)
                && LeafBodies(table.Contents()) == LeafBodies(n)[b := maxLeaf.body][a := Leaf(plan.minKV, Some(b),
                   false)]
    {
      hide RetriedFor, NoFuller, Subtree, ListOk, DictOk, PathOk, Placed, MaxAll, JumpsHide, RoomOf, WriteLog,
           EveryEntryPresent, Chain, Served;
      ghost var m := table.Contents();
      WrittenLeaf(n, b, m, nodes, plan.hashes, written, maxLeaf.(parentColor := BitmapColor(h, written)));
      var color := BitmapColor(h, written);
      var maxLeaf' := maxLeaf.(parentColor := color);
      var minLeaf := Node(color, plan.minSymbol, Leaf(plan.minKV, Some(b), false));
      HashInRange(table.g, HASH_START_VALUE, cs[|cs| - 1] + [plan.minSymbol]);
      status, a := ColorAndAdd(b, maxLeaf', plan.minHash, minLeaf, since);
      if status == SI_OK {
        AllAdded(table.g, n, m, plan, nodes, cs, written, a, b, maxLeaf, head, h, leaf, kv, from, minLeaf, maxLeaf',
                 table.Contents());
      } else if status == SI_RETRY {
        ghost var room := table.Room();
        Unwind(written, b, n, since, plan.minHash);
        RefusedAnyhow(table.g, multiset{HashToBucket(plan.minHash)}, old(table.Room()), room, table.Room());
      }
    }

    // The maximal leaf learns its parent's colour, and the minimal leaf is added.
    method ColorAndAdd(b: Loc, maxLeaf: Node, minHash: nat, minLeaf: Node, ghost from: int)
        returns (status: Status, a: Loc)
      requires table.Valid() && b in table.Contents() && RootLoc in table.Contents() && minHash < table.g.NumPairs()
      requires from <= table.Mark()
      modifies table`spot, table`history, table.cells, table.seqs
      ensures table.Valid() && (status == SI_OK || status == SI_RETRY || status == SI_FAIL)
      ensures status == SI_RETRY ==> table.Retried(from, minHash)
      ensures old(table.history) <= table.history
      ensures status == SI_FAIL ==> table.Jammed(minHash)
      ensures status == SI_OK ==> table.g.Moves(minHash)
      ensures Served(table.g, multiset{HashToBucket(minHash)}, old(table.Room()), status == SI_OK, table.Room())
      ensures status != SI_OK ==> table.Contents() == old(table.Contents())[b := maxLeaf]
      ensures status == SI_OK ==>
                && a !in old(table.Contents()) && a.hash == minHash && a.color <= MAX_VALID_COLOR
                && table.Contents() == old(table.Contents())[b := maxLeaf][a := minLeaf]
    {
      hide RetriedFor, NoFuller, Placed, RoomOf, WriteLog, EveryEntryPresent, Served, AddingState, Subtree;
      table.Update(b, maxLeaf);
      ghost var mark := table.Mark();
      var c;
      ghost var trace;
      status, c, trace := table.AddBeside(minHash, minLeaf, Some(b));
      a := Loc(minHash, c);
      if status == SI_RETRY {
        RetriedSooner(table.g, table.history, mark, table.Mark(), minHash, from);
      }
    }

    // Writes the head of the path over the leaf, which makes the whole path reachable.
    method ReplaceLeaf(f: Finger, pred: Option<Loc>, headNode: Node, ghost m: Nodes, ghost s: Shape, ghost p: Path,
                       ghost locs: seq<Loc>, ghost cs: seq<Path>, ghost x: Symbol, ghost y: Symbol, ghost a: Loc,
                           ghost b: Loc)
        returns (ghost s': Shape)
      requires table.Valid() && m == table.Contents() && f.g == table.g
      requires CanReplace(f.g, m, s, f.t, f.path, f.lens, p, locs, cs, x, y, a, b, headNode)
      requires pred.Some? ==> LeafAt(m, pred.value) && pred.value in s.of && pred.value != s.at[p]
      modifies this`minDirty, f`path, table`history, table.cells, table.seqs
      ensures table.Room() == old(table.Room()) && |cs| > 0 && s'.at.Keys == s.at.Keys + SplitNodes(cs, x, y)
      ensures table.Valid() && Findable(f.g, table.Contents(), s') && MaxBut(table.Contents(), s', p)
      ensures PathOk(f.g, table.Contents(), s', f.t, f.path, f.lens, |p|) && !f.path[|f.path| - 1].node.body.Leaf?
      ensures p in s.at && LeafBodies(table.Contents()) == PredDirty(LeafBodies(m), pred, true) - {s.at[p]}
      ensures minDirty == if pred.None? then true else old(minDirty)
    {
      hide Subtree, ListOk, DictOk, PathOk, Placed, MaxAll, JumpsHide, RoomOf, WriteLog, EveryEntryPresent;
      MarkPred(pred, true);
      ghost var m1 := table.Contents();
      ReplaceEdited(f.g, m, s, f.t, f.path, f.lens, p, locs, cs, x, y, a, b, headNode, pred, m1);
      s' := PutHead(f, headNode, m1, s, p, locs, cs, x, y, a, b);
    }

    method PutHead(f: Finger, headNode: Node, ghost m: Nodes, ghost s: Shape, ghost p: Path,
                   ghost locs: seq<Loc>, ghost cs: seq<Path>, ghost x: Symbol, ghost y: Symbol, ghost a: Loc,
                       ghost b: Loc)
        returns (ghost s': Shape)
      requires table.Valid() && m == table.Contents() && f.g == table.g
      requires CanReplace(f.g, m, s, f.t, f.path, f.lens, p, locs, cs, x, y, a, b, headNode)
      modifies f`path, table`history, table.cells, table.seqs
      ensures table.Room() == old(table.Room()) && |cs| > 0 && s'.at.Keys == s.at.Keys + SplitNodes(cs, x, y)
      ensures table.Valid() && Findable(f.g, table.Contents(), s') && MaxBut(table.Contents(), s', p)
      ensures PathOk(f.g, table.Contents(), s', f.t, f.path, f.lens, |p|) && !f.path[|f.path| - 1].node.body.Leaf?
      ensures p in s.at && LeafBodies(table.Contents()) == LeafBodies(m) - {s.at[p]}
    {
      hide Subtree, ListOk, DictOk, PathOk, Placed, MaxAll, JumpsHide, RoomOf, WriteLog, EveryEntryPresent, CanReplace;
      s' := LeafReplaced(f.g, m, s, f.t, f.path, f.lens, p, locs, cs, x, y, a, b, headNode);
      StorePathEnd(f, headNode, m);
    }

    // Links the minimal of the two new leaves in behind the predecessor, and updates
    // the max_leaf fields above.
    method LinkSplit(f: Finger, pred: Option<Loc>, a: Loc, ghost s: Shape, ghost p: Path)
      requires table.Valid() && f.g == table.g && |p| <= |f.t| && p == f.t[..|p|]
      requires Findable(f.g, table.Contents(), s) && MaxBut(table.Contents(), s, p)
      requires PathOk(f.g, table.Contents(), s, f.t, f.path, f.lens, |p|) && !f.path[|f.path| - 1].node.body.Leaf?
      requires pred.Some? ==> LeafAt(table.Contents(), pred.value)
      modifies this`minNext, this`minDirty, f`path, table`history, table.cells, table.seqs
      ensures table.Room() == old(table.Room())
      ensures table.Valid() && Findable(f.g, table.Contents(), s) && MaxAll(table.Contents(), s)
      ensures LeafBodies(table.Contents()) == PredDirty(PredNext(old(LeafBodies(table.Contents())), pred, a), pred,
                                                        false)
      ensures if pred.None? then !minDirty && minNext == Some(a)
              else minDirty == old(minDirty) && minNext == old(minNext)
    {
      hide Subtree, ListOk, DictOk, Placed, MaxAll, JumpsHide, RoomOf, WriteLog, EveryEntryPresent;
      ghost var n := table.Contents();
      LinkPred(pred, a);
      ghost var n1 := table.Contents();
      PredEditKeeps(f.g, n, s, pred, n1, p);
      PathUnderEdit(f.g, n, s, f.t, f.path, f.lens, |p|, pred, n1);
      PropagateMaxLeaf(f, s, |p|);
      ghost var n2 := table.Contents();
      LinkedStays(n, n1, pred, a);
      SameLeafAt(n1, n2, pred);
      MarkPred(pred, false);
      PredEditFindable(f.g, n2, s, pred, table.Contents());
    }

    // Turns the leaf that the finger is at into a path to a bitmap with two leaves.
    method SplitLeaf(f: Finger, kv: KV, ghost n: Nodes) returns (status: Status)
      requires AtLeaf(f, kv, n)
      modifies this, f`path, table`spot, table`history, table.cells, table.seqs
      ensures status == SI_OK || status == SI_RETRY || status == SI_FAIL
      ensures status == SI_RETRY ==> RetriedAt(old(dict), old(Paths()), Symbols(kv.key), old(table.Mark()))
      ensures status == SI_RETRY ==> old(table.history) <= table.history
      ensures status == SI_FAIL ==> JammedFor(old(dict), old(Paths()), Symbols(kv.key))
      ensures status == SI_OK ==>
                Grew(table.g, old(dict), Symbols(kv.key), old(Paths()), Paths()) && Paths() != old(Paths())
      ensures Granted(table.g, old(HasRoom(kv.key)), old(Paths()), old(table.Room()), status == SI_OK, Paths(),
                      table.Room())
      ensures status == SI_OK ==> Valid() && !isEmpty && dict == old(dict)[kv.key := kv.value]
      ensures status == SI_RETRY ==> table.Valid() && table.Contents() == n && unchanged(this)
    {
      hide RetriedFor, NoFuller, Subtree, ListOk, DictOk, PathOk, Placed, MaxAll, JumpsHide, RoomOf, WriteLog,
           EveryEntryPresent, Served, LeafBodies, CanReplace, PlanOk, Stuck, SplitNodes, SplitNeed, AllMove, Needed,
           Grew, Granted, RoomFor, MayNeed;
      ghost var s, p := shape, f.t[..f.prefixLen];
      var pred, k := FindLeafPredecessor(f, kv, n);
      var leaf := f.containing.node;
      LeafSharesPrefix(f.g, n, s, p, kv.key);
      var plan, cs := PlanSplit(f.g, leaf.body.kv, kv, f.prefixLen, f.prefixHash, leaf.lastSymbol, leaf);
      var headNode, a, b, written;
      ghost var room := table.Room();
      status, headNode, a, b, written := AddSplitOf(f, plan, kv, n, cs);
      PlanLength(f.g, plan, cs, leaf.body.kv, kv, f.prefixLen, leaf);
      SplitParts(cs, plan.minSymbol, plan.maxSymbol);
      ghost var nodes := SplitNodes(cs, plan.minSymbol, plan.maxSymbol);
      ghost var after := if status == SI_OK then s.at.Keys + nodes else s.at.Keys;
      SplitGrants(f.g, n, s, dict, plan, cs, p, kv, f.prefixLen, room, status == SI_OK, after, table.Room());
      if status != SI_OK {
        if status == SI_FAIL {
          JammedNode(dict, s.at.Keys, f.t, nodes);
        } else {
          RetriedNode(dict, s.at.Keys, f.t, nodes, old(table.Mark()));
        }
        return;
      }
      GrewBy(f.g, dict, f.t, s.at.Keys, nodes);
      JoinSplit(f, kv, plan, pred, headNode, a, b, n, written, cs, k);
    }

    method AddSplitOf(f: Finger, plan: Plan, ghost kv: KV, ghost n: Nodes, ghost cs: seq<Path>)
        returns (status: Status, headNode: Node, a: Loc, b: Loc, written: seq<Loc>)
      requires AtLeaf(f, kv, n) && PlanOk(f.g, plan, cs, f.containing.node.body.kv, kv, f.prefixLen, f.containing.node)
      modifies table`spot, table`history, table.cells, table.seqs
      ensures table.Valid() && (status == SI_OK || status == SI_RETRY || status == SI_FAIL)
      ensures status == SI_RETRY ==>
                table.RetriedAmong(old(table.Mark()), SplitNodes(cs, plan.minSymbol, plan.maxSymbol))
      ensures status == SI_RETRY ==> old(table.history) <= table.history
      ensures status == SI_FAIL ==> table.JammedIn(SplitNodes(cs, plan.minSymbol, plan.maxSymbol))
      ensures status == SI_OK ==> AllMove(f.g, SplitNodes(cs, plan.minSymbol, plan.maxSymbol))
      ensures Served(table.g, SplitNeed(plan), old(table.Room()), status == SI_OK, table.Room())
      ensures status == SI_RETRY ==> table.Contents() == n
      ensures status == SI_OK ==> a !in n && b !in n && a != b
      ensures status == SI_OK ==>
                && CanReplace(f.g, table.Contents(), shape, f.t, f.path, f.lens, f.t[..f.prefixLen],
                              [f.containing.loc] + written, cs, plan.minSymbol, plan.maxSymbol, a, b, headNode)
                && LeafBodies(table.Contents()) == LeafBodies(n)[b := Leaf(plan.maxKV, f.containing.node.body.next,
                                                                           false)]
                                                               [a := Leaf(plan.minKV, Some(b), false)]
    {
      hide RetriedFor, NoFuller, Served, Symbols, PathOk;
      ghost var p := f.t[..f.prefixLen];
      assert NamedOk(f.g, n, shape, p);
      assert HeaderOk(f.g, plan.nodes[0], plan.hashes[0], cs[0], 0, f.containing.node);
      status, headNode, a, b, written := AddSplit(plan, f.containing.loc, f.containing.node.body.next, n, cs,
                                                  f.containing.node.body.kv, kv, f.prefixLen, f.containing.node);
      if status == SI_OK {
        ReadyToReplace(f.g, n, shape, f.t, f.path, f.lens, p, written, cs, plan.minSymbol, plan.maxSymbol, a, b,
                       headNode,
                       table.Contents());
      }
    }

    // Everything is in the table; makes it part of the trie and of the list.
    method JoinSplit(f: Finger, kv: KV, plan: Plan, pred: Option<Loc>, headNode: Node, a: Loc, b: Loc,
                     ghost n: Nodes, ghost written: seq<Loc>, ghost cs: seq<Path>, ghost k: nat)
      requires !isEmpty && !minDirty && Good(table.g, n, shape, order, minNext, dict) && kv.key !in dict
      requires table.Valid() && f.g == table.g && f.prefixLen <= |f.t| && f.t == Symbols(kv.key)
      requires EntryOk(f.g, n, shape, f.containing, f.t[..f.prefixLen]) && f.containing.node.body.Leaf?
      requires k < |order| && order[k] == f.containing.loc && pred == PredAt(order, k)
      requires PlanOk(f.g, plan, cs, f.containing.node.body.kv, kv, f.prefixLen, f.containing.node)
      requires CanReplace(f.g, table.Contents(), shape, f.t, f.path, f.lens, f.t[..f.prefixLen],
                          [f.containing.loc] + written, cs, plan.minSymbol, plan.maxSymbol, a, b, headNode)
      requires a !in n && b !in n && a != b
      requires LeafBodies(table.Contents()) == LeafBodies(n)[b := Leaf(plan.maxKV, f.containing.node.body.next, false)]
                                                            [a := Leaf(plan.minKV, Some(b), false)]
      modifies this, f`path, table`history, table.cells, table.seqs
      ensures table.Room() == old(table.Room())
      ensures |cs| > 0 && Paths() == old(Paths()) + SplitNodes(cs, plan.minSymbol, plan.maxSymbol)
      ensures Valid() && !isEmpty && dict == old(dict)[kv.key := kv.value]
    {
      hide Subtree, ListOk, DictOk, Chain, PathOk, Placed, MaxAll, JumpsHide, RoomOf, WriteLog, EveryEntryPresent,
           LeafBodies, CanReplace, Symbols, SplitNodes, SymLess;
      ghost var p := f.t[..f.prefixLen];
      ghost var h, next := f.containing.loc, f.containing.node.body.next;
      PredOfSplit(n, shape, order, minNext, k, a, b, table.Contents(), pred,
                  TwoLeaves(LeafBodies(n), plan, next, a, b));
      ghost var s' := SwapIn(f, plan, pred, headNode, a, b, n, p, h, next, [h] + written, cs);
      LeafSplitDone(f.g, n, shape, order, old(minNext), dict, k, p, kv, plan, a, b, table.Contents(), s');
      Record(s', Spliced(order, k, 1, [a, b]), dict[kv.key := kv.value]);
    }

    // The two new leaves and what they hold.
    ghost function TwoLeaves(leaves: map<Loc, Body>, plan: Plan, next: Option<Loc>, a: Loc, b: Loc): map<Loc, Body> {
      leaves[b := Leaf(plan.maxKV, next, false)][a := Leaf(plan.minKV, Some(b), false)]
    }

    // Replaces the leaf by the path, and links the new leaves in.
    method SwapIn(f: Finger, plan: Plan, pred: Option<Loc>, headNode: Node, a: Loc, b: Loc, ghost n: Nodes,
                  ghost p: Path, ghost h: Loc, ghost next: Option<Loc>, ghost locs: seq<Loc>, ghost cs: seq<Path>)
        returns (ghost s': Shape)
      requires table.Valid() && f.g == table.g && !minDirty
      requires CanReplace(f.g, table.Contents(), shape, f.t, f.path, f.lens, p, locs, cs, plan.minSymbol,
                          plan.maxSymbol, a, b, headNode)
      requires h == locs[0] && LeafBodies(table.Contents()) == TwoLeaves(LeafBodies(n), plan, next, a, b)
      requires PredFits(n, shape, pred, h, a, b, table.Contents())
      modifies this`minNext, this`minDirty, f`path, table`history, table.cells, table.seqs
      ensures table.Room() == old(table.Room())
      ensures |cs| > 0 && s'.at.Keys == shape.at.Keys + SplitNodes(cs, plan.minSymbol, plan.maxSymbol)
      ensures table.Valid() && Findable(f.g, table.Contents(), s') && MaxAll(table.Contents(), s') && !minDirty
      ensures minNext == if pred.None? then Some(a) else old(minNext)
      ensures LeafBodies(table.Contents()) == PredNext(TwoLeaves(LeafBodies(n) - {h}, plan, next, a, b), pred, a)
    {
      hide Subtree, ListOk, DictOk, PathOk, Placed, MaxAll, JumpsHide, RoomOf, WriteLog, EveryEntryPresent, Findable,
           Has, Chain, Tree;
      ghost var m := table.Contents();
      s' := ReplaceLeaf(f, pred, headNode, m, shape, p, locs, cs, plan.minSymbol, plan.maxSymbol, a, b);
      SplitLeaves(LeafBodies(n), pred, h, a, b, Leaf(plan.minKV, Some(b), false), Leaf(plan.maxKV, next, false),
                  LeafBodies(m), LeafBodies(table.Contents()));
      assert pred.Some? ==> pred.value in LeafBodies(table.Contents());
      LinkSplit(f, pred, a, s', p);
    }

    // ----------------------------------------------------------------
    // Inserting
    // ----------------------------------------------------------------

    // The finger has descended the key as far as the trie goes.
    ghost predicate Descended(f: Finger, kv: KV, symbol: int, n: Nodes)
      reads this, table, table.cells, table.seqs, f
    {
      && Valid() && !isEmpty && n == table.Contents()
      && f.g == table.g && f.t == Symbols(kv.key) && f.Ok(n, shape) && f.Blocked(n, shape)
      && (symbol == -1 ==> f.containing.node.body.Leaf? && f.containing.node.body.kv.key == kv.key)
      && (symbol != -1 ==> f.prefixLen < |f.t| && symbol == f.t[f.prefixLen])
    }

    // Makes a leaf for the key, which the finger has descended. The dictionary changes
    // exactly if the result is SI_OK.
    method CreateLeaf(f: Finger, kv: KV, symbol: int, ghost n: Nodes) returns (status: Status)
      requires Descended(f, kv, symbol, n) && f.savePath
      modifies this, f`depthInJump, f`containing, f`path, f`lens, table`spot, table`history, table.cells, table.seqs
      ensures status == SI_OK ==> Valid() && !isEmpty && kv.key !in old(dict) && dict == old(dict)[kv.key := kv.value]
      ensures status == SI_RETRY ==> Valid() && !isEmpty && dict == old(dict)
      ensures status == SI_EXISTS ==>
                && table.Valid() && table.Contents() == n && unchanged(this)
                && LeafAt(n, f.containing.loc) && n[f.containing.loc].body.kv.key == kv.key
                && f.containing.node == n[f.containing.loc]
      ensures status == SI_RETRY ==> RetriedAt(old(dict), old(Paths()), Symbols(kv.key), old(table.Mark()))
      ensures status == SI_RETRY ==> old(table.history) <= table.history
      ensures status == SI_FAIL ==> JammedFor(old(dict), old(Paths()), Symbols(kv.key))
      ensures status == SI_OK ==>
                Grew(table.g, old(dict), Symbols(kv.key), old(Paths()), Paths()) && Paths() != old(Paths())
      ensures status == SI_RETRY ==> Grew(table.g, old(dict), Symbols(kv.key), old(Paths()), Paths())
      ensures Granted(table.g, old(HasRoom(kv.key)), old(Paths()), old(table.Room()),
                      status == SI_OK || status == SI_EXISTS, Paths(), table.Room())
      ensures kv.key in old(dict) ==> status == SI_EXISTS
    {
      hide RetriedFor, NoFuller, Subtree, ListOk, DictOk, PathOk, Placed, MaxAll, JumpsHide, RoomOf, WriteLog,
           EveryEntryPresent, HoldsPaths, LeafPaths, Clean, Served, HashToBucket;
      WhereDescended(f.g, n, shape, dict, f.t, f.prefixLen, f.depthInJump, f.containing, kv.key);
      if f.containing.node.body.Leaf? {
        status := CreateBesideLeaf(f, kv, n);
      } else if f.containing.node.body.Bitmap? {
        status := CreateInGap(f, kv, symbol, n);
      } else {
        status := CreateInJump(f, kv, symbol, n);
      }
    }

    // The finger is at a bitmap: adds the leaf there.
    method CreateInGap(f: Finger, kv: KV, symbol: Symbol, ghost n: Nodes) returns (status: Status)
      requires AtGap(f, kv, symbol, n)
      modifies this, f`path, table`spot, table`history, table.cells, table.seqs
      ensures status == SI_OK || status == SI_RETRY || status == SI_FAIL
      ensures status == SI_OK ==> Valid() && !isEmpty && dict == old(dict)[kv.key := kv.value]
      ensures status == SI_RETRY ==> Valid() && !isEmpty && dict == old(dict) && Paths() == old(Paths())
      ensures status == SI_RETRY ==> RetriedAt(old(dict), old(Paths()), Symbols(kv.key), old(table.Mark()))
      ensures status == SI_RETRY ==> old(table.history) <= table.history
      ensures status == SI_FAIL ==> JammedFor(old(dict), old(Paths()), Symbols(kv.key))
      ensures status == SI_OK ==>
                Grew(table.g, old(dict), Symbols(kv.key), old(Paths()), Paths()) && Paths() != old(Paths())
      ensures Granted(table.g, old(HasRoom(kv.key)), old(Paths()), old(table.Room()), status == SI_OK, Paths(),
                      table.Room())
    {
      hide RetriedFor, NoFuller, Subtree, ListOk, DictOk, PathOk, Placed, MaxAll, JumpsHide, RoomOf, WriteLog,
           EveryEntryPresent, Served, HashToBucket, Granted, RoomFor, Needed, Grew, Symbols;
      ghost var s, stored, room, q := shape, dict, table.Room(), f.t[..f.prefixLen];
      GapOf(n, s, q, f.t);
      status := InsertBitmapChild(f, kv, symbol, n);
      GapGrants(f.g, n, s, stored, q, symbol, f.t, room, status == SI_OK, Paths(), table.Room());
      if status == SI_OK {
        GrewBy(f.g, stored, f.t, s.at.Keys, {q + [symbol]});
      } else if status == SI_FAIL {
        JammedNode(stored, s.at.Keys, f.t, {q + [symbol]});
      } else {
        RetriedNode(stored, s.at.Keys, f.t, {q + [symbol]}, old(table.Mark()));
      }
    }

    // The finger is inside a jump node: splits it, and adds the leaf below the new bitmap.
    method CreateInJump(f: Finger, kv: KV, symbol: int, ghost n: Nodes) returns (status: Status)
      requires AtJump(f, n) && f.t == Symbols(kv.key) && symbol == f.t[f.prefixLen] && kv.key !in dict
      modifies this, f`depthInJump, f`containing, f`path, f`lens, table`spot, table`history, table.cells, table.seqs
      ensures status == SI_OK || status == SI_RETRY || status == SI_FAIL
      ensures status == SI_OK ==> Valid() && !isEmpty && dict == old(dict)[kv.key := kv.value]
      ensures status == SI_RETRY ==> Valid() && !isEmpty && dict == old(dict)
      ensures status == SI_RETRY ==> RetriedAt(old(dict), old(Paths()), Symbols(kv.key), old(table.Mark()))
      ensures status == SI_RETRY ==> old(table.history) <= table.history
      ensures status == SI_FAIL ==> JammedFor(old(dict), old(Paths()), Symbols(kv.key))
      ensures status == SI_OK ==>
                Grew(table.g, old(dict), Symbols(kv.key), old(Paths()), Paths()) && Paths() != old(Paths())
      ensures status == SI_RETRY ==> Grew(table.g, old(dict), Symbols(kv.key), old(Paths()), Paths())
      ensures Granted(table.g, old(HasRoom(kv.key)), old(Paths()), old(table.Room()), status == SI_OK, Paths(),
                      table.Room())
    {
      hide RetriedFor, NoFuller, Subtree, ListOk, DictOk, PathOk, Placed, MaxAll, JumpsHide, RoomOf, WriteLog,
           EveryEntryPresent, Served, ForkNeed, TailNeed, Symbols, Granted, RoomFor, Needed, Grew, JumpNodes, MayNeed,
           AllMove, Stuck, SplitAt, HashToBucket, AccumulateHash;
      ghost var s, stored, room, q := shape, dict, table.Room(), f.t[..f.prefixLen];
      ghost var d, e, split := f.depthInJump, f.containing, JumpPaths(f);
      ghost var reached;
      status, reached := SplitAndInsert(f, kv, symbol, n);
      JumpGrants(f.g, n, s, stored, f.t, f.prefixLen, d, e, room, status == SI_OK, Paths(), table.Room());
      Outcome(stored, s.at.Keys, f.t, split, q + [symbol], reached, status, old(table.Mark()));
    }

    // The two steps; `reached` tells whether the second was.
    method SplitAndInsert(f: Finger, kv: KV, symbol: Symbol, ghost n: Nodes)
        returns (status: Status, ghost reached: bool)
      requires f.prefixLen < |f.t| && f.containing.node.body.Jump?
      requires f.depthInJump < |f.containing.node.body.symbols|
      requires AtJump(f, n) && f.t == Symbols(kv.key) && symbol == f.t[f.prefixLen] && kv.key !in dict
      modifies this, f`depthInJump, f`containing, f`path, f`lens, table`spot, table`history, table.cells, table.seqs
      ensures status == SI_OK || status == SI_RETRY || status == SI_FAIL
      ensures status == SI_OK ==> Valid() && !isEmpty && dict == old(dict)[kv.key := kv.value]
      ensures status == SI_RETRY ==> Valid() && !isEmpty && dict == old(dict)
      ensures Served(f.g, old(JumpNeed(f)) + multiset{HashToBucket(AccumulateHash(f.g, f.prefixHash, symbol))},
                     old(table.Room()), status == SI_OK, table.Room())
      ensures TwoSteps(status, reached, f.t[..f.prefixLen] + [symbol], old(JumpPaths(f)), old(Paths()),
                       old(table.Mark()))
      ensures status == SI_RETRY ==> old(table.history) <= table.history
    {
      hide RetriedFor, NoFuller, Subtree, ListOk, DictOk, PathOk, Placed, MaxAll, JumpsHide, RoomOf, WriteLog,
           EveryEntryPresent, HoldsPaths, LeafPaths, Clean, PathsThroughout, Served, ForkNeed, TailNeed, Symbols,
           JumpNodes, AllMove, Stuck, SplitAt, HashToBucket, AccumulateHash;
      ghost var need, leafNeed := JumpNeed(f), multiset{HashToBucket(AccumulateHash(f.g, f.prefixHash, symbol))};
      ghost var room := table.Room();
      ghost var trace;
      status, trace := SplitJumpNode(f, n);
      ghost var room1, mark1 := table.Room(), table.Mark();
      reached := status == SI_OK;
      if status == SI_OK {
        // The bitmap is new, so it has a gap for the key
        BitmapIsGap(f.g, table.Contents(), shape, f.t, f.prefixLen, f.containing);
        status := InsertBitmapChild(f, kv, symbol, table.Contents());
        ServedTwice(f.g, need, room, room1, leafNeed, status == SI_OK, table.Room());
        if status == SI_RETRY {
          table.Sooner(mark1, {f.t[..f.prefixLen] + [symbol]}, old(table.Mark()), {f.t[..f.prefixLen] + [symbol]});
        }
      } else {
        NotServed(f.g, need, leafNeed, room, room1, room1);
      }
    }

    // Where the two steps can end: the nodes of the split are there once it is done, the
    // leaf's is once that is too, and only the step that was last can have been refused.
    ghost predicate TwoSteps(status: Status, reached: bool, leaf: Path, split: set<Path>, at: set<Path>, from: int)
      reads this, table, table.cells
    {
      && (reached ==> AllMove(table.g, split))
      && (status == SI_OK ==> reached && AllMove(table.g, {leaf}) && Paths() == at + split + {leaf})
      && (status == SI_RETRY ==>
            && Paths() == (if reached then at + split else at)
            && table.RetriedAmong(from, if reached then {leaf} else split))
      && (status == SI_FAIL ==> if reached then table.JammedIn({leaf}) else table.JammedIn(split))
    }

    // What they amount to.
    lemma {:induction false} Outcome(stored: Dict, at: set<Path>, t: Path, split: set<Path>, leaf: Path, reached: bool,
                                     status: Status, from: int)
      requires Needed(stored, t, at, split + {leaf}) && TwoSteps(status, reached, leaf, split, at, from)
      ensures status == SI_RETRY ==> RetriedAt(stored, at, t, from)
      ensures status == SI_FAIL ==> JammedFor(stored, at, t)
      ensures status == SI_OK ==> Grew(table.g, stored, t, at, Paths()) && Paths() != at
      ensures status == SI_RETRY ==> Grew(table.g, stored, t, at, Paths())
    {
      hide MayNeed;
      assert leaf in split + {leaf};
    }

    method CreateBesideLeaf(f: Finger, kv: KV, ghost n: Nodes) returns (status: Status)
      requires Valid() && !isEmpty && n == table.Contents()
      requires f.g == table.g && f.savePath && f.t == Symbols(kv.key) && f.Ok(n, shape) && f.prefixLen <= |f.t|
      requires f.depthInJump == 0 && EntryOk(f.g, n, shape, f.containing, f.t[..f.prefixLen])
      requires f.containing.node.body.Leaf? && (f.containing.node.body.kv.key == kv.key || kv.key !in dict)
      modifies this, f`path, table`spot, table`history, table.cells, table.seqs
      ensures status == SI_OK ==> Valid() && !isEmpty && kv.key !in old(dict) && dict == old(dict)[kv.key := kv.value]
      ensures status == SI_RETRY ==> table.Valid() && table.Contents() == n && unchanged(this)
      ensures status == SI_EXISTS ==> table.Valid() && table.Contents() == n && unchanged(this)
                                      && f.containing.node.body.kv.key == kv.key
      ensures status == SI_RETRY ==> RetriedAt(old(dict), old(Paths()), Symbols(kv.key), old(table.Mark()))
      ensures status == SI_RETRY ==> old(table.history) <= table.history
      ensures status == SI_FAIL ==> JammedFor(old(dict), old(Paths()), Symbols(kv.key))
      ensures status == SI_OK ==>
                Grew(table.g, old(dict), Symbols(kv.key), old(Paths()), Paths()) && Paths() != old(Paths())
      ensures Granted(table.g, old(HasRoom(kv.key)), old(Paths()), old(table.Room()),
                      status == SI_OK || status == SI_EXISTS, Paths(), table.Room())
      ensures kv.key in old(dict) ==> status == SI_EXISTS
    {
      hide Subtree, ListOk, DictOk, PathOk, Placed, MaxAll, JumpsHide, RoomOf, WriteLog, EveryEntryPresent, Served;
      CompareDecides(f.containing.node.body.kv.key, kv.key);
      if KeyCompare(f.containing.node.body.kv.key, kv.key) == 0 {
        // The key is stored already
        NothingTaken(table.g, HasRoom(kv.key), Paths(), table.Room());
        return SI_EXISTS;
      }
      status := SplitLeaf(f, kv, n);
    }

    // One attempt to insert or upsert.
    method InsertInternal(kv: KV, isUpsert: bool) returns (status: Status)
      requires Valid()
      modifies this, table`spot, table`history, table.cells, table.seqs
      ensures status == SI_OK ==> Valid() && kv.key !in old(dict) && dict == old(dict)[kv.key := kv.value]
      ensures status == SI_RETRY ==> Valid() && dict == old(dict)
      ensures status == SI_EXISTS ==>
                Valid() && kv.key in old(dict) && dict == if isUpsert then old(dict)[kv.key := kv.value] else old(dict)
      ensures status == SI_RETRY ==> RetriedAt(old(dict), old(Paths()), Symbols(kv.key), old(table.Mark()))
      ensures status == SI_RETRY ==> old(table.history) <= table.history
      ensures status == SI_FAIL ==> JammedFor(old(dict), old(Paths()), Symbols(kv.key))
      ensures old(isEmpty) ==> status == SI_OK && Paths() == {[]}
      ensures status == SI_OK && !old(isEmpty) ==>
                Grew(table.g, old(dict), Symbols(kv.key), old(Paths()), Paths()) && Paths() != old(Paths())
      ensures status == SI_RETRY ==>
                !isEmpty && Grew(table.g, old(dict), Symbols(kv.key), old(Paths()), Paths())
      ensures status == SI_EXISTS ==> Paths() == old(Paths())
      ensures Granted(table.g, old(HasRoom(kv.key)), old(Paths()), old(table.Room()),
                      status == SI_OK || status == SI_EXISTS, Paths(), table.Room())
      ensures kv.key in old(dict) ==> status == SI_EXISTS
    {
      hide RetriedFor, NoFuller, Subtree, ListOk, DictOk, PathOk, Placed, MaxAll, JumpsHide, RoomOf, WriteLog,
           EveryEntryPresent, Served, Granted, RoomFor, Grew, MayNeed;
      if isEmpty {
        ghost var room, fits := table.Room(), HasRoom(kv.key);
        CreateRoot(kv);
        RootTaken(table.g, fits, room, table.Room());
        return SI_OK;
      }
      ghost var n := table.Contents();
      var f := new Finger(table, true, Symbols(kv.key), shape);
      var symbol := f.Descend(table, kv.key, n, shape);
      status := CreateLeaf(f, kv, symbol, n);
      if status == SI_EXISTS {
        KeyIsStored(n, dict, f.containing.loc);
        if isUpsert {
          SetLeafValue(f.containing, kv, n);
        }
      }
    }

    method CreateRoot(kv: KV)
      requires Valid() && isEmpty
      modifies this, table`spot, table`history, table.cells, table.seqs
      ensures Valid() && !isEmpty && dict == map[kv.key := kv.value] && Paths() == {[]}
      ensures table.Room() + multiset{0} == old(table.Room())
    {
      hide Subtree, ListOk, DictOk, PathOk, Placed, MaxAll, JumpsHide, RoomOf, WriteLog, EveryEntryPresent;
      table.CreateRoot(RootNode(kv));
      SingleKey(table.g, kv);
      minNext := Some(RootLoc);
      isEmpty := false;
      Record(RootShape, [RootLoc], map[kv.key := kv.value]);
    }

    // Stores a new value in the leaf of the key.
    method SetLeafValue(e: PathEntry, kv: KV, ghost n: Nodes)
      requires Valid() && !isEmpty && n == table.Contents()
      requires LeafAt(n, e.loc) && e.node == n[e.loc] && n[e.loc].body.kv.key == kv.key
      modifies this, table`history, table.cells, table.seqs
      ensures table.Room() == old(table.Room())
      ensures Valid() && !isEmpty && dict == old(dict)[kv.key := kv.value] && kv.key in old(dict)
      ensures Paths() == old(Paths())
    {
      hide Subtree, ListOk, DictOk, PathOk, Placed, MaxAll, JumpsHide, RoomOf, WriteLog, EveryEntryPresent;
      var node := e.node.(body := e.node.body.(kv := kv));
      SetValue(table.g, n, shape, order, minNext, dict, e.loc, kv, n[e.loc := node]);
      table.Update(e.loc, node);
      Record(shape, order, dict[kv.key := kv.value]);
    }

    // ----------------------------------------------------------------
    // The operations of the interface
    // ----------------------------------------------------------------

    // What one more attempt adds to those before it.
    lemma {:induction false} Attempted(stored: Dict, t: Path, wasEmpty: bool, at: set<Path>, before: set<Path>,
                                       status: Status)
      requires Grew(table.g, stored, t, at, before)
      requires (status == SI_OK || status == SI_RETRY) && !wasEmpty ==> Grew(table.g, stored, t, before, Paths())
      requires status == SI_OK && !wasEmpty ==> Paths() != before
      requires status == SI_EXISTS ==> Paths() == before
      requires status == SI_FAIL ==> JammedFor(stored, before, t)
      ensures status == SI_FAIL ==> JammedFor(stored, at, t)
      ensures at <= before
      ensures status != SI_FAIL && !wasEmpty ==> Grew(table.g, stored, t, at, Paths())
      ensures status == SI_OK && !wasEmpty ==> Paths() != at
    {
      if (status == SI_OK || status == SI_RETRY) && !wasEmpty {
        GrewTwice(table.g, stored, t, at, before, Paths());
      }
      hide MayNeed;
      if status == SI_FAIL {
        assert at <= before;
      }
    }

    // Which nodes an answered insertion has added.
    ghost predicate Grown(status: ApiStatus, key: Key, stored: Dict, wasEmpty: bool, at: set<Path>)
      reads this
    {
      && (Answered(status) && wasEmpty ==> Paths() == {[]})
      && (Answered(status) && !wasEmpty ==> Grew(table.g, stored, Symbols(key), at, Paths()))
      && (Answered(status) && !wasEmpty && key !in stored ==> Paths() != at)
    }

    static predicate Answered(status: ApiStatus) { status == S_OK || status == S_ALREADYIN }

    // Tries up to `attempts` times. If the table has room for the key, once is enough.
    method Insert(kv: KV, attempts: nat) returns (status: ApiStatus)
      requires Valid()
      modifies this, table`spot, table`history, table.cells, table.seqs
      ensures status == S_OK ==> Valid() && kv.key !in old(dict) && dict == old(dict)[kv.key := kv.value]
      ensures status == S_ALREADYIN ==> Valid() && kv.key in old(dict) && dict == old(dict)
      ensures status == S_RETRIES_EXHAUSTED ==> Valid() && dict == old(dict) && (attempts > 0 ==> kv.key !in old(dict))
      ensures status == S_RETRIES_EXHAUSTED ==>
                AllRetried(table.g, table.history, attempts, old(dict), old(Paths()), Symbols(kv.key),
                           old(table.Mark()))
      ensures status == S_OVERFLOW ==>
                kv.key !in old(dict) && JammedFor(old(dict), old(Paths()), Symbols(kv.key))
      ensures attempts > 0 ==>
                Granted(table.g, old(HasRoom(kv.key)), old(Paths()), old(table.Room()), Answered(status), Paths(),
                        table.Room())
      ensures Grown(status, kv.key, old(dict), old(isEmpty), old(Paths()))
      ensures status != S_NOTFOUND
    {
      hide Good, Placed, RoomOf, WriteLog, Granted, RoomFor, Grew, MayNeed, Symbols, AllRetried, RetriedFor;
      ghost var room, fits, at, wasEmpty := table.Room(), HasRoom(kv.key), Paths(), isEmpty;
      ghost var t := Symbols(kv.key);
      GrewNot(table.g, dict, t, at);
      NoneRetried(table.g, table.history, dict, at, t);
      WasRefused(table.g, fits, at, room);
      var left := attempts;
      while 0 < left
        invariant 0 <= left <= attempts && Valid() && dict == old(dict)
        invariant if left == attempts then table.Room() == room && Paths() == at && isEmpty == wasEmpty
                  else kv.key !in dict && !isEmpty && !wasEmpty && Refused(table.g, fits)
        invariant Grew(table.g, dict, t, at, Paths())
        invariant AllRetried(table.g, table.history, attempts - left, dict, at, t, old(table.Mark()))
      {
        left := left - 1;
        ghost var before, log := Paths(), table.history;
        var ret := InsertInternal(kv, false);
        Attempted(old(dict), t, wasEmpty, at, before, ret);
        WasRefused(table.g, fits, at, room);
        if ret == SI_RETRY {
          OneMoreRetried(table.g, log, attempts - left - 1, old(dict), at, before, t, old(table.Mark()), table.history);
        }
        if ret != SI_RETRY {
          return if ret == SI_FAIL then S_OVERFLOW else if ret == SI_EXISTS then S_ALREADYIN else S_OK;
        }
      }
      return S_RETRIES_EXHAUSTED;
    }

    method Upsert(kv: KV, attempts: nat) returns (status: ApiStatus, createdNew: bool)
      requires Valid()
      modifies this, table`spot, table`history, table.cells, table.seqs
      ensures status == S_OK ==>
                Valid() && dict == old(dict)[kv.key := kv.value] && (createdNew <==> kv.key !in old(dict))
      ensures status == S_RETRIES_EXHAUSTED ==> Valid() && dict == old(dict) && (attempts > 0 ==> kv.key !in old(dict))
      ensures status == S_RETRIES_EXHAUSTED ==>
                AllRetried(table.g, table.history, attempts, old(dict), old(Paths()), Symbols(kv.key),
                           old(table.Mark()))
      ensures status == S_OVERFLOW ==>
                kv.key !in old(dict) && JammedFor(old(dict), old(Paths()), Symbols(kv.key))
      ensures attempts > 0 ==>
                Granted(table.g, old(HasRoom(kv.key)), old(Paths()), old(table.Room()), Answered(status), Paths(),
                        table.Room())
      ensures Grown(status, kv.key, old(dict), old(isEmpty), old(Paths()))
      ensures status != S_NOTFOUND && status != S_ALREADYIN
    {
      hide Good, Placed, RoomOf, WriteLog, Granted, RoomFor, Grew, MayNeed, Symbols, AllRetried, RetriedFor;
      createdNew := false;
      ghost var room, fits, at, wasEmpty := table.Room(), HasRoom(kv.key), Paths(), isEmpty;
      ghost var t := Symbols(kv.key);
      GrewNot(table.g, dict, t, at);
      NoneRetried(table.g, table.history, dict, at, t);
      WasRefused(table.g, fits, at, room);
      var left := attempts;
      while 0 < left
        invariant 0 <= left <= attempts && Valid() && dict == old(dict)
        invariant if left == attempts then table.Room() == room && Paths() == at && isEmpty == wasEmpty
                  else kv.key !in dict && !isEmpty && !wasEmpty && Refused(table.g, fits)
        invariant Grew(table.g, dict, t, at, Paths())
        invariant AllRetried(table.g, table.history, attempts - left, dict, at, t, old(table.Mark()))
      {
        left := left - 1;
        ghost var before, log := Paths(), table.history;
        var ret := InsertInternal(kv, true);
        Attempted(old(dict), t, wasEmpty, at, before, ret);
        WasRefused(table.g, fits, at, room);
        if ret == SI_RETRY {
          OneMoreRetried(table.g, log, attempts - left - 1, old(dict), at, before, t, old(table.Mark()), table.history);
        }
        if ret != SI_RETRY {
          createdNew := ret == SI_OK;
          status := if ret == SI_FAIL then S_OVERFLOW else S_OK;
          return;
        }
      }
      status := S_RETRIES_EXHAUSTED;
    }

    // The pair stored under the key, if any.
    method Lookup(key: Key) returns (result: Option<KV>)
      requires Valid()
      ensures result == if key in dict then Some(KV(key, dict[key])) else None
    {
      hide Subtree, ListOk, PathOk, Placed, MaxAll, JumpsHide, RoomOf, WriteLog, EveryEntryPresent;
      if isEmpty {
        return None;
      }
      ghost var n := table.Contents();
      var f := new Finger(table, false, Symbols(key), shape);
      var symbol := f.Descend(table, key, n, shape);
      WhereDescended(f.g, n, shape, dict, f.t, f.prefixLen, f.depthInJump, f.containing, key);
      if symbol == -1 {
        return Some(f.containing.node.body.kv);
      }
      if !f.containing.node.body.Leaf? {
        return None;
      }
      CompareDecides(f.containing.node.body.kv.key, key);
      if KeyCompare(f.containing.node.body.kv.key, key) == 0 {
        return Some(f.containing.node.body.kv);
      }
      return None;
    }

    method Update(kv: KV) returns (status: ApiStatus)
      requires Valid()
      modifies this, table`history, table.cells, table.seqs
      ensures table.Room() == old(table.Room()) && Paths() == old(Paths())
      ensures Valid()
      ensures if kv.key in old(dict) then status == S_OK && dict == old(dict)[kv.key := kv.value]
              else status == S_NOTFOUND && dict == old(dict)
    {
      hide Subtree, ListOk, DictOk, PathOk, Placed, MaxAll, JumpsHide, RoomOf, WriteLog, EveryEntryPresent;
      if isEmpty {
        return S_NOTFOUND;
      }
      ghost var n := table.Contents();
      var f := new Finger(table, false, Symbols(kv.key), shape);
      var symbol := f.Descend(table, kv.key, n, shape);
      WhereDescended(f.g, n, shape, dict, f.t, f.prefixLen, f.depthInJump, f.containing, kv.key);
      if !f.containing.node.body.Leaf? {
        return S_NOTFOUND;
      }
      CompareDecides(f.containing.node.body.kv.key, kv.key);
      if KeyCompare(f.containing.node.body.kv.key, kv.key) != 0 {
        return S_NOTFOUND;
      }
      SetLeafValue(f.containing, kv, n);
      return S_OK;
    }
  }
}
