// Which locks an insertion takes above a bitmap, and which entries it then writes.
module PathLocks {
  import opened Keys
  import opened Hashing
  import opened Store
  import opened Structure
  import opened Fingers
  import opened Locks

  // What the lock manager is told about an entry of the path.
  ghost predicate Describes(l: PathLock, e: PathEntry) {
    && (l.isJump <==> e.node.body.Jump?) && l.lastSymbol == e.node.lastSymbol
    && (e.node.body.Bitmap? ==> l.maxChild == e.node.body.maxChild)
  }

  ghost predicate AllDescribed(locks: seq<PathLock>, path: seq<PathEntry>) {
    |locks| == |path| && forall i :: 0 <= i < |path| ==> Describes(locks[i], path[i])
  }

  // One step of a path of the trie.
  lemma {:induction false} SameStep(g: Geometry, n: Nodes, s: Shape, t: Path, path: seq<PathEntry>, lens: seq<nat>,
                                    last: nat, locks: seq<PathLock>, i: nat)
    requires Tree(g, n, s) && PathOk(g, n, s, t, path, lens, last) && AllDescribed(locks, path) && i + 1 < |path|
    ensures FromLast(path[i].node, path[i + 1].node) <==>
              locks[i].isJump || locks[i + 1].lastSymbol == locks[i].maxChild
  {
    assert StepOk(n, s, t, lens, i + 1) && Describes(locks[i], path[i]) && Describes(locks[i + 1], path[i + 1]);
    assert NodeOk(n, s, Prefix(t, lens[i]));
    if path[i].node.body.Bitmap? {
      BacktrackSymbol(g, n, s, t, path, lens, last, i, Prefix(t, lens[i + 1]));
    }
  }

  // The parents that are locked are those that the propagation of max_leaf may write.
  lemma {:induction false} LockedIsWritten(g: Geometry, n: Nodes, s: Shape, t: Path, path: seq<PathEntry>,
                                           lens: seq<nat>, last: nat, locks: seq<PathLock>)
    requires Tree(g, n, s) && PathOk(g, n, s, t, path, lens, last) && AllDescribed(locks, path)
    ensures forall j, top :: ClimbsTo(path, j, top) <==> Climbs(locks, j, top)
  {
    hide Tree, PathOk, FromLast, Describes;
    forall i | 0 <= i < |path| - 1
      ensures FromLast(path[i].node, path[i + 1].node) <==>
                locks[i].isJump || locks[i + 1].lastSymbol == locks[i].maxChild
    {
      SameStep(g, n, s, t, path, lens, last, locks, i);
    }
    forall j: nat, top: nat
      ensures ClimbsTo(path, j, top) <==> Climbs(locks, j, top)
    {
      if ClimbsTo(path, j, top) {
        forall i | j <= i < top
          ensures locks[i].isJump || locks[i + 1].lastSymbol == locks[i].maxChild
        {
          assert path[i] == path[i];
        }
      }
      if Climbs(locks, j, top) {
        forall i | j <= i < top
          ensures FromLast(path[i].node, path[i + 1].node)
        {
          assert locks[i] == locks[i];
        }
      }
    }
  }

  lemma {:induction false} WhatChanged(n: Nodes, n': Nodes, path: seq<PathEntry>, l: Loc) returns (j: nat)
    requires ChangedAbove(n, n', path, 0) && l in n && !(l in n' && n'[l] == n[l])
    ensures j < |path| - 1 && ClimbsTo(path, j, |path| - 1) && path[j].loc == l
  {
    hide ClimbsTo;
    j :| 0 <= j < |path| - 1 && ClimbsTo(path, j, |path| - 1) && path[j].loc == l;
  }

  lemma {:induction false} SomeClimber(locks: seq<PathLock>, j: nat, top: nat)
    requires Climbs(locks, j, top)
    ensures j < |locks|
    ensures |ClimbersIn(locks, top, Slot(locks[j].bucket, locks[j].entry))| >= 1
  {
    assert j in ClimbersIn(locks, top, Slot(locks[j].bucket, locks[j].entry));
  }

  // Every entry that the propagation changes has been locked.
  lemma {:induction false} ChangedIsLocked(g: Geometry, n: Nodes, s: Shape, t: Path, path: seq<PathEntry>,
                                           lens: seq<nat>, last: nat, locks: seq<PathLock>, n': Nodes, l: Loc,
                                           refs: map<nat, WriteLock>, refs': map<nat, WriteLock>)
      returns (j: nat)
    requires Tree(g, n, s) && PathOk(g, n, s, t, path, lens, last) && AllDescribed(locks, path)
    requires ChangedAbove(n, n', path, 0) && l in n && !(l in n' && n'[l] == n[l])
    requires forall x :: EntryCount(refs', x) == EntryCount(refs, x) + |ClimbersIn(locks, |path| - 1, x)|
    ensures j < |path| - 1 && path[j].loc == l && EntryCount(refs', Slot(locks[j].bucket, locks[j].entry)) >= 1
  {
    hide Tree, PathOk, EntryCount, AllDescribed, ClimbsTo, Climbs, ClimbersIn, ChangedAbove, Describes;
    LockedIsWritten(g, n, s, t, path, lens, last, locks);
    j := WhatChanged(n, n', path, l);
    assert Climbs(locks, j, |path| - 1);
    SomeClimber(locks, j, |path| - 1);
    assert EntryCount(refs', Slot(locks[j].bucket, locks[j].entry)) >= 1;
  }
}
