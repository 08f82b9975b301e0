// The cuckoo hash table: searches, allocation with breadth-first relocation, and
// in-place updates.
module Table {
  import opened Arithmetic
  import opened Keys
  import opened Hashing
  import opened Store

  datatype Status = SI_OK | SI_RETRY | SI_EXISTS | SI_FAIL

  const RELOCATE_QUEUE_SIZE := 1000

  // One visited bucket of the breadth-first search, with the queue position of the
  // bucket it was reached from and the cell there whose entry could move here.
  datatype QueueEntry = QueueEntry(bucket: nat, parentQueuePos: int, childIdx: nat)

  // An entry read from the table, with what is needed to find it again.
  datatype LocalCopy = LocalCopy(value: Cell, lastPos: nat, primaryBucket: nat, lastSeq: nat)

  ghost predicate BucketsDistinct(queue: seq<QueueEntry>) {
    forall a, b :: 0 <= a < b < |queue| ==> queue[a].bucket != queue[b].bucket
  }

  // Every queued bucket is full, and the entry that could move into it sits in a
  // bucket queued earlier.
  ghost predicate QueueOk(g: Geometry, cells: seq<Cell>, queue: seq<QueueEntry>, immovable: int) {
    && g.Valid() && |cells| == 4 * g.numBuckets
    && BucketsDistinct(queue)
    && (forall k :: 0 <= k < |queue| ==> queue[k].bucket < g.numBuckets && Full(cells, queue[k].bucket))
    && (forall k :: 0 < k < |queue| ==> LinkOk(g, cells, queue, immovable, k))
  }

  // The index of the cell whose entry led to queue position k.
  function SourceCell(queue: seq<QueueEntry>, k: nat): int
    requires k < |queue| && 0 <= queue[k].parentQueuePos < |queue|
  {
    4 * queue[queue[k].parentQueuePos].bucket + queue[k].childIdx
  }

  ghost predicate LinkOk(g: Geometry, cells: seq<Cell>, queue: seq<QueueEntry>, immovable: int, k: nat)
    requires g.Valid() && |cells| == 4 * g.numBuckets && k < |queue|
  {
    && 0 <= queue[k].parentQueuePos < k && queue[k].childIdx < 4
    && var j := SourceCell(queue, k);
       0 <= j < |cells| && CanMoveTo(g, cells, immovable, j, queue[k].bucket)
  }

  ghost predicate CanMoveTo(g: Geometry, cells: seq<Cell>, immovable: int, j: nat, bucket: int)
    requires g.Valid() && |cells| == 4 * g.numBuckets && j < |cells|
  {
    Movable(j, immovable) && cells[j].tag < TAG_VALUES && AlternateBucket(g, j / 4, cells[j]) == bucket
  }

  ghost function QueueBuckets(queue: seq<QueueEntry>): set<nat> {
    set k | 0 <= k < |queue| :: queue[k].bucket
  }

  // The movable entries of the first n cells of a bucket can only move to queued
  // buckets.
  ghost predicate Explored(g: Geometry, cells: seq<Cell>, queue: seq<QueueEntry>, immovable: int, bucket: nat, n: nat)
    requires g.Valid() && |cells| == 4 * g.numBuckets
  {
    forall j :: 4 * bucket <= j < 4 * bucket + n ==> Seen(g, cells, queue, immovable, j)
  }

  // The entry of cell j, if it may be moved, can only move to a queued bucket.
  ghost predicate Seen(g: Geometry, cells: seq<Cell>, queue: seq<QueueEntry>, immovable: int, j: nat)
    requires g.Valid() && |cells| == 4 * g.numBuckets
  {
    j < |cells| && Movable(j, immovable) ==>
      cells[j].tag < TAG_VALUES && AlternateBucket(g, j / 4, cells[j]) in QueueBuckets(queue)
  }

  ghost predicate ExploredUpTo(g: Geometry, cells: seq<Cell>, queue: seq<QueueEntry>, immovable: int, n: nat)
    requires g.Valid() && |cells| == 4 * g.numBuckets && n <= |queue|
  {
    forall k :: 0 <= k < n ==> Explored(g, cells, queue, immovable, queue[k].bucket, 4)
  }

  // The entry of cell j, if it may be moved, has no unused cell to move to.
  ghost predicate Barred(g: Geometry, cells: seq<Cell>, immovable: int, j: nat) {
    g.Valid() && |cells| == 4 * g.numBuckets && j < |cells| && Movable(j, immovable) ==>
      cells[j].tag < TAG_VALUES && 0 <= AlternateBucket(g, j / 4, cells[j])
      && Full(cells, AlternateBucket(g, j / 4, cells[j]))
  }

  // The same for the first n cells of the bucket.
  ghost predicate BarredIn(g: Geometry, cells: seq<Cell>, immovable: int, bucket: nat, n: nat) {
    forall j :: 4 * bucket <= j < 4 * bucket + n ==> Barred(g, cells, immovable, j)
  }

  // The same for the first n buckets of the queue: they were all looked at.
  ghost predicate BarredUpTo(g: Geometry, cells: seq<Cell>, queue: seq<QueueEntry>, immovable: int, n: nat)
    requires n <= |queue|
  {
    forall k :: 0 <= k < n ==> BarredIn(g, cells, immovable, queue[k].bucket, 4)
  }

  // The buckets can be reached from the given one by moves out of full buckets.
  ghost predicate Reached(g: Geometry, cells: seq<Cell>, bucket: nat, visited: set<nat>, immovable: int) {
    exists queue: seq<QueueEntry> :: QueueOk(g, cells, queue, immovable) && |queue| > 0 && queue[0].bucket == bucket
                    && QueueBuckets(queue) == visited
  }

  // The relocation search from the bucket came to an end without an unused cell: all
  // buckets that it reached are full, and no entry of theirs that may be moved has an
  // unused cell to move to. They are as many as the queue can hold, or else no such entry
  // has its other bucket outside.
  ghost predicate SearchFailed(g: Geometry, cells: seq<Cell>, bucket: nat, visited: set<nat>, immovable: int,
                               queueFilled: bool)
  {
    && bucket in visited && Reached(g, cells, bucket, visited, immovable)
    && (forall b :: b in visited ==> Full(cells, b) && BarredIn(g, cells, immovable, b, 4))
    && if queueFilled then |visited| == RELOCATE_QUEUE_SIZE else ClosedAndFull(g, cells, visited, immovable)
  }

  lemma {:induction false} GiveUp(g: Geometry, cells: seq<Cell>, queue: seq<QueueEntry>, immovable: int, filled: bool)
    requires QueueOk(g, cells, queue, immovable) && |queue| > 0
    requires BarredUpTo(g, cells, queue, immovable, |queue|)
    requires if filled then |queue| == RELOCATE_QUEUE_SIZE else ExploredUpTo(g, cells, queue, immovable, |queue|)
    ensures SearchFailed(g, cells, queue[0].bucket, QueueBuckets(queue), immovable, filled)
  {
    CountBuckets(queue);
    if !filled {
      ExploredIsClosed(g, cells, queue, immovable);
    }
  }

  lemma {:induction false} CountBuckets(queue: seq<QueueEntry>)
    requires BucketsDistinct(queue)
    ensures |QueueBuckets(queue)| == |queue|
  {
    if |queue| > 0 {
      var rest, e := queue[..|queue| - 1], queue[|queue| - 1];
      assert queue == rest + [e];
      QueueGrows(rest, e);
      CountBuckets(rest);
    }
  }

  lemma ExploredIsClosed(g: Geometry, cells: seq<Cell>, queue: seq<QueueEntry>, immovable: int)
    requires QueueOk(g, cells, queue, immovable)
    requires ExploredUpTo(g, cells, queue, immovable, |queue|)
    ensures ClosedAndFull(g, cells, QueueBuckets(queue), immovable)
  {
    forall j | 0 <= j < |cells| && j / 4 in QueueBuckets(queue) && Movable(j, immovable)
      ensures cells[j].tag < TAG_VALUES && AlternateBucket(g, j / 4, cells[j]) in QueueBuckets(queue)
    {
      var k :| 0 <= k < |queue| && queue[k].bucket == j / 4;
      assert Explored(g, cells, queue, immovable, queue[k].bucket, 4);
      assert Seen(g, cells, queue, immovable, j);
    }
  }

  lemma QueueGrows(queue: seq<QueueEntry>, e: QueueEntry)
    ensures QueueBuckets(queue + [e]) == QueueBuckets(queue) + {e.bucket}
  {
    var q := queue + [e];
    forall b | b in QueueBuckets(queue) + {e.bucket}
      ensures b in QueueBuckets(q)
    {
      if b in QueueBuckets(queue) {
        var k :| 0 <= k < |queue| && queue[k].bucket == b;
        assert q[k].bucket == b;
      } else {
        assert q[|queue|].bucket == b;
      }
    }
  }

  lemma QueuePushOk(g: Geometry, cells: seq<Cell>, queue: seq<QueueEntry>, e: QueueEntry, immovable: int)
    requires QueueOk(g, cells, queue, immovable)
    requires forall k :: 0 <= k < |queue| ==> queue[k].bucket != e.bucket
    requires e.bucket < g.numBuckets && Full(cells, e.bucket)
    requires 0 <= e.parentQueuePos < |queue| && e.childIdx < 4
    requires var j := 4 * queue[e.parentQueuePos].bucket + e.childIdx;
             j < |cells| && CanMoveTo(g, cells, immovable, j, e.bucket)
    ensures QueueOk(g, cells, queue + [e], immovable)
  {
    var q := queue + [e];
    forall k | 0 < k < |q|
      ensures LinkOk(g, cells, q, immovable, k)
    {
      if k < |queue| {
        assert LinkOk(g, cells, queue, immovable, k);
      }
    }
  }

  lemma {:induction false} ExploredMonotone(g: Geometry, cells: seq<Cell>, queue: seq<QueueEntry>,
                                            queue': seq<QueueEntry>, immovable: int, bucket: nat, n: nat)
    requires g.Valid() && |cells| == 4 * g.numBuckets && QueueBuckets(queue) <= QueueBuckets(queue')
    requires Explored(g, cells, queue, immovable, bucket, n)
    ensures Explored(g, cells, queue', immovable, bucket, n)
  {
    forall j | 4 * bucket <= j < 4 * bucket + n
      ensures Seen(g, cells, queue', immovable, j)
    {
      assert Seen(g, cells, queue, immovable, j);
    }
  }

  // As the queue grows, buckets that were explored stay explored.
  lemma {:induction false} AllExplored(g: Geometry, cells: seq<Cell>, queue: seq<QueueEntry>, queue': seq<QueueEntry>,
                                       immovable: int, n: nat)
    requires g.Valid() && |cells| == 4 * g.numBuckets && queue <= queue' && n < |queue|
    requires QueueBuckets(queue) <= QueueBuckets(queue')
    requires ExploredUpTo(g, cells, queue, immovable, n)
    requires Explored(g, cells, queue', immovable, queue'[n].bucket, 4)
    ensures ExploredUpTo(g, cells, queue', immovable, n + 1)
  {
    forall k | 0 <= k < n + 1
      ensures Explored(g, cells, queue', immovable, queue'[k].bucket, 4)
    {
      if k < n {
        assert Explored(g, cells, queue, immovable, queue[k].bucket, 4);
        ExploredMonotone(g, cells, queue, queue', immovable, queue[k].bucket, 4);
      }
    }
  }

  lemma {:induction false} EntryOfQueue(g: Geometry, cells: seq<Cell>, spot: map<Loc, nat>, queue: seq<QueueEntry>,
                                        immovable: int, pos: nat, i: nat)
    requires QueueOk(g, cells, queue, immovable) && Placed(g, cells, spot, -1) && pos < |queue| && i < 4
    ensures var j := 4 * queue[pos].bucket + i;
            j < |cells| && j / 4 == queue[pos].bucket && cells[j].tag < TAG_VALUES
            && 0 <= AlternateBucket(g, queue[pos].bucket, cells[j]) < g.numBuckets
  {
    assert Full(cells, queue[pos].bucket);
    var j := 4 * queue[pos].bucket + i;
    assert CellOk(cells[j]);
    MixUnmixInverse(g, queue[pos].bucket, cells[j].tag);
  }

  lemma {:induction false} Pushed(g: Geometry, cells: seq<Cell>, queue: seq<QueueEntry>, e: QueueEntry, immovable: int)
    requires QueueOk(g, cells, queue, immovable)
    requires forall k :: 0 <= k < |queue| ==> queue[k].bucket != e.bucket
    requires e.bucket < g.numBuckets && Full(cells, e.bucket)
    requires 0 <= e.parentQueuePos < |queue| && e.childIdx < 4
    requires var j := 4 * queue[e.parentQueuePos].bucket + e.childIdx;
             j < |cells| && CanMoveTo(g, cells, immovable, j, e.bucket)
    ensures QueueOk(g, cells, queue + [e], immovable)
    ensures Seen(g, cells, queue + [e], immovable, 4 * queue[e.parentQueuePos].bucket + e.childIdx)
    ensures QueueBuckets(queue) <= QueueBuckets(queue + [e])
  {
    QueuePushOk(g, cells, queue, e, immovable);
    QueueGrows(queue, e);
  }

  // From one state to another sequence numbers only grow, and where a bucket's
  // sequence number is the same, so are its cells.
  ghost predicate Guarded(cells: seq<Cell>, seqs: seq<nat>, cells': seq<Cell>, seqs': seq<nat>) {
    && |cells| == |cells'| == 4 * |seqs| && |seqs| == |seqs'|
    && (forall b :: 0 <= b < |seqs| ==> seqs[b] <= seqs'[b])
    && (forall j :: 0 <= j < |cells| && seqs[j / 4] == seqs'[j / 4] ==> cells'[j] == cells[j])
  }

  lemma {:induction false} SeqsGrow(cells: seq<Cell>, seqs: seq<nat>, cells': seq<Cell>, seqs': seq<nat>)
    requires Guarded(cells, seqs, cells', seqs')
    ensures |seqs'| == |seqs| && forall b :: 0 <= b < |seqs| ==> seqs[b] <= seqs'[b]
  {
  }

  lemma GuardedTransitive(c1: seq<Cell>, s1: seq<nat>, c2: seq<Cell>, s2: seq<nat>, c3: seq<Cell>, s3: seq<nat>)
    requires Guarded(c1, s1, c2, s2) && Guarded(c2, s2, c3, s3)
    ensures Guarded(c1, s1, c3, s3)
  {
  }

  ghost predicate Untouched(before: seq<Cell>, now: seq<Cell>, bucket: nat)
    requires |before| == |now|
  {
    forall j :: 4 * bucket <= j < 4 * bucket + 4 && j < |now| ==> now[j] == before[j]
  }

  // How far a relocation has come: all entries are placed but for the stale cell,
  // the buckets of the path up to `pos` are still as the search saw them, and the
  // root and the immovable entry are where they were.
  ghost predicate PathState(g: Geometry, before: seq<Cell>, now: seq<Cell>, spot: map<Loc, nat>, contents: Nodes,
                            queue: seq<QueueEntry>, pos: nat, stale: nat, immovable: int)
  {
    && g.Valid() && |now| == |before| && 0 < |before| == 4 * g.numBuckets && stale < |now| && pos < |queue|
    && Placed(g, now, spot, stale) && NodesOf(now, spot) == contents
    && StaleIsTwin(g, now, spot, stale)
    && (forall k :: 0 <= k <= pos ==> Untouched(before, now, queue[k].bucket))
    && now[0] == before[0] && (0 <= immovable < |now| ==> now[immovable] == before[immovable])
  }

  // The stale cell is outside the path up to `pos`, and is neither the root's nor
  // the immovable entry's.
  ghost predicate CanFill(queue: seq<QueueEntry>, pos: nat, freeCell: nat, immovable: int) {
    && pos < |queue| && freeCell != 0 && freeCell != immovable
    && forall k :: 0 <= k <= pos ==> freeCell / 4 != queue[k].bucket
  }

  lemma MoveStep(g: Geometry, before: seq<Cell>, now: seq<Cell>, spot: map<Loc, nat>, contents: Nodes,
                 queue: seq<QueueEntry>, pos: nat, freeCell: nat, immovable: int, occupied: nat)
    requires PathState(g, before, now, spot, contents, queue, pos, freeCell, immovable)
    requires CanFill(queue, pos, freeCell, immovable)
    requires occupied < |now| && occupied / 4 == queue[pos].bucket && before[occupied].used
    requires CanMoveTo(g, before, immovable, occupied, freeCell / 4)
    ensures now[occupied] == before[occupied]
    ensures var now' := now[freeCell := Flip(now[occupied])];
            var spot' := spot[LocAt(g, occupied, now[occupied]) := freeCell];
            PathState(g, before, now', spot', contents, queue, pos, occupied, immovable)
            && EveryEntryPresent(g, contents, now')
  {
    hide EveryEntryPresent, StaleIsTwin, Placed;
    assert Untouched(before, now, queue[pos].bucket);
    var now' := now[freeCell := Flip(now[occupied])];
    var spot' := spot[LocAt(g, occupied, now[occupied]) := freeCell];
    MoveIntoStale(g, now, spot, freeCell, occupied);
    TwinAfterMove(g, now, spot, freeCell, occupied);
    PresentDuringMove(g, now', spot', occupied);
    forall k | 0 <= k <= pos
      ensures Untouched(before, now', queue[k].bucket)
    {
      assert Untouched(before, now, queue[k].bucket);
    }
  }

  // The cell that an entry was copied out of can be filled from the parent bucket.
  lemma NextStep(g: Geometry, before: seq<Cell>, now: seq<Cell>, spot: map<Loc, nat>, contents: Nodes,
                 queue: seq<QueueEntry>, pos: nat, stale: nat, immovable: int)
    requires PathState(g, before, now, spot, contents, queue, pos, stale, immovable)
    requires QueueOk(g, before, queue, immovable) && 0 < pos && stale / 4 == queue[pos].bucket
    requires Movable(stale, immovable)
    ensures LinkOk(g, before, queue, immovable, pos)
    ensures var parent := queue[pos].parentQueuePos;
            PathState(g, before, now, spot, contents, queue, parent, stale, immovable)
            && CanFill(queue, parent, stale, immovable)
            && before[SourceCell(queue, pos)].used && SourceCell(queue, pos) / 4 == queue[parent].bucket
            && CanMoveTo(g, before, immovable, SourceCell(queue, pos), stale / 4)
  {
    assert LinkOk(g, before, queue, immovable, pos);
    var parent := queue[pos].parentQueuePos;
    assert Full(before, queue[parent].bucket);
  }

  lemma FirstStep(g: Geometry, before: seq<Cell>, spot: map<Loc, nat>, queue: seq<QueueEntry>, pos: nat,
                  freeCell: nat, immovable: int)
    requires g.Valid() && Placed(g, before, spot, -1) && QueueOk(g, before, queue, immovable)
    requires pos < |queue| && freeCell < |before| && !before[freeCell].used && before[0].used
    requires 0 <= immovable < |before| ==> before[immovable].used
    ensures PathState(g, before, before, spot, NodesOf(before, spot), queue, pos, freeCell, immovable)
    ensures CanFill(queue, pos, freeCell, immovable)
  {
    StaleUnused(g, before, spot, freeCell);
    forall k | 0 <= k <= pos
      ensures freeCell / 4 != queue[k].bucket
    {
      assert Full(before, queue[k].bucket);
    }
  }

  lemma PresentWhenPlaced(g: Geometry, cells: seq<Cell>, spot: map<Loc, nat>)
    requires g.Valid() && Placed(g, cells, spot, -1)
    ensures EveryEntryPresent(g, NodesOf(cells, spot), cells)
  {
    forall l | l in NodesOf(cells, spot)
      ensures exists j :: 0 <= j < |cells| && cells[j].used && LocAt(g, j, cells[j]) == l
                          && cells[j].node == NodesOf(cells, spot)[l]
    {
      assert LocAt(g, spot[l], cells[spot[l]]) == l;
    }
  }

  // Exactly one cell of the bucket was freed; the root and the immovable entry are
  // where they were.
  ghost predicate Relocated(before: seq<Cell>, now: seq<Cell>, bucket: nat, freed: nat, immovable: int) {
    && |now| == |before| && freed < |now| && freed / 4 == bucket && !now[freed].used && now[freed] == UnusedCell
    && (forall j :: 4 * bucket <= j < 4 * bucket + 4 && j < |now| && j != freed ==> now[j] == before[j])
    && now[0] == before[0] && (0 <= immovable < |now| ==> now[immovable] == before[immovable])
  }

  // What is left to do at the end of the path: clear the freed cell.
  lemma {:induction false} LastStep(g: Geometry, before: seq<Cell>, now: seq<Cell>, spot: map<Loc, nat>,
                                    contents: Nodes, queue: seq<QueueEntry>, occupied: nat, immovable: int)
    requires PathState(g, before, now, spot, contents, queue, 0, occupied, immovable)
    requires occupied / 4 == queue[0].bucket && Movable(occupied, immovable)
    ensures var now' := now[occupied := UnusedCell];
            && Placed(g, now', spot, -1) && NodesOf(now', spot) == contents && EveryEntryPresent(g, contents, now')
            && Relocated(before, now', queue[0].bucket, occupied, immovable)
  {
    ClearStale(g, now, spot, occupied, UnusedCell);
    PresentWhenPlaced(g, now[occupied := UnusedCell], spot);
    assert Untouched(before, now, queue[0].bucket);
  }

  lemma {:induction false} PathStart(g: Geometry, before: seq<Cell>, spot: map<Loc, nat>, queue: seq<QueueEntry>,
                                     pos: nat, childIdx: nat, freeCell: nat, immovable: int)
    requires g.Valid() && Placed(g, before, spot, -1) && QueueOk(g, before, queue, immovable) && RootLoc in spot
    requires PathFound(g, before, queue, immovable, pos, childIdx, freeCell)
    requires 0 <= immovable < |before| ==> before[immovable].used
    ensures PathState(g, before, before, spot, NodesOf(before, spot), queue, pos, freeCell, immovable)
    ensures CanFill(queue, pos, freeCell, immovable)
    ensures before[4 * queue[pos].bucket + childIdx].used
  {
    assert before[spot[RootLoc]] == before[0];
    assert Full(before, queue[pos].bucket);
    FirstStep(g, before, spot, queue, pos, freeCell, immovable);
  }

  // A used cell of the pair of (primary, tag) with that tag and the right flag holds
  // an entry whose hash is that of the pair.
  lemma FoundInPair(g: Geometry, cells: seq<Cell>, spot: map<Loc, nat>, primary: nat, tag: nat, r: nat)
    requires g.Valid() && Placed(g, cells, spot, -1) && primary < g.numBuckets && tag < TAG_VALUES
    requires r < |cells| && cells[r].used && cells[r].tag == tag
    requires r / 4 == if cells[r].secondary then MixBucket(g, primary, tag) else primary
    ensures LocAt(g, r, cells[r]) == Loc(primary * 16 + tag, cells[r].color)
    ensures Loc(primary * 16 + tag, cells[r].color) in spot && spot[Loc(primary * 16 + tag, cells[r].color)] == r
  {
    MixUnmixInverse(g, primary, tag);
  }

  ghost function CopyLoc(copy: LocalCopy): Loc {
    Loc(copy.primaryBucket * 16 + copy.value.tag, copy.value.color)
  }

  // The copy names an entry of the table, and is still exact if the bucket's
  // sequence number did not change.
  ghost predicate CopyIn(cells: seq<Cell>, seqs: seq<nat>, spot: map<Loc, nat>, copy: LocalCopy)
    requires |cells| == 4 * |seqs|
  {
    && copy.value.used && copy.value.tag < TAG_VALUES && copy.value.color <= MAX_VALID_COLOR
    && CopyLoc(copy) in spot
    && copy.lastPos < |cells| && copy.lastSeq <= seqs[copy.lastPos / 4]
    && (copy.lastSeq == seqs[copy.lastPos / 4] ==>
          cells[copy.lastPos] == copy.value && spot[CopyLoc(copy)] == copy.lastPos)
  }

  // Every copy that was exact, or known to be out of date, still is.
  ghost predicate CopiesKept(cells: seq<Cell>, seqs: seq<nat>, spot: map<Loc, nat>, cells': seq<Cell>,
                             seqs': seq<nat>, spot': map<Loc, nat>)
    requires |cells| == 4 * |seqs| && |cells'| == 4 * |seqs'|
  {
    forall copy :: CopyIn(cells, seqs, spot, copy) ==> CopyIn(cells', seqs', spot', copy)
  }

  // Writes under the sequence numbers keep every copy of an entry that is still there,
  // wherever it was moved.
  lemma {:induction false} CopyKept(g: Geometry, cells: seq<Cell>, seqs: seq<nat>, spot: map<Loc, nat>,
                                    cells': seq<Cell>, seqs': seq<nat>, spot': map<Loc, nat>)
    requires g.Valid() && Placed(g, cells, spot, -1) && Placed(g, cells', spot', -1)
    requires Guarded(cells, seqs, cells', seqs') && NodesOf(cells, spot).Keys <= NodesOf(cells', spot').Keys
    ensures CopiesKept(cells, seqs, spot, cells', seqs', spot')
  {
    forall copy | CopyIn(cells, seqs, spot, copy)
      ensures CopyIn(cells', seqs', spot', copy)
    {
      assert CopyLoc(copy) in NodesOf(cells, spot);
      if copy.lastSeq == seqs'[copy.lastPos / 4] {
        assert LocAt(g, spot[CopyLoc(copy)], cells[spot[CopyLoc(copy)]]) == CopyLoc(copy);
      }
    }
  }

  lemma {:induction false} CopyNames(g: Geometry, cells: seq<Cell>, seqs: seq<nat>, spot: map<Loc, nat>,
                                     copy: LocalCopy)
    requires g.Valid() && Placed(g, cells, spot, -1) && |cells| == 4 * |seqs| && CopyIn(cells, seqs, spot, copy)
    ensures CopyLoc(copy) in spot && spot[CopyLoc(copy)] < |cells|
    ensures HashToBucket(CopyLoc(copy).hash) == copy.primaryBucket
    ensures HashToTag(CopyLoc(copy).hash) == copy.value.tag
    ensures cells[spot[CopyLoc(copy)]].used && cells[spot[CopyLoc(copy)]].tag == copy.value.tag
    ensures cells[spot[CopyLoc(copy)]].color == copy.value.color
  {
    var hash := CopyLoc(copy).hash;
    assert hash / 16 == copy.primaryBucket && hash % 16 == copy.value.tag;
    InItsPair(g, cells, spot, CopyLoc(copy));
  }

  // Overwriting the entry that a copy names, and what the copy of the new value is.
  lemma {:induction false} CopyWritten(g: Geometry, cells: seq<Cell>, seqs: seq<nat>, seqs': seq<nat>, spot: map<Loc,
                                       nat>, copy: LocalCopy, value: Cell)
    requires g.Valid() && Placed(g, cells, spot, -1) && |cells| == 4 * |seqs| && CopyIn(cells, seqs, spot, copy)
    requires value.used && value.tag == copy.value.tag && value.color == copy.value.color
    requires spot[CopyLoc(copy)] < |cells| && value.secondary == cells[spot[CopyLoc(copy)]].secondary
    requires |seqs'| == |seqs|
    ensures var pos := spot[CopyLoc(copy)];
            && Placed(g, cells[pos := value], spot, -1)
            && NodesOf(cells[pos := value], spot) == NodesOf(cells, spot)[CopyLoc(copy) := value.node]
            && CopyIn(cells[pos := value], seqs', spot, LocalCopy(value, pos, copy.primaryBucket, seqs'[pos / 4]))
  {
    CopyNames(g, cells, seqs, spot, copy);
    Overwrite(g, cells, spot, CopyLoc(copy), value);
  }

  // A colour that no cell of the pair has names no entry of that hash.
  lemma {:induction false} FreshName(g: Geometry, cells: seq<Cell>, spot: map<Loc, nat>, hash: nat, color: nat)
    requires g.Valid() && Placed(g, cells, spot, -1) && hash < g.NumPairs()
    requires var primary := HashToBucket(hash);
             forall j :: 4 * primary <= j < 4 * primary + 4 && j < |cells| ==> cells[j].color != color
    requires var secondary := MixBucket(g, HashToBucket(hash), HashToTag(hash));
             forall j :: 4 * secondary <= j < 4 * secondary + 4 && 0 <= j < |cells| ==> cells[j].color != color
    ensures Loc(hash, color) !in spot
  {
    var l := Loc(hash, color);
    if l in spot {
      InItsPair(g, cells, spot, l);
    }
  }

  lemma {:induction false} NoSuchName(g: Geometry, cells: seq<Cell>, spot: map<Loc, nat>, loc: Loc)
    requires g.Valid() && Placed(g, cells, spot, -1)
    requires HashToBucket(loc.hash) >= g.numBuckets || loc.color > MAX_VALID_COLOR
    ensures loc !in spot
  {
    if loc in spot {
      InItsPair(g, cells, spot, loc);
    }
  }

  // Writing a new entry to an unused cell of its pair adds it to the contents.
  lemma {:induction false} NewEntry(g: Geometry, cells: seq<Cell>, spot: map<Loc, nat>, hash: nat, f: nat, c: Cell)
    requires g.Valid() && Placed(g, cells, spot, -1) && hash < g.NumPairs() && f < |cells| && !cells[f].used
    requires c.used && c.color <= MAX_VALID_COLOR && c.tag == HashToTag(hash)
    requires f / 4 == if c.secondary then MixBucket(g, HashToBucket(hash), c.tag) else HashToBucket(hash)
    requires Loc(hash, c.color) !in spot && RootLoc in spot
    ensures LocAt(g, f, c) == Loc(hash, c.color)
    ensures var spot' := spot[Loc(hash, c.color) := f];
            Placed(g, cells[f := c], spot', -1)
            && NodesOf(cells[f := c], spot') == NodesOf(cells, spot)[Loc(hash, c.color) := c.node]
  {
    MixUnmixInverse(g, HashToBucket(hash), c.tag);
    assert hash == HashToBucket(hash) * 16 + HashToTag(hash);
    PlaceNew(g, cells, spot, f, c);
  }

  // One of the first n cells of the bucket has this colour.
  ghost predicate UsedIn(cells: seq<Cell>, bucket: nat, n: nat, color: nat) {
    exists j :: 4 * bucket <= j < 4 * bucket + n && j < |cells| && cells[j].color == color
  }

  lemma {:induction false} NoneUsed(cells: seq<Cell>, bucket: nat)
    ensures forall color :: !UsedIn(cells, bucket, 0, color)
  {
  }

  lemma {:induction false} UsedInMore(cells: seq<Cell>, bucket: nat, n: nat)
    requires 4 * bucket + n < |cells|
    ensures forall color :: UsedIn(cells, bucket, n + 1, color) <==>
                              UsedIn(cells, bucket, n, color) || color == cells[4 * bucket + n].color
  {
    forall color
      ensures UsedIn(cells, bucket, n + 1, color) <==>
                UsedIn(cells, bucket, n, color) || color == cells[4 * bucket + n].color
    {
      if UsedIn(cells, bucket, n, color) {
        var j :| 4 * bucket <= j < 4 * bucket + n && j < |cells| && cells[j].color == color;
        assert j < 4 * bucket + (n + 1);
      }
      assert cells[4 * bucket + n].color == color ==> UsedIn(cells, bucket, n + 1, color);
    }
  }

  // The bucket of an entry with the given hash and flag.
  function BucketFor(g: Geometry, hash: nat, inSecondary: bool): int
    requires |g.bucketMixTable| == TAG_VALUES
  {
    if inSecondary then MixBucket(g, HashToBucket(hash), HashToTag(hash)) else HashToBucket(hash)
  }

  // `after` is `before` and one new entry, whose name was not in use.
  ghost predicate Added(before: Nodes, after: Nodes, loc: Loc, node: Node) {
    loc.color <= MAX_VALID_COLOR && loc !in before && after == before[loc := node]
  }

  lemma {:induction false} AddedThenRemoved(before: Nodes, after: Nodes, loc: Loc, node: Node)
    requires Added(before, after, loc, node)
    ensures after - {loc} == before
  {
  }

  // Neither bucket of the pair has an unused cell.
  ghost predicate PairFull(g: Geometry, cells: seq<Cell>, hash: nat)
    requires |g.bucketMixTable| == TAG_VALUES
  {
    0 <= BucketFor(g, hash, false) && 0 <= BucketFor(g, hash, true)
    && Full(cells, BucketFor(g, hash, false)) && Full(cells, BucketFor(g, hash, true))
  }

  ghost predicate NumberChanged(seqs: seq<nat>, seqs': seq<nat>, bucket: int) {
    0 <= bucket < |seqs| && bucket < |seqs'| && seqs[bucket] != seqs'[bucket]
  }

  // Why a table whose entries can move makes an add be retried: the pair was full, the
  // relocation has freed a cell of the primary bucket, but has also written the secondary
  // one.
  ghost predicate Disturbed(g: Geometry, hash: nat, cells: seq<Cell>, seqs: seq<nat>, cells': seq<Cell>,
                            seqs': seq<nat>)
  {
    && |g.bucketMixTable| == TAG_VALUES && PairFull(g, cells, hash) && !Full(cells', HashToBucket(hash))
    && NumberChanged(seqs, seqs', BucketFor(g, hash, true))
  }

  // At some point of the log from `from` on the pair was full, and at its end the primary
  // bucket has an unused cell.
  ghost predicate Relief(g: Geometry, log: seq<seq<Cell>>, from: int, to: int, hash: nat) {
    && |g.bucketMixTable| == TAG_VALUES && 0 <= to < |log| && !Full(log[to], HashToBucket(hash))
    && exists i :: 0 <= i <= to && from <= i && PairFull(g, log[i], hash)
  }

  // Why an add with this hash is retried: its mix value is zero, or room was made for it.
  ghost predicate RetriedFor(g: Geometry, log: seq<seq<Cell>>, from: int, to: int, hash: nat) {
    !g.Moves(hash) || Relief(g, log, from, to, hash)
  }

  ghost predicate RetriedIn(g: Geometry, log: seq<seq<Cell>>, from: int, paths: set<Path>) {
    exists p :: p in paths && RetriedFor(g, log, from, |log| - 1, HashOf(g, p))
  }

  ghost predicate NoFuller(cells: seq<Cell>, cells': seq<Cell>) {
    forall b :: Full(cells', b) ==> Full(cells, b)
  }

  lemma {:induction false} WhyRetried(g: Geometry, log: seq<seq<Cell>>, cells: seq<Cell>, seqs: seq<nat>,
                                      trace: seq<seq<Cell>>, cells': seq<Cell>, seqs': seq<nat>, hash: nat)
    requires WriteLog(log, cells) && WriteLog(log + trace, cells')
    requires g.Moves(hash) ==> Disturbed(g, hash, cells, seqs, cells', seqs')
    ensures RetriedFor(g, log + trace, |log| - 1, |log + trace| - 1, hash)
  {
    assert (log + trace)[|log| - 1] == cells;
  }

  // What follows does not take the reason away, as long as it fills no bucket.
  lemma {:induction false} RetriedLater(g: Geometry, log: seq<seq<Cell>>, cells: seq<Cell>, from: int,
                                        log': seq<seq<Cell>>, cells': seq<Cell>, from': int, hash: nat)
    requires WriteLog(log, cells) && WriteLog(log', cells') && log <= log' && from' <= from && NoFuller(cells, cells')
    requires RetriedFor(g, log, from, |log| - 1, hash)
    ensures RetriedFor(g, log', from', |log'| - 1, hash)
  {
    if g.Moves(hash) {
      var i :| 0 <= i <= |log| - 1 && from <= i && PairFull(g, log[i], hash);
      assert log'[i] == log[i];
    }
  }

  lemma {:induction false} RetriedSooner(g: Geometry, log: seq<seq<Cell>>, from: int, to: int, hash: nat, from': int)
    requires RetriedFor(g, log, from, to, hash) && from' <= from
    ensures RetriedFor(g, log, from', to, hash)
  {
  }

  lemma {:induction false} FullBefore(cells: seq<Cell>, j: nat)
    requires j < |cells|
    ensures NoFuller(cells, cells[j := UnusedCell])
  {
    var after := cells[j := UnusedCell];
    forall b | Full(after, b)
      ensures Full(cells, b)
    {
      forall i | 4 * b <= i < 4 * b + 4
        ensures cells[i].used
      {
        assert after[i].used;
      }
    }
  }

  lemma {:induction false} NotFullAt(cells: seq<Cell>, j: nat)
    requires j < |cells| && !cells[j].used
    ensures !Full(cells, j / 4)
  {
    assert 4 * (j / 4) <= j < 4 * (j / 4) + 4;
  }

  lemma {:induction false} PairBuckets(g: Geometry, hash: nat, inSecondary: bool)
    requires g.Valid() && hash < g.NumPairs()
    ensures 0 <= BucketFor(g, hash, inSecondary) < g.numBuckets
    ensures BucketFor(g, hash, inSecondary) == BucketFor(g, hash, !inSecondary) <==> !g.Moves(hash)
  {
    MixUnmixInverse(g, HashToBucket(hash), HashToTag(hash));
  }

  lemma {:induction false} RootFirst(g: Geometry, cells: seq<Cell>, root: Cell)
    requires g.Valid() && Placed(g, cells, map[], -1) && root.used && !root.secondary
    requires root.color == ROOT_COLOR && root.tag == HashToTag(HASH_START_VALUE)
    ensures |cells| > 0 && LocAt(g, 0, root) == RootLoc
    ensures var spot: map<Loc, nat> := map[RootLoc := 0];
            Placed(g, cells[0 := root], spot, -1) && NodesOf(cells[0 := root], spot) == map[RootLoc := root.node]
  {
  }

  lemma {:induction false} JoinTraces(g: Geometry, contents: Nodes, history: seq<seq<Cell>>, first: seq<Cell>,
                                      trace: seq<seq<Cell>>, last: seq<Cell>)
    requires EveryEntryPresent(g, contents, first) && EveryEntryPresent(g, contents, last)
    requires forall i :: 0 <= i < |trace| ==> EveryEntryPresent(g, contents, trace[i])
    ensures var all := [first] + trace + [last];
            && history + [first] + trace + [last] == history + all
            && forall i :: 0 <= i < |all| ==> EveryEntryPresent(g, contents, all[i])
  {
    hide EveryEntryPresent;
  }

  // The search found an entry in a queued bucket that can move to an unused cell.
  ghost predicate PathFound(g: Geometry, cells: seq<Cell>, queue: seq<QueueEntry>, immovable: int, parent: nat,
                            childIdx: nat, freeCell: nat)
    requires g.Valid() && |cells| == 4 * g.numBuckets
  {
    && parent < |queue| && childIdx < 4 && freeCell < |cells| && !cells[freeCell].used
    && 4 * queue[parent].bucket + childIdx < |cells|
    && CanMoveTo(g, cells, immovable, 4 * queue[parent].bucket + childIdx, freeCell / 4)
  }

  class CuckooTable {
    const g: Geometry
    const cells: array<Cell>
    // The sequence number of each bucket: it changes with every sequenced write.
    const seqs: array<nat>
    // Where each entry is.
    ghost var spot: map<Loc, nat>
    // The cells after each write so far. Only WriteEntry writes, and only it adds to this.
    ghost var history: seq<seq<Cell>>

    ghost predicate Valid()
      reads this, cells, seqs
    {
      && g.Valid()
      && cells.Length == 4 * g.numBuckets && seqs.Length == g.numBuckets
      && Placed(g, cells[..], spot, -1) && WriteLog(history, cells[..])
    }

    ghost function Contents(): Nodes
      reads this, cells, seqs
      requires Valid()
    {
      NodesOf(cells[..], spot)
    }

    // The buckets that have unused cells, as often as they have them.
    ghost function Room(): multiset<nat>
      reads this, cells
    {
      RoomOf(cells[..])
    }

    // The present end of the log.
    ghost function Mark(): int
      reads this
    {
      |history| - 1
    }

    // An add with this hash, or with that of one of the prefixes, had to be retried.
    ghost predicate Retried(from: int, hash: nat)
      reads this
    {
      RetriedFor(g, history, from, Mark(), hash)
    }

    ghost predicate RetriedAmong(from: int, paths: set<Path>)
      reads this
    {
      RetriedIn(g, history, from, paths)
    }

    lemma {:induction false} Sooner(from: int, paths: set<Path>, from': int, paths': set<Path>)
      requires RetriedAmong(from, paths) && from' <= from && paths <= paths'
      ensures RetriedAmong(from', paths')
    {
      hide RetriedFor;
      var p :| p in paths && RetriedFor(g, history, from, Mark(), HashOf(g, p));
      RetriedSooner(g, history, from, Mark(), HashOf(g, p), from');
    }

    // There is no unused cell for an entry with this hash, and the search for one failed.
    ghost predicate Jammed(hash: nat)
      reads this, cells
    {
      && |g.bucketMixTable| == TAG_VALUES && PairFull(g, cells[..], hash)
      && exists visited, immovable, filled ::
           SearchFailed(g, cells[..], HashToBucket(hash), visited, immovable, filled)
    }

    // The same for the hash of one of the prefixes.
    ghost predicate JammedIn(paths: set<Path>)
      reads this, cells
    {
      exists p :: p in paths && Jammed(HashOf(g, p))
    }

    // An empty table.
    constructor (g: Geometry)
      requires g.Valid()
      ensures Valid() && Contents() == map[] && fresh(cells) && fresh(seqs) && this.g == g
      ensures forall b :: 0 <= b < g.numBuckets ==> Room()[b] == 4
    {
      this.g := g;
      cells := new Cell[4 * g.numBuckets](i => UnusedCell);
      seqs := new nat[g.numBuckets](i => 0);
      spot := map[];
      new;
      history := [cells[..]];
      forall b | 0 <= b < g.numBuckets
        ensures Room()[b] == 4
      {
        RoomWhenEmpty(cells[..], b);
      }
    }

    // A sequenced write of one cell. Whenever a bucket's sequence number is unchanged,
    // so are its cells.
    method WriteEntry(j: nat, c: Cell) returns (newSeq: nat)
      requires cells.Length == 4 * seqs.Length && j < cells.Length && WriteLog(history, cells[..])
      modifies this`history, cells, seqs
      ensures cells[..] == old(cells[..])[j := c]
      ensures seqs[..] == old(seqs[..])[j / 4 := old(seqs[j / 4]) + 2]
      ensures newSeq == seqs[j / 4]
      ensures Guarded(old(cells[..]), old(seqs[..]), cells[..], seqs[..])
      ensures history == old(history) + [cells[..]] && WriteLog(history, cells[..])
      ensures c.used && old(cells[j]).used ==> Room() == old(Room())
      ensures c.used && !old(cells[j]).used ==> Room() + multiset{j / 4} == old(Room())
    {
      LogWrite(history, cells[..], j, c);
      if c.used {
        RoomTaken(cells[..], j, c);
      }
      hide WriteLog, RoomOf;
      seqs[j / 4] := seqs[j / 4] + 1;
      cells[j] := c;
      seqs[j / 4] := seqs[j / 4] + 1;
      newSeq := seqs[j / 4];
      history := history + [cells[..]];
    }

    // The first unused cell of the bucket, or -1.
    method FindFreeCellInBucket(bucket: nat) returns (r: int)
      requires 4 * bucket + 4 <= cells.Length
      ensures r == -1 ==> Full(cells[..], bucket)
      ensures r != -1 ==> 4 * bucket <= r < 4 * bucket + 4 && !cells[r].used
    {
      var i := 0;
      while i < CUCKOO_BUCKET_SIZE
        invariant 0 <= i <= 4 && forall j :: 4 * bucket <= j < 4 * bucket + i ==> cells[j].used
      {
        if !cells[4 * bucket + i].used {
          return 4 * bucket + i;
        }
        i := i + 1;
      }
      return -1;
    }

    // ----------------------------------------------------------------
    // Searches
    // ----------------------------------------------------------------

    method FindEntryInBucketByColor(bucket: nat, isSecondary: bool, tag: nat, color: nat) returns (r: int)
      requires 4 * bucket + 4 <= cells.Length
      ensures r == -1 || 4 * bucket <= r < 4 * bucket + 4
      ensures r != -1 ==> MatchesColor(cells[r], isSecondary, tag, color)
      ensures forall j :: 4 * bucket <= j < (if r == -1 then 4 * bucket + 4 else r) ==>
                !MatchesColor(cells[j], isSecondary, tag, color)
    {
      var i := 0;
      while i < CUCKOO_BUCKET_SIZE
        invariant 0 <= i <= 4
        invariant forall j :: 4 * bucket <= j < 4 * bucket + i ==>
                    !MatchesColor(cells[j], isSecondary, tag, color)
      {
        if MatchesColor(cells[4 * bucket + i], isSecondary, tag, color) {
          return 4 * bucket + i;
        }
        i := i + 1;
      }
      return -1;
    }

    method FindEntryInBucketByParent(bucket: nat, isSecondary: bool, tag: nat, lastSymbol: Symbol, parentColor: nat)
        returns (r: int)
      requires 4 * bucket + 4 <= cells.Length
      ensures r == -1 || 4 * bucket <= r < 4 * bucket + 4
      ensures r != -1 ==> MatchesParent(cells[r], isSecondary, tag, lastSymbol, parentColor)
      ensures forall j :: 4 * bucket <= j < (if r == -1 then 4 * bucket + 4 else r) ==>
                !MatchesParent(cells[j], isSecondary, tag, lastSymbol, parentColor)
    {
      var i := 0;
      while i < CUCKOO_BUCKET_SIZE
        invariant 0 <= i <= 4
        invariant forall j :: 4 * bucket <= j < 4 * bucket + i ==>
                    !MatchesParent(cells[j], isSecondary, tag, lastSymbol, parentColor)
      {
        if MatchesParent(cells[4 * bucket + i], isSecondary, tag, lastSymbol, parentColor) {
          return 4 * bucket + i;
        }
        i := i + 1;
      }
      return -1;
    }

    static predicate MatchesColor(c: Cell, isSecondary: bool, tag: nat, color: nat) {
      c.tag == tag && c.color == color && c.secondary == isSecondary
    }

    static predicate MatchesParent(c: Cell, isSecondary: bool, tag: nat, lastSymbol: Symbol, parentColor: nat) {
      c.tag == tag && c.node.lastSymbol == lastSymbol && c.node.parentColor == parentColor
      && c.secondary == isSecondary
    }

    // Finds the entry with the given name, which must be in the table.
    method FindEntryInPairByColor(loc: Loc) returns (copy: LocalCopy)
      requires Valid() && loc in Contents()
      ensures CopyOk(copy) && copy.value == cells[copy.lastPos] && CopyLoc(copy) == loc
      ensures spot[loc] == copy.lastPos && copy.value.node == Contents()[loc]
      ensures copy.lastSeq == seqs[copy.lastPos / 4]
    {
      var primary, tag := HashToBucket(loc.hash), HashToTag(loc.hash);
      InItsPair(g, cells[..], spot, loc);
      MixUnmixInverse(g, primary, tag);
      assert cells[..][spot[loc]] == cells[spot[loc]];
      var r := FindEntryInBucketByColor(primary, false, tag, loc.color);
      if r == -1 {
        r := FindEntryInBucketByColor(MixBucket(g, primary, tag), true, tag, loc.color);
      }
      copy := CopyOf(r, primary, tag);
      assert loc.hash == primary * 16 + tag;
    }

    // Finds an entry with the given hash, last symbol and parent colour; there must
    // be one.
    method FindEntryInPairByParent(hash: nat, lastSymbol: Symbol, parentColor: nat) returns (copy: LocalCopy)
      requires Valid() && parentColor <= MAX_VALID_COLOR
      requires exists l :: l in Contents() && l.hash == hash && Contents()[l].lastSymbol == lastSymbol
                           && Contents()[l].parentColor == parentColor
      ensures CopyOk(copy) && copy.value == cells[copy.lastPos] && copy.lastSeq == seqs[copy.lastPos / 4]
      ensures CopyLoc(copy) in Contents() && CopyLoc(copy).hash == hash
      ensures copy.value.node == Contents()[CopyLoc(copy)]
      ensures copy.value.node.lastSymbol == lastSymbol && copy.value.node.parentColor == parentColor
    {
      ghost var loc :| loc in Contents() && loc.hash == hash && Contents()[loc].lastSymbol == lastSymbol
                       && Contents()[loc].parentColor == parentColor;
      var primary, tag := HashToBucket(hash), HashToTag(hash);
      InItsPair(g, cells[..], spot, loc);
      MixUnmixInverse(g, primary, tag);
      assert cells[..][spot[loc]] == cells[spot[loc]];
      var r := FindEntryInBucketByParent(primary, false, tag, lastSymbol, parentColor);
      if r == -1 {
        r := FindEntryInBucketByParent(MixBucket(g, primary, tag), true, tag, lastSymbol, parentColor);
      }
      copy := CopyOf(r, primary, tag);
      assert hash == primary * 16 + tag;
    }

    // The copy of a cell found in the pair of (primary, tag).
    method CopyOf(r: nat, primary: nat, tag: nat) returns (copy: LocalCopy)
      requires Valid() && r < cells.Length && primary < g.numBuckets && tag < TAG_VALUES && cells[r].tag == tag
      requires cells[r].color <= MAX_VALID_COLOR || cells[r].node.parentColor <= MAX_VALID_COLOR
      requires r / 4 == if cells[r].secondary then MixBucket(g, primary, tag) else primary
      ensures copy == LocalCopy(cells[r], r, primary, seqs[r / 4])
      ensures CopyOk(copy) && CopyLoc(copy) == Loc(primary * 16 + tag, cells[r].color)
      ensures spot[CopyLoc(copy)] == r && CopyLoc(copy) in Contents() && Contents()[CopyLoc(copy)] == cells[r].node
    {
      assert cells[..][r] == cells[r];
      assert CellOk(cells[..][r]);
      FoundInPair(g, cells[..], spot, primary, tag, r);
      copy := LocalCopy(cells[r], r, primary, seqs[r / 4]);
    }

    // ----------------------------------------------------------------
    // Local copies
    // ----------------------------------------------------------------

    ghost predicate CopyOk(copy: LocalCopy)
      reads this, cells, seqs
      requires Valid()
    {
      CopyIn(cells[..], seqs[..], spot, copy)
    }

    // Where to write the new value of the entry that the copy was read from: where it
    // was read, or, if the bucket has been written since, where it is found again. In
    // the second case the value takes over the flag of the entry's current bucket.
    method Locate(copy: LocalCopy, newValue: Cell) returns (pos: nat, value: Cell)
      requires Valid() && CopyOk(copy) && newValue.secondary == copy.value.secondary
      ensures pos < cells.Length && pos == spot[CopyLoc(copy)]
      ensures value == newValue.(secondary := cells[pos].secondary)
    {
      pos, value := copy.lastPos, newValue;
      if seqs[copy.lastPos / 4] != copy.lastSeq {
        CopyNames(g, cells[..], seqs[..], spot, copy);
        var current := FindEntryInPairByColor(Loc(copy.primaryBucket * 16 + copy.value.tag, copy.value.color));
        pos := current.lastPos;
        value := newValue.(secondary := cells[pos].secondary);
      }
    }

    // Replaces the entry that the copy was read from, wherever it is now.
    method UpdateEntry(copy: LocalCopy, newValue: Cell) returns (copy': LocalCopy)
      requires Valid() && CopyOk(copy)
      requires newValue.used && newValue.tag == copy.value.tag && newValue.color == copy.value.color
      requires newValue.secondary == copy.value.secondary
      modifies this`history, cells, seqs
      ensures Valid() && Contents() == old(Contents())[CopyLoc(copy) := newValue.node]
      ensures CopyOk(copy') && CopyLoc(copy') == CopyLoc(copy) && copy'.value.node == newValue.node
      ensures Guarded(old(cells[..]), old(seqs[..]), cells[..], seqs[..])
      ensures CopiesKept(old(cells[..]), old(seqs[..]), old(spot), cells[..], seqs[..], spot)
      ensures history == old(history) + [cells[..]] && Room() == old(Room())
    {
      var pos, value := Locate(copy, newValue);
      CopyNames(g, cells[..], seqs[..], spot, copy);
      hide WriteLog, RoomOf;
      assert cells[..][pos] == cells[pos];
      ghost var c0, s0 := cells[..], seqs[..];
      var newSeq := WriteEntry(pos, value);
      CopyWritten(g, c0, s0, seqs[..], spot, copy, value);
      copy' := LocalCopy(value, pos, copy.primaryBucket, newSeq);
      CopyKept(g, c0, s0, spot, cells[..], seqs[..], spot);
    }

    // ----------------------------------------------------------------
    // Allocation
    // ----------------------------------------------------------------

    // The smallest colour that none of the eight cells of the two buckets has.
    method UnusedColorInPair(bucket1: nat, bucket2: nat) returns (c: nat)
      requires 4 * bucket1 + 4 <= cells.Length && 4 * bucket2 + 4 <= cells.Length
      ensures c <= MAX_VALID_COLOR
      ensures !UsedIn(cells[..], bucket1, 4, c) && !UsedIn(cells[..], bucket2, 4, c)
      ensures forall k :: 0 <= k < c ==> UsedIn(cells[..], bucket1, 4, k) || UsedIn(cells[..], bucket2, 4, k)
    {
      hide UsedIn;
      var usedColors: set<nat> := {};
      var i := 0;
      NoneUsed(cells[..], bucket1);
      NoneUsed(cells[..], bucket2);
      while i < CUCKOO_BUCKET_SIZE
        invariant 0 <= i <= 4 && |usedColors| <= 2 * i
        invariant forall k :: k in usedColors <==> UsedIn(cells[..], bucket1, i, k) || UsedIn(cells[..], bucket2, i, k)
      {
        UsedInMore(cells[..], bucket1, i);
        UsedInMore(cells[..], bucket2, i);
        usedColors := usedColors + {cells[4 * bucket1 + i].color};
        usedColors := usedColors + {cells[4 * bucket2 + i].color};
        i := i + 1;
      }
      c := 0;
      while c in usedColors
        invariant c <= MAX_VALID_COLOR && forall k :: 0 <= k < c ==> k in usedColors
        decreases MAX_VALID_COLOR - c
      {
        SubsetCardinality(Range(c + 1), usedColors);
        c := c + 1;
      }
    }

    // Breadth-first search for a bucket with an unused cell, over the buckets that
    // entries can be moved to. On success `queue[parent]` holds, in cell `childIdx`,
    // an entry that can move to freeCell.
    method FindRelocationPath(bucketNum: nat, immovable: int)
        returns (found: bool, queue: seq<QueueEntry>, parent: nat, childIdx: nat, freeCell: nat, queueFilled: bool)
      requires Valid() && bucketNum < g.numBuckets && Full(cells[..], bucketNum)
      ensures |queue| > 0 && queue[0].bucket == bucketNum && QueueOk(g, cells[..], queue, immovable)
      ensures found ==> PathFound(g, cells[..], queue, immovable, parent, childIdx, freeCell)
      ensures !found ==> BarredUpTo(g, cells[..], queue, immovable, |queue|)
      ensures !found && !queueFilled ==> ExploredUpTo(g, cells[..], queue, immovable, |queue|)
      ensures queueFilled ==> |queue| == RELOCATE_QUEUE_SIZE
    {
      queue := [QueueEntry(bucketNum, -1, 0)];
      found, parent, childIdx, freeCell, queueFilled := false, 0, 0, 0, false;
      var queuePos := 0;
      while queuePos < |queue| && !found
        invariant 0 <= queuePos <= |queue| && |queue| <= RELOCATE_QUEUE_SIZE
        invariant |queue| > 0 && queue[0].bucket == bucketNum && QueueOk(g, cells[..], queue, immovable)
        invariant found ==> PathFound(g, cells[..], queue, immovable, parent, childIdx, freeCell)
        invariant !found ==> BarredUpTo(g, cells[..], queue, immovable, queuePos)
        invariant !found && !queueFilled ==> ExploredUpTo(g, cells[..], queue, immovable, queuePos)
        invariant queueFilled ==> |queue| == RELOCATE_QUEUE_SIZE
        decreases !found, RELOCATE_QUEUE_SIZE - queuePos
      {
        ghost var seen := queue;
        found, queue, childIdx, freeCell, queueFilled := ScanBucket(queue, queuePos, immovable, queueFilled);
        parent := queuePos;
        if !found && !queueFilled {
          AllExplored(g, cells[..], seen, queue, immovable, queuePos);
        }
        queuePos := queuePos + 1;
      }
    }

    // Visits the four cells of the bucket at queuePos, as far as the search needs it.
    method ScanBucket(queue: seq<QueueEntry>, queuePos: nat, immovable: int, filled: bool)
        returns (found: bool, queue': seq<QueueEntry>, childIdx: nat, freeCell: nat, queueFilled: bool)
      requires Valid() && queuePos < |queue| <= RELOCATE_QUEUE_SIZE && QueueOk(g, cells[..], queue, immovable)
      ensures queue <= queue' && |queue'| <= RELOCATE_QUEUE_SIZE && QueueOk(g, cells[..], queue', immovable)
      ensures QueueBuckets(queue) <= QueueBuckets(queue') && (filled ==> queueFilled)
      ensures queueFilled && !filled ==> |queue'| == RELOCATE_QUEUE_SIZE
      ensures found ==> PathFound(g, cells[..], queue', immovable, queuePos, childIdx, freeCell)
      ensures !found ==> BarredIn(g, cells[..], immovable, queue'[queuePos].bucket, 4)
      ensures !found && !queueFilled ==> Explored(g, cells[..], queue', immovable, queue'[queuePos].bucket, 4)
    {
      hide QueueOk, Barred, Seen, PathFound, Placed, WriteLog, QueueBuckets;
      found, queue', childIdx, freeCell, queueFilled := false, queue, 0, 0, filled;
      var i := 0;
      while i < CUCKOO_BUCKET_SIZE && !found
        invariant 0 <= i <= 4 && queue <= queue' && |queue'| <= RELOCATE_QUEUE_SIZE
        invariant QueueOk(g, cells[..], queue', immovable) && QueueBuckets(queue) <= QueueBuckets(queue')
        invariant filled ==> queueFilled
        invariant queueFilled && !filled ==> |queue'| == RELOCATE_QUEUE_SIZE
        invariant found ==> PathFound(g, cells[..], queue', immovable, queuePos, childIdx, freeCell)
        invariant !found ==> BarredIn(g, cells[..], immovable, queue'[queuePos].bucket, i)
        invariant !found && !queueFilled ==>
          Explored(g, cells[..], queue', immovable, queue'[queuePos].bucket, i)
        decreases !found, 4 - i
      {
        ghost var seen := queue';
        found, queue', freeCell, queueFilled := Visit(queue', queuePos, i, immovable, freeCell, queueFilled);
        if !found && !queueFilled {
          ExploredMonotone(g, cells[..], seen, queue', immovable, queue'[queuePos].bucket, i);
        }
        childIdx := i;
        i := i + 1;
      }
    }

    method IsQueued(queue: seq<QueueEntry>, bucket: nat) returns (alreadyInserted: bool)
      ensures alreadyInserted <==> bucket in QueueBuckets(queue)
      ensures !alreadyInserted ==> forall k :: 0 <= k < |queue| ==> queue[k].bucket != bucket
    {
      var j := 0;
      while j < |queue|
        invariant 0 <= j <= |queue| && forall k :: 0 <= k < j ==> queue[k].bucket != bucket
      {
        if queue[j].bucket == bucket {
          return true;
        }
        j := j + 1;
      }
      return false;
    }

    // Looks at cell i of the bucket at queuePos: skips the root and the immovable
    // entry, skips buckets already queued, queues a full alternate bucket, or finds
    // an unused cell there.
    method Visit(queue: seq<QueueEntry>, queuePos: nat, i: nat, immovable: int, free: nat, filled: bool)
        returns (found: bool, queue': seq<QueueEntry>, freeCell: nat, queueFilled: bool)
      requires Valid() && i < 4 && queuePos < |queue| <= RELOCATE_QUEUE_SIZE
      requires QueueOk(g, cells[..], queue, immovable)
      ensures queue <= queue' && |queue'| <= RELOCATE_QUEUE_SIZE && QueueOk(g, cells[..], queue', immovable)
      ensures found ==> queue' == queue && PathFound(g, cells[..], queue, immovable, queuePos, i, freeCell)
      ensures filled ==> queueFilled
      ensures queueFilled && !filled ==> |queue'| == RELOCATE_QUEUE_SIZE
      ensures QueueBuckets(queue) <= QueueBuckets(queue')
      ensures !found ==> Barred(g, cells[..], immovable, 4 * queue[queuePos].bucket + i)
      ensures !found && !queueFilled ==> Seen(g, cells[..], queue', immovable, 4 * queue[queuePos].bucket + i)
    {
      found, queue', freeCell, queueFilled := false, queue, free, filled;
      var entry := 4 * queue[queuePos].bucket + i;
      if entry == immovable || entry == 0 {
        return;
      }
      EntryOfQueue(g, cells[..], spot, queue, immovable, queuePos, i);
      var child := AlternateBucket(g, queue[queuePos].bucket, cells[entry]);
      var alreadyInserted := IsQueued(queue, child);
      if alreadyInserted {
        return;
      }
      var free' := FindFreeCellInBucket(child);
      if free' != -1 {
        found, freeCell := true, free';
      } else if |queue| < RELOCATE_QUEUE_SIZE {
        queue' := queue + [QueueEntry(child, queuePos, i)];
        Pushed(g, cells[..], queue, QueueEntry(child, queuePos, i), immovable);
      } else {
        queueFilled := true;
      }
    }

    // Moves an entry out of the given bucket to make room there. On success the
    // abstract contents are what they were, exactly one cell of the bucket is freed,
    // and the root and the immovable entry stay where they are. `trace` lists the
    // cells after each single write. On failure nothing was moved, and none of the entries
    // of the visited buckets could have been moved to an unused cell.
    method RelocateEntry(bucketNum: nat, immovable: int)
        returns (status: Status, output: nat, queueFilled: bool, ghost visited: set<nat>, ghost trace: seq<seq<Cell>>)
      requires Valid() && bucketNum < g.numBuckets && Full(cells[..], bucketNum)
      requires RootLoc in spot
      requires -1 <= immovable < cells.Length && (immovable >= 0 ==> cells[immovable].used)
      modifies this`spot, this`history, cells, seqs
      ensures Valid() && Contents() == old(Contents()) && Guarded(old(cells[..]), old(seqs[..]), cells[..], seqs[..])
      ensures CopiesKept(old(cells[..]), old(seqs[..]), old(spot), cells[..], seqs[..], spot)
      ensures status == SI_OK || status == SI_FAIL
      ensures status == SI_OK ==> Relocated(old(cells[..]), cells[..], bucketNum, output, immovable)
      ensures RootLoc in spot
      ensures history == old(history) + trace
      ensures forall i :: 0 <= i < |trace| ==> EveryEntryPresent(g, old(Contents()), trace[i])
      ensures status == SI_FAIL ==> cells[..] == old(cells[..]) && spot == old(spot)
      ensures status == SI_FAIL ==> SearchFailed(g, cells[..], bucketNum, visited, immovable, queueFilled)
    {
      hide Placed, QueueOk, EveryEntryPresent, ClosedAndFull, CopiesKept;
      trace, visited, output := [], {}, 0;
      var found, queue, pos, childIdx, freeCell;
      found, queue, pos, childIdx, freeCell, queueFilled := FindRelocationPath(bucketNum, immovable);
      if found {
        status := SI_OK;
        output, trace := MoveAlongPath(queue, pos, childIdx, freeCell, immovable);
      } else {
        status := SI_FAIL;
        visited := QueueBuckets(queue);
        GiveUp(g, cells[..], queue, immovable, queueFilled);
      }
      CopyKept(g, old(cells[..]), old(seqs[..]), old(spot), cells[..], seqs[..], spot);
    }

    // Each entry of the path that the search found takes the place of the next one, and
    // the cell that this frees in the first bucket is cleared.
    method MoveAlongPath(queue: seq<QueueEntry>, last: nat, childIdx: nat, free: nat, ghost immovable: int)
        returns (output: nat, ghost trace: seq<seq<Cell>>)
      requires Valid() && |queue| > 0 && QueueOk(g, cells[..], queue, immovable)
      requires PathFound(g, cells[..], queue, immovable, last, childIdx, free)
      requires RootLoc in spot
      requires -1 <= immovable < cells.Length && (immovable >= 0 ==> cells[immovable].used)
      modifies this`spot, this`history, cells, seqs
      ensures Valid() && Contents() == old(Contents()) && Guarded(old(cells[..]), old(seqs[..]), cells[..], seqs[..])
      ensures Relocated(old(cells[..]), cells[..], queue[0].bucket, output, immovable) && RootLoc in spot
      ensures history == old(history) + trace
      ensures forall i :: 0 <= i < |trace| ==> EveryEntryPresent(g, old(Contents()), trace[i])
    {
      hide QueueOk, EveryEntryPresent, ClosedAndFull, WriteLog, Guarded, Relocated, PathState, PathFound;
      ghost var before, s0, contents := cells[..], seqs[..], Contents();
      assert RootLoc in contents;
      output := MoveFirst(queue, last, childIdx, free, immovable);
      ghost var first := cells[..];
      output, trace := MoveRest(queue, last, output, before, s0, contents, immovable);
      // The stale copy at the start of the path goes
      ClearFreed(output, before, s0, contents, queue, immovable);
      JoinTraces(g, contents, old(history), first, trace, cells[..]);
      trace := [first] + trace + [cells[..]];
      assert RootLoc in Contents();
    }

    // Moves the entry at the end of the path into the unused cell.
    method MoveFirst(queue: seq<QueueEntry>, last: nat, childIdx: nat, free: nat, ghost immovable: int)
        returns (occupied: nat)
      requires Valid() && |queue| > 0 && QueueOk(g, cells[..], queue, immovable)
      requires PathFound(g, cells[..], queue, immovable, last, childIdx, free)
      requires RootLoc in spot
      requires -1 <= immovable < cells.Length && (immovable >= 0 ==> cells[immovable].used)
      modifies this`spot, this`history, cells, seqs
      ensures AtPos(old(cells[..]), old(seqs[..]), old(Contents()), queue, last, occupied, immovable)
      ensures history == old(history) + [cells[..]] && EveryEntryPresent(g, old(Contents()), cells[..])
    {
      ghost var before, s0, contents := cells[..], seqs[..], Contents();
      PathStart(g, before, spot, queue, last, childIdx, free, immovable);
      occupied := 4 * queue[last].bucket + childIdx;
      MoveOne(occupied, free, before, s0, contents, queue, last, immovable);
    }

    // Moves the entries of the path up to its first bucket.
    method MoveRest(queue: seq<QueueEntry>, last: nat, stale: nat, ghost before: seq<Cell>, ghost s0: seq<nat>,
                    ghost contents: Nodes, ghost immovable: int)
        returns (occupied: nat, ghost trace: seq<seq<Cell>>)
      requires g.Valid() && cells.Length == 4 * g.numBuckets && seqs.Length == g.numBuckets
      requires AtPos(before, s0, contents, queue, last, stale, immovable)
      modifies this`spot, this`history, cells, seqs
      ensures AtPos(before, s0, contents, queue, 0, occupied, immovable)
      ensures history == old(history) + trace
      ensures forall i :: 0 <= i < |trace| ==> EveryEntryPresent(g, contents, trace[i])
    {
      hide QueueOk, EveryEntryPresent, PathState, Guarded, WriteLog;
      var pos := last;
      occupied, trace := stale, [];
      while pos != 0
        invariant g.Valid() && cells.Length == 4 * g.numBuckets && seqs.Length == g.numBuckets
        invariant AtPos(before, s0, contents, queue, pos, occupied, immovable)
        invariant history == old(history) + trace
        invariant forall i :: 0 <= i < |trace| ==> EveryEntryPresent(g, contents, trace[i])
        decreases pos
      {
        pos, occupied := MoveNext(queue, pos, occupied, before, s0, contents, immovable);
        trace := trace + [cells[..]];
      }
    }

    // The entry of cell `occupied`, in the bucket at position `pos` of the path, has
    // just been copied out.
    ghost predicate AtPos(before: seq<Cell>, s0: seq<nat>, contents: Nodes, queue: seq<QueueEntry>, pos: nat,
                          occupied: nat, immovable: int)
      reads this, cells, seqs
      requires g.Valid() && cells.Length == 4 * g.numBuckets && seqs.Length == g.numBuckets
    {
      && PathState(g, before, cells[..], spot, contents, queue, pos, occupied, immovable)
      && occupied / 4 == queue[pos].bucket && Movable(occupied, immovable)
      && QueueOk(g, before, queue, immovable)
      && Guarded(before, s0, cells[..], seqs[..]) && WriteLog(history, cells[..])
    }

    // Fills the cell that was copied out from the bucket it was reached from.
    method MoveNext(queue: seq<QueueEntry>, pos: nat, stale: nat, ghost before: seq<Cell>, ghost s0: seq<nat>,
                    ghost contents: Nodes, ghost immovable: int)
        returns (pos': nat, occupied: nat)
      requires g.Valid() && cells.Length == 4 * g.numBuckets && seqs.Length == g.numBuckets
      requires AtPos(before, s0, contents, queue, pos, stale, immovable) && 0 < pos
      modifies this`spot, this`history, cells, seqs
      ensures AtPos(before, s0, contents, queue, pos', occupied, immovable)
      ensures pos' < pos && history == old(history) + [cells[..]] && EveryEntryPresent(g, contents, cells[..])
    {
      NextStep(g, before, cells[..], spot, contents, queue, pos, stale, immovable);
      occupied := SourceCell(queue, pos);
      pos' := queue[pos].parentQueuePos;
      MoveOne(occupied, stale, before, s0, contents, queue, pos', immovable);
    }

    method ClearFreed(occupied: nat, ghost before: seq<Cell>, ghost s0: seq<nat>, ghost contents: Nodes,
                      ghost queue: seq<QueueEntry>, ghost immovable: int)
      requires g.Valid() && cells.Length == 4 * g.numBuckets && seqs.Length == g.numBuckets
      requires |queue| > 0 && AtPos(before, s0, contents, queue, 0, occupied, immovable)
      modifies this`history, cells, seqs
      ensures Valid() && Contents() == contents
      ensures history == old(history) + [cells[..]] && EveryEntryPresent(g, contents, cells[..])
      ensures Relocated(before, cells[..], queue[0].bucket, occupied, immovable)
      ensures Guarded(before, s0, cells[..], seqs[..])
    {
      hide QueueOk, EveryEntryPresent, Placed, WriteLog, Guarded, Relocated, RoomOf;
      ghost var c1, s1 := cells[..], seqs[..];
      LastStep(g, before, c1, spot, contents, queue, occupied, immovable);
      var _ := WriteEntry(occupied, UnusedCell);
      GuardedTransitive(before, s0, c1, s1, cells[..], seqs[..]);
    }

    // Copies one entry into the stale cell of its alternate bucket, flipping its
    // flag; its old cell becomes the stale one.
    method MoveOne(occupied: nat, freeCell: nat, ghost before: seq<Cell>, ghost s0: seq<nat>, ghost contents: Nodes,
                   ghost queue: seq<QueueEntry>, ghost pos: nat, ghost immovable: int)
      requires g.Valid() && cells.Length == 4 * g.numBuckets && seqs.Length == g.numBuckets
      requires PathState(g, before, cells[..], spot, contents, queue, pos, freeCell, immovable)
      requires QueueOk(g, before, queue, immovable) && CanFill(queue, pos, freeCell, immovable)
      requires occupied < cells.Length && occupied / 4 == queue[pos].bucket && before[occupied].used
      requires CanMoveTo(g, before, immovable, occupied, freeCell / 4)
      requires Guarded(before, s0, cells[..], seqs[..]) && WriteLog(history, cells[..])
      modifies this`spot, this`history, cells, seqs
      ensures AtPos(before, s0, contents, queue, pos, occupied, immovable)
      ensures history == old(history) + [cells[..]] && EveryEntryPresent(g, contents, cells[..])
    {
      hide QueueOk, EveryEntryPresent, WriteLog, Guarded, RoomOf;
      ghost var now, s1 := cells[..], seqs[..];
      MoveStep(g, before, now, spot, contents, queue, pos, freeCell, immovable, occupied);
      var entry := cells[occupied];
      assert entry == now[occupied];
      ghost var loc := LocAt(g, occupied, entry);
      entry := Flip(entry);
      var _ := WriteEntry(freeCell, entry);
      spot := spot[loc := freeCell];
      GuardedTransitive(before, s0, now, s1, cells[..], seqs[..]);
    }

    // Finds room for an entry with the given hash: an unused cell of its primary or
    // its secondary bucket, or a cell of the primary bucket freed by relocation.
    method FindRoom(primary: nat, secondary: nat, immovable: int)
        returns (status: Status, result: nat, inSecondary: bool, queueFilled: bool,
                 ghost visited: set<nat>, ghost trace: seq<seq<Cell>>)
      requires Valid() && primary < g.numBuckets && secondary < g.numBuckets && RootLoc in spot
      requires -1 <= immovable < cells.Length && (immovable >= 0 ==> cells[immovable].used)
      modifies this`spot, this`history, cells, seqs
      ensures Valid() && RootLoc in spot && Contents() == old(Contents())
      ensures Guarded(old(cells[..]), old(seqs[..]), cells[..], seqs[..])
      ensures status == SI_OK || status == SI_FAIL
      ensures status == SI_OK ==> result < cells.Length && !cells[result].used
      ensures status == SI_OK ==> result / 4 == if inSecondary then secondary else primary
      ensures cells[0] == old(cells[0]) && (immovable >= 0 ==> cells[immovable] == old(cells[immovable]))
      ensures history == old(history) + trace
      ensures forall i :: 0 <= i < |trace| ==> EveryEntryPresent(g, old(Contents()), trace[i])
      ensures inSecondary ==> Full(old(cells[..]), primary) && !Full(old(cells[..]), secondary)
      ensures status == SI_FAIL ==> cells[..] == old(cells[..]) && spot == old(spot)
      ensures !(Full(old(cells[..]), primary) && Full(old(cells[..]), secondary)) ==>
                status == SI_OK && cells[..] == old(cells[..]) && seqs[..] == old(seqs[..])
      ensures status == SI_FAIL ==> SearchFailed(g, cells[..], primary, visited, immovable, queueFilled)
    {
      hide Placed, QueueOk, EveryEntryPresent, ClosedAndFull;
      inSecondary, queueFilled, visited, trace := false, false, {}, [];
      var cell := FindFreeCellInBucket(primary);
      if cell == -1 {
        var other := FindFreeCellInBucket(secondary);
        if other == -1 {
          // No unused cell in the pair: one must be made in the primary bucket
          status, result, queueFilled, visited, trace := RelocateEntry(primary, immovable);
          return;
        }
        inSecondary, cell := true, other;
      }
      status, result := SI_OK, cell;
    }

    // Puts a node with the given hash into the table under a colour that no other
    // entry of that hash has. When the sequence number of the bucket that was not
    // written has changed, the entry is taken out again and the caller must retry.
    method AddEntry(hash: nat, node: Node, immovable: int)
        returns (status: Status, color: nat, queueFilled: bool, ghost visited: set<nat>, ghost trace: seq<seq<Cell>>)
      requires Valid() && hash < g.NumPairs() && RootLoc in spot
      requires -1 <= immovable < cells.Length && (immovable >= 0 ==> cells[immovable].used)
      modifies this`spot, this`history, cells, seqs
      ensures Valid() && RootLoc in spot
      ensures Guarded(old(cells[..]), old(seqs[..]), cells[..], seqs[..])
      ensures status == SI_OK || status == SI_RETRY || status == SI_FAIL
      ensures status == SI_OK ==> Added(old(Contents()), Contents(), Loc(hash, color), node)
      ensures status == SI_OK ==> g.Moves(hash)
      ensures status != SI_OK ==> Contents() == old(Contents())
      ensures immovable >= 0 ==> cells[immovable] == old(cells[immovable])
      ensures history == old(history) + trace
      ensures forall i :: 0 <= i < |trace| ==> AddingState(g, old(Contents()), hash, node, trace[i])
      ensures status == SI_FAIL ==> cells[..] == old(cells[..])
      ensures Served(g, multiset{HashToBucket(hash)}, old(Room()), status == SI_OK, Room())
      ensures g.Moves(hash) && !PairFull(g, old(cells[..]), hash) ==> status == SI_OK
      ensures CopiesKept(old(cells[..]), old(seqs[..]), old(spot), cells[..], seqs[..], spot)
      ensures status == SI_FAIL ==> PairFull(g, cells[..], hash)
      ensures status == SI_FAIL ==> SearchFailed(g, cells[..], HashToBucket(hash), visited, immovable, queueFilled)
      ensures status == SI_RETRY && g.Moves(hash) ==>
                Disturbed(g, hash, old(cells[..]), old(seqs[..]), cells[..], seqs[..])
      ensures status == SI_OK && PairFull(g, old(cells[..]), hash) ==>
                !NumberChanged(old(seqs[..]), seqs[..], BucketFor(g, hash, true))
    {
      hide Placed, QueueOk, EveryEntryPresent, ClosedAndFull, AddingState, RoomOf, WriteLog, Guarded, CopiesKept, Full;
      ghost var c0, s0, spot0, contents := cells[..], seqs[..], spot, Contents();
      var primary, tag := HashToBucket(hash), HashToTag(hash);
      RoomIsNotFull(c0, primary);
      MixUnmixInverse(g, primary, tag);
      var secondary := MixBucket(g, primary, tag);
      var primarySeq, secondarySeq := seqs[primary], seqs[secondary];
      color := 0;
      var result, inSecondary;
      status, result, inSecondary, queueFilled, visited, trace := FindRoom(primary, secondary, immovable);
      PresentIsAdding(g, contents, hash, node, trace);
      if status == SI_FAIL {
        CopyKept(g, c0, s0, spot0, cells[..], seqs[..], spot);
        return;
      }
      ghost var c1, s1 := cells[..], seqs[..];
      SeqsGrow(c0, s0, c1, s1);
      ghost var trace';
      status, color, trace' :=
        PutAndValidate(hash, node, result, inSecondary, if inSecondary then primarySeq else secondarySeq);
      GuardedTransitive(c0, s0, c1, s1, cells[..], seqs[..]);
      trace := trace + trace';
      CopyKept(g, c0, s0, spot0, cells[..], seqs[..], spot);
    }

    // Writes the new entry to the unused cell `result`, and takes it out again if the
    // sequence number of the other bucket of the pair is not `alternateSeq`.
    method PutAndValidate(hash: nat, node: Node, result: nat, inSecondary: bool, alternateSeq: nat)
        returns (status: Status, color: nat, ghost trace: seq<seq<Cell>>)
      requires Valid() && hash < g.NumPairs() && RootLoc in spot && result < cells.Length && !cells[result].used
      requires result / 4 == BucketFor(g, hash, inSecondary)
      requires 0 <= BucketFor(g, hash, !inSecondary) < seqs.Length
      requires alternateSeq <= seqs[BucketFor(g, hash, !inSecondary)]
      modifies this`spot, this`history, cells, seqs
      ensures Valid() && RootLoc in spot
      ensures Guarded(old(cells[..]), old(seqs[..]), cells[..], seqs[..])
      ensures status == SI_OK || status == SI_RETRY
      ensures status == SI_OK ==> Added(old(Contents()), Contents(), Loc(hash, color), node)
      ensures status == SI_OK <==> g.Moves(hash) && alternateSeq == old(seqs[BucketFor(g, hash, !inSecondary)])
      ensures status != SI_OK ==> Contents() == old(Contents())
      ensures forall j :: 0 <= j < cells.Length && j != result ==> cells[j] == old(cells[j])
      ensures history == old(history) + trace
      ensures forall i :: 0 <= i < |trace| ==> AddingState(g, old(Contents()), hash, node, trace[i])
      ensures status == SI_OK ==> Room() + multiset{result / 4} == old(Room())
      ensures status == SI_RETRY ==> !Full(cells[..], result / 4)
      ensures forall b :: 0 <= b < seqs.Length && b != result / 4 ==> seqs[b] == old(seqs[b])
    {
      hide Placed, QueueOk, EveryEntryPresent, ClosedAndFull, AddingState, RoomOf, WriteLog, Guarded, Full;
      ghost var before, s0, contents := cells[..], seqs[..], Contents();
      PairBuckets(g, hash, inSecondary);
      color := Put(hash, node, result, inSecondary);
      status, trace := SI_OK, [cells[..]];
      PresentWhenPlaced(g, cells[..], spot);
      AddedIsAdding(g, contents, hash, node, color, cells[..]);
      if seqs[BucketFor(g, hash, !inSecondary)] != alternateSeq {
        // There may now be an entry of the same colour in the other bucket
        ghost var c1, s1 := cells[..], seqs[..];
        AddedThenRemoved(contents, Contents(), Loc(hash, color), node);
        TakeBack(Loc(hash, color), result);
        NotFullAt(cells[..], result);
        trace := trace + [cells[..]];
        PresentWhenPlaced(g, cells[..], spot);
        PresentIsAdding(g, contents, hash, node, [cells[..]]);
        GuardedTransitive(before, s0, c1, s1, cells[..], seqs[..]);
        status := SI_RETRY;
      }
    }

    // A colour that no entry with the given hash has.
    method FreshColor(hash: nat) returns (color: nat)
      requires Valid() && hash < g.NumPairs()
      ensures color <= MAX_VALID_COLOR && Loc(hash, color) !in spot
    {
      PairBuckets(g, hash, true);
      PairBuckets(g, hash, false);
      color := UnusedColorInPair(BucketFor(g, hash, false), BucketFor(g, hash, true));
      FreshName(g, cells[..], spot, hash, color);
    }

    method Put(hash: nat, node: Node, result: nat, inSecondary: bool) returns (color: nat)
      requires Valid() && hash < g.NumPairs() && RootLoc in spot && result < cells.Length && !cells[result].used
      requires result / 4 == BucketFor(g, hash, inSecondary)
      modifies this`spot, this`history, cells, seqs
      ensures Valid() && RootLoc in spot
      ensures Guarded(old(cells[..]), old(seqs[..]), cells[..], seqs[..])
      ensures Added(old(Contents()), Contents(), Loc(hash, color), node) && Loc(hash, color) != RootLoc
      ensures seqs[..] == old(seqs[..])[result / 4 := old(seqs[result / 4]) + 2]
      ensures forall j :: 0 <= j < cells.Length && j != result ==> cells[j] == old(cells[j])
      ensures Loc(hash, color) !in old(spot) && spot == old(spot)[Loc(hash, color) := result]
      ensures history == old(history) + [cells[..]] && Room() + multiset{result / 4} == old(Room())
    {
      hide WriteLog, RoomOf, Placed, EveryEntryPresent, Guarded;
      color := FreshColor(hash);
      var entry := Cell(true, node, inSecondary, color, HashToTag(hash));
      NewEntry(g, cells[..], spot, hash, result, entry);
      var _ := WriteEntry(result, entry);
      spot := spot[Loc(hash, color) := result];
    }

    method TakeBack(loc: Loc, result: nat)
      requires Valid() && loc in spot && loc != RootLoc && spot[loc] == result && RootLoc in spot
      modifies this`spot, this`history, cells, seqs
      ensures Valid() && Contents() == old(Contents()) - {loc} && RootLoc in spot
      ensures Guarded(old(cells[..]), old(seqs[..]), cells[..], seqs[..])
      ensures cells[..] == old(cells[..])[result := UnusedCell]
      ensures forall b :: 0 <= b < seqs.Length && b != result / 4 ==> seqs[b] == old(seqs[b])
      ensures history == old(history) + [cells[..]]
    {
      RemoveOne(g, cells[..], spot, loc, UnusedCell);
      var _ := WriteEntry(result, UnusedCell);
      spot := spot - {loc};
    }

    // ----------------------------------------------------------------
    // The operations the trie uses, by name
    // ----------------------------------------------------------------

    // Puts the root of a trie with a single key into cell 0 of an empty table.
    method CreateRoot(node: Node)
      requires Valid() && Contents() == map[]
      modifies this`spot, this`history, cells, seqs
      ensures Valid() && Contents() == map[RootLoc := node] && RootLoc in spot
      ensures Room() + multiset{0} == old(Room())
    {
      assert spot.Keys == Contents().Keys;
      assert spot == map[];
      var root := Cell(true, node, false, ROOT_COLOR, HashToTag(HASH_START_VALUE));
      ghost var before := cells[..];
      RootFirst(g, before, root);
      var _ := WriteEntry(0, root);
      spot := map[RootLoc := 0];
    }

    // The root is in the first cell of its primary bucket.
    method FindRoot() returns (node: Node)
      requires Valid() && RootLoc in Contents()
      ensures node == Contents()[RootLoc]
    {
      assert cells[..][0] == cells[0];
      node := cells[0].node;
    }

    method Find(loc: Loc) returns (node: Node)
      requires Valid() && loc in Contents()
      ensures node == Contents()[loc]
    {
      var copy := FindEntryInPairByColor(loc);
      node := copy.value.node;
    }

    method FindChild(hash: nat, lastSymbol: Symbol, parentColor: nat) returns (loc: Loc, node: Node)
      requires Valid() && parentColor <= MAX_VALID_COLOR
      requires HasChild(Contents(), hash, lastSymbol, parentColor)
      ensures loc in Contents() && IsChild(Contents(), loc, hash, lastSymbol, parentColor) && node == Contents()[loc]
    {
      var copy := FindEntryInPairByParent(hash, lastSymbol, parentColor);
      loc := Loc(copy.primaryBucket * 16 + copy.value.tag, copy.value.color);
      node := copy.value.node;
    }

    method Update(loc: Loc, node: Node)
      requires Valid() && loc in Contents()
      modifies this`history, cells, seqs
      ensures Valid() && Contents() == old(Contents())[loc := node]
      ensures history == old(history) + [cells[..]] && EveryEntryPresent(g, Contents(), cells[..])
      ensures Room() == old(Room())
    {
      var copy := FindEntryInPairByColor(loc);
      var _ := UpdateEntry(copy, copy.value.(node := node));
    }

    method Remove(loc: Loc)
      requires Valid() && loc in Contents() && loc != RootLoc && RootLoc in spot
      modifies this`spot, this`history, cells, seqs
      ensures Valid() && Contents() == old(Contents()) - {loc}
      ensures history == old(history) + [cells[..]] && EveryEntryPresent(g, Contents(), cells[..])
      ensures NoFuller(old(cells[..]), cells[..])
    {
      var copy := FindEntryInPairByColor(loc);
      TakeBack(loc, copy.lastPos);
      FullBefore(old(cells[..]), copy.lastPos);
    }

    // Adds an entry, without moving the entry `keep` (if given) while making room.
    method AddBeside(hash: nat, node: Node, keep: Option<Loc>)
        returns (status: Status, color: nat, ghost trace: seq<seq<Cell>>)
      requires Valid() && hash < g.NumPairs() && RootLoc in Contents()
      requires keep.Some? ==> keep.value in Contents()
      modifies this`spot, this`history, cells, seqs
      ensures Valid() && (status == SI_OK || status == SI_RETRY || status == SI_FAIL)
      ensures status == SI_OK ==> Added(old(Contents()), Contents(), Loc(hash, color), node)
      ensures status != SI_OK ==> Contents() == old(Contents())
      ensures g.Moves(hash) && !PairFull(g, old(cells[..]), hash) ==> status == SI_OK
      ensures status == SI_OK ==> g.Moves(hash)
      ensures status == SI_FAIL ==> Jammed(hash)
      ensures status == SI_RETRY ==> Retried(old(Mark()), hash)
      ensures history == old(history) + trace
      ensures forall i :: 0 <= i < |trace| ==> AddingState(g, old(Contents()), hash, node, trace[i])
      ensures Served(g, multiset{HashToBucket(hash)}, old(Room()), status == SI_OK, Room())
    {
      hide Placed, EveryEntryPresent, AddingState, WriteLog, RoomOf, Disturbed, RetriedFor, SearchFailed, PairFull,
           Served, Added;
      var immovable: int := -1;
      if keep.Some? {
        var copy := FindEntryInPairByColor(keep.value);
        immovable := copy.lastPos;
      }
      var queueFilled;
      ghost var visited;
      status, color, queueFilled, visited, trace := AddEntry(hash, node, immovable);
      if status == SI_FAIL {
        assert SearchFailed(g, cells[..], HashToBucket(hash), visited, immovable, queueFilled);
      }
      if status == SI_RETRY {
        WhyRetried(g, old(history), old(cells[..]), old(seqs[..]), trace, cells[..], seqs[..], hash);
      }
    }

    // ----------------------------------------------------------------
    // Searches that need not succeed
    // ----------------------------------------------------------------

    // The node with the given name, if there is one.
    method TryFind(loc: Loc) returns (node: Option<Node>)
      requires Valid()
      ensures node == if loc in Contents() then Some(Contents()[loc]) else None
    {
      var primary, tag := HashToBucket(loc.hash), HashToTag(loc.hash);
      if primary >= g.numBuckets || loc.color > MAX_VALID_COLOR {
        NoSuchName(g, cells[..], spot, loc);
        return None;
      }
      MixUnmixInverse(g, primary, tag);
      assert loc.hash == primary * 16 + tag;
      var r := FindEntryInBucketByColor(primary, false, tag, loc.color);
      if r == -1 {
        r := FindEntryInBucketByColor(MixBucket(g, primary, tag), true, tag, loc.color);
      }
      if r == -1 {
        if loc in spot {
          InItsPair(g, cells[..], spot, loc);
        }
        return None;
      }
      var copy := CopyOf(r, primary, tag);
      return Some(copy.value.node);
    }

    // Is there an entry with the given hash, last symbol and parent colour?
    method TryFindChild(hash: nat, lastSymbol: Symbol, parentColor: nat) returns (found: bool)
      requires Valid() && hash < g.NumPairs() && parentColor <= MAX_VALID_COLOR
      ensures found <==> HasChild(Contents(), hash, lastSymbol, parentColor)
    {
      var primary, tag := HashToBucket(hash), HashToTag(hash);
      MixUnmixInverse(g, primary, tag);
      assert hash == primary * 16 + tag;
      var r := FindEntryInBucketByParent(primary, false, tag, lastSymbol, parentColor);
      if r == -1 {
        r := FindEntryInBucketByParent(MixBucket(g, primary, tag), true, tag, lastSymbol, parentColor);
      }
      found := r != -1;
      if found {
        var copy := CopyOf(r, primary, tag);
        assert IsChild(Contents(), CopyLoc(copy), hash, lastSymbol, parentColor);
      } else if HasChild(Contents(), hash, lastSymbol, parentColor) {
        ghost var loc :| IsChild(Contents(), loc, hash, lastSymbol, parentColor);
        InItsPair(g, cells[..], spot, loc);
        assert false;
      }
    }
  }
}
