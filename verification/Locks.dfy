// The lock manager of a thread: which buckets it has write-locked, and how many
// references to each bucket and to each of its entries it holds.
module Locks {
  import opened Store
  import opened Table

  // `total` counts the references to the four entries and those to the bucket itself.
  datatype WriteLock = WriteLock(bucket: nat, entryRefs: seq<nat>, total: nat)

  datatype ReadLock = ReadLock(bucket: nat, seqNum: nat)

  function SumOf(refs: seq<nat>): nat {
    if |refs| == 0 then 0 else SumOf(refs[..|refs| - 1]) + refs[|refs| - 1]
  }

  function NewLock(bucket: nat): WriteLock {
    WriteLock(bucket, [0, 0, 0, 0], 1)
  }

  // Every lock is referenced; what entries do not account for are references to the
  // bucket.
  predicate LockOk(l: WriteLock) {
    |l.entryRefs| == CUCKOO_BUCKET_SIZE && l.total >= 1 && SumOf(l.entryRefs) <= l.total
  }

  function BucketRefs(l: WriteLock): nat
    requires LockOk(l)
  {
    l.total - SumOf(l.entryRefs)
  }

  predicate Distinct(held: seq<WriteLock>) {
    forall i, j :: 0 <= i < j < |held| ==> held[i].bucket != held[j].bucket
  }

  // The locks by bucket; their order in the manager does not matter.
  ghost function Refs(held: seq<WriteLock>): map<nat, WriteLock>
    requires Distinct(held)
  {
    map i | 0 <= i < |held| :: held[i].bucket := held[i]
  }

  lemma {:induction false} SumAt(refs: seq<nat>, i: nat, x: nat)
    requires i < |refs|
    ensures SumOf(refs[i := x]) == SumOf(refs) - refs[i] + x
    ensures refs[i] <= SumOf(refs)
  {
    var e := |refs| - 1;
    if i == e {
      assert refs[i := x][..e] == refs[..e];
    } else {
      SumAt(refs[..e], i, x);
      assert refs[i := x][..e] == refs[..e][i := x];
    }
  }

  // ------------------------------------------------------------------
  // What the operations do to the references
  // ------------------------------------------------------------------

  function PlusBucket(refs: map<nat, WriteLock>, b: nat): map<nat, WriteLock> {
    if b in refs then refs[b := refs[b].(total := refs[b].total + 1)] else refs[b := NewLock(b)]
  }

  function MinusBucket(refs: map<nat, WriteLock>, b: nat): map<nat, WriteLock>
    requires b in refs && refs[b].total >= 1
  {
    if refs[b].total == 1 then refs - {b} else refs[b := refs[b].(total := refs[b].total - 1)]
  }

  function IncEntry(l: WriteLock, i: nat): WriteLock
    requires i < |l.entryRefs|
  {
    l.(entryRefs := l.entryRefs[i := l.entryRefs[i] + 1])
  }

  function DecEntry(l: WriteLock, i: nat): WriteLock
    requires i < |l.entryRefs| && l.entryRefs[i] >= 1
  {
    l.(entryRefs := l.entryRefs[i := l.entryRefs[i] - 1])
  }

  // A reference to an entry also counts in the total; taking the first reference to a
  // bucket turns that reference into one to the entry.
  function PlusEntry(refs: map<nat, WriteLock>, b: nat, i: nat): map<nat, WriteLock>
    requires i < CUCKOO_BUCKET_SIZE && (b in refs ==> |refs[b].entryRefs| == CUCKOO_BUCKET_SIZE)
  {
    if b in refs then refs[b := IncEntry(refs[b], i).(total := refs[b].total + 1)]
    else refs[b := IncEntry(NewLock(b), i)]
  }

  function MinusEntry(refs: map<nat, WriteLock>, b: nat, i: nat): map<nat, WriteLock>
    requires b in refs && i < |refs[b].entryRefs| && refs[b].entryRefs[i] >= 1 && refs[b].total >= 1
  {
    if refs[b].total == 1 then refs - {b} else refs[b := DecEntry(refs[b], i).(total := refs[b].total - 1)]
  }

  // Giving back what was taken restores the references.
  lemma {:induction false} BucketUndo(refs: map<nat, WriteLock>, b: nat)
    requires b in refs ==> refs[b].total >= 1
    ensures MinusBucket(PlusBucket(refs, b), b) == refs
  {
  }

  lemma {:induction false} EntryUndo(refs: map<nat, WriteLock>, b: nat, i: nat)
    requires i < CUCKOO_BUCKET_SIZE && (b in refs ==> |refs[b].entryRefs| == CUCKOO_BUCKET_SIZE && refs[b].total >= 1)
    ensures MinusEntry(PlusEntry(refs, b, i), b, i) == refs
  {
    if b in refs {
      var e := refs[b].entryRefs;
      assert e[i := e[i] + 1][i := e[i]] == e;
    }
  }

  lemma {:induction false} NewLockOk(b: nat)
    ensures LockOk(NewLock(b)) && SumOf(NewLock(b).entryRefs) == 0 && BucketRefs(NewLock(b)) == 1
  {
    SumOfZeros(NewLock(b).entryRefs);
  }

  lemma {:induction false} SumOfZeros(refs: seq<nat>)
    requires forall i :: 0 <= i < |refs| ==> refs[i] == 0
    ensures SumOf(refs) == 0
  {
    if |refs| > 0 {
      SumOfZeros(refs[..|refs| - 1]);
    }
  }

  lemma {:induction false} RefsAt(held: seq<WriteLock>, i: nat)
    requires Distinct(held) && i < |held|
    ensures held[i].bucket in Refs(held) && Refs(held)[held[i].bucket] == held[i]
  {
  }

  lemma {:induction false} RefsReplace(held: seq<WriteLock>, i: nat, l: WriteLock)
    requires Distinct(held) && i < |held| && l.bucket == held[i].bucket
    ensures Distinct(held[i := l]) && Refs(held[i := l]) == Refs(held)[l.bucket := l]
  {
    var held' := held[i := l];
    assert forall j :: 0 <= j < |held| ==> held'[j].bucket == held[j].bucket;
    assert l.bucket in Refs(held) && Distinct(held');
    hide Refs, Distinct;
    forall b
      ensures b in Refs(held') <==> b in Refs(held)[l.bucket := l]
      ensures b in Refs(held') ==> Refs(held')[b] == Refs(held)[l.bucket := l][b]
    {
      RefsReplaceAt(held, i, l, b);
    }
  }

  lemma {:induction false} RefsReplaceAt(held: seq<WriteLock>, i: nat, l: WriteLock, b: nat)
    requires Distinct(held) && i < |held| && l.bucket == held[i].bucket && Distinct(held[i := l])
    ensures b in Refs(held[i := l]) <==> b in Refs(held)
    ensures b in Refs(held) && b in Refs(held[i := l]) ==> Refs(held[i := l])[b] == if b == l.bucket then l
            else Refs(held)[b]
  {
    var held' := held[i := l];
    RefsAt(held', i);
    if b in Refs(held') {
      var j :| 0 <= j < |held'| && held'[j].bucket == b;
      RefsAt(held', j);
      RefsAt(held, j);
    }
    if b in Refs(held) {
      var j :| 0 <= j < |held| && held[j].bucket == b;
      RefsAt(held', j);
      RefsAt(held, j);
    }
  }

  lemma {:induction false} RefsAppend(held: seq<WriteLock>, l: WriteLock)
    requires Distinct(held) && l.bucket !in Refs(held)
    ensures Distinct(held + [l]) && Refs(held + [l]) == Refs(held)[l.bucket := l]
  {
    var held' := held + [l];
    forall i, j | 0 <= i < j < |held'|
      ensures held'[i].bucket != held'[j].bucket
    {
      RefsAt(held, i);
    }
    forall b
      ensures b in Refs(held') <==> b in Refs(held)[l.bucket := l]
      ensures b in Refs(held') ==> Refs(held')[b] == Refs(held)[l.bucket := l][b]
    {
      RefsAt(held', |held|);
      if b in Refs(held) {
        var j :| 0 <= j < |held| && held[j].bucket == b;
        RefsAt(held', j);
      }
    }
  }

  // Removing by moving the last lock into the gap.
  function Removed(held: seq<WriteLock>, i: nat): seq<WriteLock>
    requires i < |held|
  {
    held[i := held[|held| - 1]][..|held| - 1]
  }

  lemma {:induction false} RefsRemove(held: seq<WriteLock>, i: nat)
    requires Distinct(held) && i < |held|
    ensures Distinct(Removed(held, i)) && Refs(Removed(held, i)) == Refs(held) - {held[i].bucket}
  {
    var held' := Removed(held, i);
    RemovedAt(held, i);
    forall b
      ensures b in Refs(held') <==> b in Refs(held) - {held[i].bucket}
      ensures b in Refs(held') ==> Refs(held')[b] == Refs(held)[b]
    {
      RefsRemoveAt(held, i, b);
    }
  }

  lemma {:induction false} RemovedAt(held: seq<WriteLock>, i: nat)
    requires Distinct(held) && i < |held|
    ensures forall j :: 0 <= j < |held| - 1 ==> Removed(held, i)[j] == held[if j == i then |held| - 1 else j]
    ensures Distinct(Removed(held, i))
  {
  }

  lemma {:induction false} RefsRemoveAt(held: seq<WriteLock>, i: nat, b: nat)
    requires Distinct(held) && i < |held| && Distinct(Removed(held, i))
    requires forall j :: 0 <= j < |held| - 1 ==> Removed(held, i)[j] == held[if j == i then |held| - 1 else j]
    ensures b in Refs(Removed(held, i)) <==> b in Refs(held) - {held[i].bucket}
    ensures b in Refs(Removed(held, i)) ==> Refs(Removed(held, i))[b] == Refs(held)[b]
  {
    hide Distinct;
    var held' := Removed(held, i);
    assert |held'| == |held| - 1;
    hide Removed;
    if b in Refs(held') {
      var j :| 0 <= j < |held'| && held'[j].bucket == b;
      RemovedRef(held, i, j);
    }
    if b in Refs(held) && b != held[i].bucket {
      var j :| 0 <= j < |held| && held[j].bucket == b;
      KeptRef(held, i, j);
    }
  }

  lemma {:induction false} KeptRef(held: seq<WriteLock>, i: nat, j: nat)
    requires Distinct(held) && i < |held| && j < |held| && i != j && Distinct(Removed(held, i))
    requires forall k :: 0 <= k < |held| - 1 ==> Removed(held, i)[k] == held[if k == i then |held| - 1 else k]
    ensures held[j].bucket in Refs(Removed(held, i))
  {
    RefsAt(Removed(held, i), if j == |held| - 1 then i else j);
  }

  lemma {:induction false} RemovedRef(held: seq<WriteLock>, i: nat, j: nat)
    requires Distinct(held) && i < |held| && j < |held| - 1 && Distinct(Removed(held, i))
    requires Removed(held, i)[j] == held[if j == i then |held| - 1 else j]
    ensures var l := Removed(held, i)[j];
            && l.bucket in Refs(held) && l.bucket != held[i].bucket && Refs(held)[l.bucket] == l
            && l.bucket in Refs(Removed(held, i)) && Refs(Removed(held, i))[l.bucket] == l
  {
    RefsAt(held, if j == i then |held| - 1 else j);
    RefsAt(Removed(held, i), j);
  }

  // ------------------------------------------------------------------
  // Sequences of locks
  // ------------------------------------------------------------------

  ghost predicate RefsOk(refs: map<nat, WriteLock>) {
    forall b :: b in refs ==> refs[b].bucket == b && LockOk(refs[b])
  }

  lemma {:induction false} PlusEntryOk(refs: map<nat, WriteLock>, b: nat, i: nat)
    requires RefsOk(refs) && i < CUCKOO_BUCKET_SIZE
    ensures b in refs ==> |refs[b].entryRefs| == CUCKOO_BUCKET_SIZE
    ensures RefsOk(PlusEntry(refs, b, i))
    ensures b in PlusEntry(refs, b, i) && PlusEntry(refs, b, i)[b].entryRefs[i] >= 1
  {
    NewLockOk(b);
    var l := if b in refs then refs[b] else NewLock(b);
    SumAt(l.entryRefs, i, l.entryRefs[i] + 1);
  }

  // Where an entry on a path was read from, and what decides whether a change of the
  // maximal leaf below it reaches its parent.
  datatype PathLock = PathLock(bucket: nat, entry: nat, seqNum: nat, isJump: bool, maxChild: nat, lastSymbol: nat)

  ghost predicate PathLocksOk(path: seq<PathLock>, buckets: nat) {
    forall i :: 0 <= i < |path| ==> path[i].bucket < buckets && path[i].entry < CUCKOO_BUCKET_SIZE
  }

  // The references once the entries path[lo..hi] are locked, from the bottom up.
  ghost function Taken(refs: map<nat, WriteLock>, path: seq<PathLock>, lo: nat, hi: nat): (r: map<nat, WriteLock>)
    requires RefsOk(refs) && lo <= hi <= |path| && PathLocksOk(path, 0x1_0000_0000)
    ensures RefsOk(r)
    decreases hi - lo
  {
    if lo == hi then refs
    else
      PlusEntryOk(Taken(refs, path, lo + 1, hi), path[lo].bucket, path[lo].entry);
      PlusEntry(Taken(refs, path, lo + 1, hi), path[lo].bucket, path[lo].entry)
  }

  lemma {:induction false} TakenNothing(refs: map<nat, WriteLock>, path: seq<PathLock>, pos: nat)
    requires RefsOk(refs) && pos <= |path| && PathLocksOk(path, 0x1_0000_0000)
    ensures Taken(refs, path, pos, pos) == refs
  {
  }

  // Unlocking the entry that was locked last leads back to the references before it.
  lemma {:induction false} TakenUndo(refs: map<nat, WriteLock>, path: seq<PathLock>, lo: nat, hi: nat)
    requires RefsOk(refs) && lo < hi <= |path| && PathLocksOk(path, 0x1_0000_0000)
    ensures var all := Taken(refs, path, lo, hi); var b, i := path[lo].bucket, path[lo].entry;
            && b in all && |all[b].entryRefs| == CUCKOO_BUCKET_SIZE && i < CUCKOO_BUCKET_SIZE
            && all[b].entryRefs[i] >= 1 && all[b].total >= 1
            && MinusEntry(all, b, i) == Taken(refs, path, lo + 1, hi)
  {
    var below := Taken(refs, path, lo + 1, hi);
    PlusEntryOk(below, path[lo].bucket, path[lo].entry);
    EntryUndo(below, path[lo].bucket, path[lo].entry);
  }

  // How far up the locks must reach: as long as the path comes from last children.
  ghost function LeftParents(path: seq<PathLock>, pos: nat): nat
    requires pos < |path|
  {
    if pos == 0 || (!path[pos - 1].isJump && path[pos].lastSymbol != path[pos - 1].maxChild) then pos
    else LeftParents(path, pos - 1)
  }

  ghost function PlusAll(refs: map<nat, WriteLock>, rs: seq<ReadLock>): map<nat, WriteLock> {
    if |rs| == 0 then refs else PlusBucket(PlusAll(refs, rs[..|rs| - 1]), rs[|rs| - 1].bucket)
  }

  ghost predicate DistinctReads(rs: seq<ReadLock>) {
    forall i, j :: 0 <= i < j < |rs| ==> rs[i].bucket != rs[j].bucket
  }

  ghost predicate Reads(rs: seq<ReadLock>, b: nat) {
    exists i :: 0 <= i < |rs| && rs[i].bucket == b
  }

  // Locking several buckets changes each on its own.
  lemma {:induction false} PlusAllAt(refs: map<nat, WriteLock>, rs: seq<ReadLock>, b: nat)
    requires DistinctReads(rs)
    ensures if Reads(rs, b) then b in PlusAll(refs, rs) && PlusAll(refs, rs)[b] == PlusBucket(refs, b)[b]
            else (b in PlusAll(refs, rs) <==> b in refs) && (b in refs ==> PlusAll(refs, rs)[b] == refs[b])
  {
    if |rs| > 0 {
      var e := |rs| - 1;
      PlusAllAt(refs, rs[..e], b);
      if Reads(rs, b) {
        var i :| 0 <= i < |rs| && rs[i].bucket == b;
        assert i < e ==> rs[..e][i].bucket == b;
        assert i < e ==> rs[e].bucket != b;
        assert i == e ==> forall j :: 0 <= j < e ==> rs[..e][j].bucket != b;
      }
    }
  }

  lemma {:induction false} ReleaseOne(refs: map<nat, WriteLock>, rs: seq<ReadLock>, k: nat)
    requires DistinctReads(rs) && k < |rs| && RefsOk(refs)
    ensures var all := PlusAll(refs, rs[k..]); var b := rs[k].bucket;
            b in all && LockOk(all[b]) && BucketRefs(all[b]) >= 1 && MinusBucket(all, b) == PlusAll(refs, rs[k + 1..])
  {
    var all, rest, b := PlusAll(refs, rs[k..]), PlusAll(refs, rs[k + 1..]), rs[k].bucket;
    NewLockOk(b);
    PlusAllAt(refs, rs[k..], b);
    PlusAllAt(refs, rs[k + 1..], b);
    assert rs[k..][0] == rs[k];
    BucketUndo(refs, b);
    forall c | c != b
      ensures c in all <==> c in rest
      ensures c in all ==> all[c] == rest[c]
    {
      SameElsewhere(refs, rs, k, c);
    }
    assert all[b] == PlusBucket(refs, b)[b];
    assert MinusBucket(all, b) == rest;
  }

  lemma {:induction false} SameElsewhere(refs: map<nat, WriteLock>, rs: seq<ReadLock>, k: nat, c: nat)
    requires DistinctReads(rs) && k < |rs| && c != rs[k].bucket
    ensures var all, rest := PlusAll(refs, rs[k..]), PlusAll(refs, rs[k + 1..]);
            (c in all <==> c in rest) && (c in all ==> all[c] == rest[c])
  {
    PlusAllAt(refs, rs[k..], c);
    PlusAllAt(refs, rs[k + 1..], c);
    assert rs[k..] == [rs[k]] + rs[k + 1..];
    var all, rest := rs[k..], rs[k + 1..];
    if Reads(all, c) {
      var i :| 0 <= i < |all| && all[i].bucket == c;
      assert rest[i - 1].bucket == c;
    }
    if Reads(rest, c) {
      var i :| 0 <= i < |rest| && rest[i].bucket == c;
      assert all[i + 1].bucket == c;
    }
  }

  // ------------------------------------------------------------------
  // What is held, entry by entry and bucket by bucket
  // ------------------------------------------------------------------

  datatype Slot = Slot(bucket: nat, entry: nat)

  // The references to an entry, and those to the bucket as a whole; none without a lock.
  ghost function EntryCount(refs: map<nat, WriteLock>, s: Slot): nat {
    if s.bucket in refs && s.entry < |refs[s.bucket].entryRefs| then refs[s.bucket].entryRefs[s.entry] else 0
  }

  ghost function BucketCount(refs: map<nat, WriteLock>, b: nat): nat {
    if b in refs && LockOk(refs[b]) then BucketRefs(refs[b]) else 0
  }

  // After refs, `refs'` has the same entry counts, and `more` more references to bucket b.
  ghost predicate BucketCounted(refs: map<nat, WriteLock>, refs': map<nat, WriteLock>, b: nat, more: int) {
    && (forall s :: EntryCount(refs', s) == EntryCount(refs, s))
    && forall c :: BucketCount(refs', c) == BucketCount(refs, c) + (if c == b then more else 0)
  }

  lemma {:induction false} CountPlus(refs: map<nat, WriteLock>, b: nat)
    requires RefsOk(refs)
    ensures RefsOk(PlusBucket(refs, b)) && BucketCounted(refs, PlusBucket(refs, b), b, 1)
  {
    NewLockOk(b);
    hide SumOf;
  }

  lemma {:induction false} CountMinus(refs: map<nat, WriteLock>, b: nat)
    requires RefsOk(refs) && BucketCount(refs, b) >= 1
    ensures b in refs && LockOk(refs[b]) && BucketRefs(refs[b]) >= 1
    ensures RefsOk(MinusBucket(refs, b)) && BucketCounted(refs, MinusBucket(refs, b), b, -1)
  {
    if refs[b].total == 1 {
      NoEntryRefs(refs[b].entryRefs);
    }
    hide SumOf;
  }

  lemma {:induction false} NoEntryRefs(refs: seq<nat>)
    requires SumOf(refs) == 0
    ensures forall i :: 0 <= i < |refs| ==> refs[i] == 0
  {
    if |refs| > 0 {
      NoEntryRefs(refs[..|refs| - 1]);
    }
  }

  // One reference moves from entry s to entry d, if there is one; nothing else changes.
  ghost predicate RefCarried(refs: map<nat, WriteLock>, refs': map<nat, WriteLock>, d: Slot, s: Slot) {
    var n := if EntryCount(refs, s) == 0 then 0 else 1;
    && (forall x :: EntryCount(refs', x) == EntryCount(refs, x) + (if x == d then n else 0) - (if x == s then n else 0))
    && forall c :: BucketCount(refs', c) == BucketCount(refs, c)
  }

  ghost predicate EntryCounted(refs: map<nat, WriteLock>, refs': map<nat, WriteLock>, s: Slot, more: int) {
    && (forall x :: EntryCount(refs', x) == EntryCount(refs, x) + (if x == s then more else 0))
    && forall c :: BucketCount(refs', c) == BucketCount(refs, c)
  }

  lemma {:induction false} CountMinusEntry(refs: map<nat, WriteLock>, s: Slot)
    requires RefsOk(refs) && s.entry < CUCKOO_BUCKET_SIZE && EntryCount(refs, s) >= 1
             && BucketCount(refs, s.bucket) >= 1
    ensures s.bucket in refs && |refs[s.bucket].entryRefs| == CUCKOO_BUCKET_SIZE && refs[s.bucket].total >= 1
    ensures var refs' := MinusEntry(refs, s.bucket, s.entry);
            RefsOk(refs') && refs'.Keys == refs.Keys && EntryCounted(refs, refs', s, -1)
  {
    var e := refs[s.bucket].entryRefs;
    SumAt(e, s.entry, e[s.entry] - 1);
    hide SumOf;
  }

  lemma {:induction false} CountPlusEntry(refs: map<nat, WriteLock>, s: Slot)
    requires RefsOk(refs) && s.entry < CUCKOO_BUCKET_SIZE && s.bucket in refs
    ensures |refs[s.bucket].entryRefs| == CUCKOO_BUCKET_SIZE
    ensures var refs' := PlusEntry(refs, s.bucket, s.entry);
            RefsOk(refs') && EntryCounted(refs, refs', s, 1)
  {
    var e := refs[s.bucket].entryRefs;
    SumAt(e, s.entry, e[s.entry] + 1);
    hide SumOf;
  }

  lemma {:induction false} CountMove(refs: map<nat, WriteLock>, d: Slot, s: Slot)
    requires RefsOk(refs) && d.bucket in refs && s.bucket in refs && d.bucket != s.bucket
    requires d.entry < CUCKOO_BUCKET_SIZE && s.entry < CUCKOO_BUCKET_SIZE && BucketCount(refs, s.bucket) >= 1
    ensures EntryCount(refs, s) == 0 ==> RefCarried(refs, refs, d, s)
    ensures EntryCount(refs, s) != 0 ==>
              var refs1 := MinusEntry(refs, s.bucket, s.entry);
              d.bucket in refs1 && |refs1[d.bucket].entryRefs| == CUCKOO_BUCKET_SIZE
              && RefCarried(refs, PlusEntry(refs1, d.bucket, d.entry), d, s)
                 && RefsOk(PlusEntry(refs1, d.bucket, d.entry))
  {
    if EntryCount(refs, s) != 0 {
      CountMinusEntry(refs, s);
      CountPlusEntry(MinusEntry(refs, s.bucket, s.entry), d);
      hide BucketCount, RefsOk, MinusEntry, PlusEntry;
    }
  }

  lemma {:induction false} ReadsOneMore(rs: seq<ReadLock>, i: nat)
    requires i < |rs| && DistinctReads(rs)
    ensures !Reads(rs[..i], rs[i].bucket)
    ensures forall b :: Reads(rs[..i + 1], b) <==> Reads(rs[..i], b) || b == rs[i].bucket
  {
    forall b
      ensures Reads(rs[..i + 1], b) <==> Reads(rs[..i], b) || b == rs[i].bucket
    {
      assert rs[..i + 1][i] == rs[i];
      if Reads(rs[..i], b) {
        var j :| 0 <= j < i && rs[..i][j].bucket == b;
        assert rs[..i + 1][j].bucket == b;
      }
    }
  }

  lemma {:induction false} CountAll(refs: map<nat, WriteLock>, rs: seq<ReadLock>)
    requires RefsOk(refs) && DistinctReads(rs)
    ensures RefsOk(PlusAll(refs, rs)) && forall x :: EntryCount(PlusAll(refs, rs), x) == EntryCount(refs, x)
    ensures forall b :: BucketCount(PlusAll(refs, rs), b) == BucketCount(refs, b) + (if Reads(rs, b) then 1 else 0)
  {
    if |rs| > 0 {
      var e := |rs| - 1;
      CountAll(refs, rs[..e]);
      CountPlus(PlusAll(refs, rs[..e]), rs[e].bucket);
      hide EntryCount, BucketCount, PlusBucket, RefsOk;
      ReadsOneMore(rs, e);
      assert rs[..e + 1] == rs;
    }
  }

  // The cells of the path but the last are in the buckets to lock.
  ghost predicate PathOnBuckets(rs: seq<ReadLock>, path: seq<Slot>, buckets: nat) {
    && |path| == |rs| + 1 && DistinctSlots(path)
    && (forall i :: 0 <= i < |path| ==> path[i].entry < CUCKOO_BUCKET_SIZE)
    && (forall i :: 0 <= i < |rs| ==> path[i].bucket == rs[i].bucket < buckets)
    && forall i :: 0 <= i < |rs| ==> path[i].bucket != path[|rs|].bucket
  }

  // Where the references to entries are after the entry of each cell of the path but the
  // first has moved to the cell before it: all but the references beyond the first to an
  // entry have moved along.
  ghost function CarriedCount(refs: map<nat, WriteLock>, path: seq<Slot>, k: nat, x: Slot): int
    requires k < |path|
  {
    if k == 0 then EntryCount(refs, x)
    else
      var n := if CarriedCount(refs, path, k - 1, path[k]) == 0 then 0 else 1;
      CarriedCount(refs, path, k - 1, x) + (if x == path[k - 1] then n else 0) - (if x == path[k] then n else 0)
  }

  ghost predicate DistinctSlots(path: seq<Slot>) {
    forall i, j :: 0 <= i < j < |path| ==> path[i] != path[j]
  }

  // What moves out of cell i of the path.
  ghost function Moved(refs: map<nat, WriteLock>, path: seq<Slot>, i: nat): nat
    requires i < |path|
  {
    if i == 0 || EntryCount(refs, path[i]) == 0 then 0 else 1
  }

  // Each cell of the path gives away at most one reference and gets what the next gives.
  lemma {:induction false} CarriedIs(refs: map<nat, WriteLock>, path: seq<Slot>, k: nat, x: Slot)
    requires k < |path| && DistinctSlots(path)
    ensures x !in path[..k + 1] ==> CarriedCount(refs, path, k, x) == EntryCount(refs, x)
    ensures x == path[k] ==> CarriedCount(refs, path, k, x) == EntryCount(refs, x) - Moved(refs, path, k)
    ensures forall i :: 0 <= i < k && x == path[i] ==>
              CarriedCount(refs, path, k, x) == EntryCount(refs, x) - Moved(refs, path, i) + Moved(refs, path, i + 1)
  {
    if k > 0 {
      assert path[k] !in path[..k];
      CarriedIs(refs, path, k - 1, x);
      CarriedIs(refs, path, k - 1, path[k]);
    }
  }

  // Each entry has at its new cell the references that it had at its old one.
  ghost predicate Follows(refs: map<nat, WriteLock>, path: seq<Slot>, k: nat)
    requires k < |path|
  {
    (forall i :: 0 <= i < k ==> CarriedCount(refs, path, k, path[i]) == EntryCount(refs, path[i + 1]))
    && CarriedCount(refs, path, k, path[k]) == 0
  }

  // The references follow the entries exactly if no moved entry had more than one.
  lemma {:induction false} RefsFollowEntries(refs: map<nat, WriteLock>, path: seq<Slot>, k: nat)
    requires k < |path| && DistinctSlots(path) && EntryCount(refs, path[0]) == 0
    ensures Follows(refs, path, k) <==> forall i :: 0 < i <= k ==> EntryCount(refs, path[i]) <= 1
    ensures forall x :: x !in path[..k + 1] ==> CarriedCount(refs, path, k, x) == EntryCount(refs, x)
  {
    forall x
      ensures x !in path[..k + 1] ==> CarriedCount(refs, path, k, x) == EntryCount(refs, x)
    {
      CarriedIs(refs, path, k, x);
    }
    if forall i :: 0 < i <= k ==> EntryCount(refs, path[i]) <= 1 {
      FollowOneEach(refs, path, k);
    }
    if Follows(refs, path, k) {
      forall i | 0 < i <= k
        ensures EntryCount(refs, path[i]) <= 1
      {
        NoExcess(refs, path, k, i);
      }
    }
  }

  lemma {:induction false} FollowOneEach(refs: map<nat, WriteLock>, path: seq<Slot>, k: nat)
    requires k < |path| && DistinctSlots(path) && EntryCount(refs, path[0]) == 0
    requires forall i :: 0 < i <= k ==> EntryCount(refs, path[i]) <= 1
    ensures Follows(refs, path, k)
  {
    forall i | 0 <= i < k
      ensures CarriedCount(refs, path, k, path[i]) == EntryCount(refs, path[i + 1])
    {
      CarriedIs(refs, path, k, path[i]);
      assert EntryCount(refs, path[i]) == Moved(refs, path, i);
      assert EntryCount(refs, path[i + 1]) == Moved(refs, path, i + 1);
    }
    CarriedIs(refs, path, k, path[k]);
  }

  // An excess at one cell of the path would be one at the cell before it.
  lemma {:induction false} NoExcess(refs: map<nat, WriteLock>, path: seq<Slot>, k: nat, i: nat)
    requires k < |path| && DistinctSlots(path) && EntryCount(refs, path[0]) == 0 && Follows(refs, path, k)
    requires i <= k
    ensures EntryCount(refs, path[i]) == Moved(refs, path, i)
  {
    if i > 0 {
      NoExcess(refs, path, k, i - 1);
      CarriedIs(refs, path, k, path[i - 1]);
      assert CarriedCount(refs, path, k, path[i - 1]) == EntryCount(refs, path[i - 1 + 1]);
    }
  }

  lemma {:induction false} MoreThanOneStays(refs: map<nat, WriteLock>, path: seq<Slot>, k: nat)
    requires 0 < k < |path| && DistinctSlots(path)
    ensures CarriedCount(refs, path, k, path[k]) == 0 <==> EntryCount(refs, path[k]) <= 1
  {
    CarriedIs(refs, path, k, path[k]);
  }

  // ------------------------------------------------------------------
  // The parents that a new maximal leaf may concern
  // ------------------------------------------------------------------

  // All steps from the entry at j down to that at pos go through jumps and last children.
  ghost predicate Climbs(path: seq<PathLock>, j: nat, pos: nat) {
    j < pos < |path|
    && forall i {:trigger path[i]} :: j <= i < pos ==> path[i].isJump || path[i + 1].lastSymbol == path[i].maxChild
  }

  // The positions above pos from which this is so and whose entry is in the given cell.
  ghost function ClimbersIn(path: seq<PathLock>, pos: nat, s: Slot): set<nat> {
    set j | 0 <= j < pos && Climbs(path, j, pos) && Slot(path[j].bucket, path[j].entry) == s
  }

  lemma {:induction false} LeftParentsClimb(path: seq<PathLock>, pos: nat)
    requires pos < |path|
    ensures LeftParents(path, pos) <= pos
    ensures forall j :: 0 <= j < pos ==> (Climbs(path, j, pos) <==> LeftParents(path, pos) <= j)
  {
    if pos > 0 {
      LeftParentsClimb(path, pos - 1);
      assert path[pos - 1 + 1] == path[pos];
      forall j | 0 <= j < pos
        ensures Climbs(path, j, pos) <==> LeftParents(path, pos) <= j
      {
        assert j < pos - 1 ==> (Climbs(path, j, pos) <==>
                                  Climbs(path, j, pos - 1) && Climbs(path, pos - 1, pos));
      }
    }
  }

  // The first reference to a bucket becomes one to the entry, and later ones are added.
  lemma {:induction false} CountEntry(refs: map<nat, WriteLock>, s: Slot)
    requires RefsOk(refs) && s.entry < CUCKOO_BUCKET_SIZE
    ensures s.bucket in refs ==> |refs[s.bucket].entryRefs| == CUCKOO_BUCKET_SIZE
    ensures EntryCounted(refs, PlusEntry(refs, s.bucket, s.entry), s, 1)
  {
    if s.bucket in refs {
      CountPlusEntry(refs, s);
    } else {
      NewLockOk(s.bucket);
      var l := NewLock(s.bucket);
      SumAt(l.entryRefs, s.entry, l.entryRefs[s.entry] + 1);
      hide SumOf;
    }
  }

  ghost function PositionsIn(path: seq<PathLock>, lo: nat, hi: nat, s: Slot): set<nat>
    requires hi <= |path|
  {
    set j | lo <= j < hi && Slot(path[j].bucket, path[j].entry) == s
  }

  lemma {:induction false} TakenCounts(refs: map<nat, WriteLock>, path: seq<PathLock>, lo: nat, hi: nat)
    requires RefsOk(refs) && lo <= hi <= |path| && PathLocksOk(path, 0x1_0000_0000)
    ensures forall s :: EntryCount(Taken(refs, path, lo, hi), s) == EntryCount(refs, s) + |PositionsIn(path, lo, hi, s)|
    ensures forall b :: BucketCount(Taken(refs, path, lo, hi), b) == BucketCount(refs, b)
    decreases hi - lo
  {
    hide EntryCount, BucketCount, PlusEntry, RefsOk;
    if lo < hi {
      TakenCounts(refs, path, lo + 1, hi);
      var own := Slot(path[lo].bucket, path[lo].entry);
      CountEntry(Taken(refs, path, lo + 1, hi), own);
      forall s
        ensures |PositionsIn(path, lo, hi, s)| == |PositionsIn(path, lo + 1, hi, s)| + (if s == own then 1 else 0)
      {
        assert PositionsIn(path, lo, hi, s) == PositionsIn(path, lo + 1, hi, s) + (if s == own then {lo} else {});
      }
    } else {
      TakenNothing(refs, path, hi);
      assert forall s :: PositionsIn(path, lo, hi, s) == {};
    }
  }

  lemma {:induction false} ClimbersCount(refs: map<nat, WriteLock>, path: seq<PathLock>, pos: nat)
    requires RefsOk(refs) && pos < |path| && PathLocksOk(path, 0x1_0000_0000)
    ensures LeftParents(path, pos) <= pos
    ensures forall s :: EntryCount(Taken(refs, path, LeftParents(path, pos), pos), s) ==
                        EntryCount(refs, s) + |ClimbersIn(path, pos, s)|
    ensures forall b :: BucketCount(Taken(refs, path, LeftParents(path, pos), pos), b) == BucketCount(refs, b)
  {
    hide EntryCount, BucketCount, Climbs;
    LeftParentsClimb(path, pos);
    TakenCounts(refs, path, LeftParents(path, pos), pos);
    forall s
      ensures ClimbersIn(path, pos, s) == PositionsIn(path, LeftParents(path, pos), pos, s)
    {
    }
  }

  // ------------------------------------------------------------------
  // Lock bytes
  // ------------------------------------------------------------------

  // A byte is set exactly if this thread holds the bucket or another one did at the start,
  // when this thread held `held0`.
  ghost predicate BytesOf(bytes0: seq<bool>, held0: set<nat>, bytes: seq<bool>, held: set<nat>) {
    && |bytes| == |bytes0|
    && (forall b :: 0 <= b < |bytes| ==> (bytes[b] <==> b in held || (bytes0[b] && b !in held0)))
    && forall b :: b in held ==> b < |bytes| && (b in held0 || !bytes0[b])
  }

  lemma {:induction false} BytesTaken(bytes0: seq<bool>, held0: set<nat>, bytes: seq<bool>, held: set<nat>, b: nat)
    requires BytesOf(bytes0, held0, bytes, held) && b < |bytes| && (b in held || !bytes[b])
    ensures BytesOf(bytes0, held0, bytes[b := true], held + {b})
  {
  }

  lemma {:induction false} BytesGiven(bytes0: seq<bool>, held0: set<nat>, bytes: seq<bool>, held: set<nat>, b: nat,
                                      held': set<nat>)
    requires BytesOf(bytes0, held0, bytes, held) && b in held && (held' == held || held' == held - {b})
    ensures b < |bytes| && BytesOf(bytes0, held0, bytes[b := b in held'], held')
  {
  }

  lemma {:induction false} BytesRestored(bytes0: seq<bool>, held: set<nat>, bytes: seq<bool>)
    requires BytesOf(bytes0, held, bytes, held) && forall b :: b in held ==> b < |bytes0| && bytes0[b]
    ensures bytes == bytes0
  {
  }

  // ------------------------------------------------------------------
  // The manager
  // ------------------------------------------------------------------

  class LockManager {
    // The lock bytes and sequence numbers of the buckets, shared by all threads.
    const lockBytes: array<bool>
    const seqs: array<nat>
    var held: seq<WriteLock>

    ghost predicate Valid()
      reads this, lockBytes
    {
      && lockBytes.Length == seqs.Length && Distinct(held)
      && (forall i :: 0 <= i < |held| ==>
            LockOk(held[i]) && held[i].bucket < lockBytes.Length && lockBytes[held[i].bucket])
    }

    ghost function R(): map<nat, WriteLock>
      reads this
      requires Distinct(held)
    {
      Refs(held)
    }

    constructor (lockBytes: array<bool>, seqs: array<nat>)
      requires lockBytes.Length == seqs.Length
      ensures Valid() && held == [] && this.lockBytes == lockBytes && this.seqs == seqs
    {
      this.lockBytes, this.seqs := lockBytes, seqs;
      held := [];
    }

    method TryTakeLock(bucket: nat) returns (ok: bool)
      requires bucket < lockBytes.Length
      modifies lockBytes
      ensures ok == !old(lockBytes[bucket])
      ensures lockBytes[..] == old(lockBytes[..])[bucket := true]
    {
      ok := !lockBytes[bucket];
      lockBytes[bucket] := true;
    }

    // The position of the lock on the bucket, or -1. The search starts with the newest lock.
    method FindWriteLock(bucket: nat) returns (i: int)
      requires Distinct(held)
      ensures -1 <= i < |held|
      ensures if i == -1 then bucket !in Refs(held)
              else held[i].bucket == bucket && bucket in Refs(held) && Refs(held)[bucket] == held[i]
    {
      i := |held| - 1;
      while 0 <= i && held[i].bucket != bucket
        invariant -1 <= i < |held|
        invariant forall j :: i < j < |held| ==> held[j].bucket != bucket
      {
        i := i - 1;
      }
      if 0 <= i {
        RefsAt(held, i);
      }
    }

    method AddLock(bucket: nat)
      requires Valid() && bucket < lockBytes.Length && lockBytes[bucket] && bucket !in Refs(held)
      modifies this`held
      ensures Valid() && R() == old(R())[bucket := NewLock(bucket)]
      ensures |held| == old(|held|) + 1 && held[|held| - 1] == NewLock(bucket)
    {
      NewLockOk(bucket);
      RefsAppend(held, NewLock(bucket));
      held := held + [NewLock(bucket)];
    }

    // Takes a lock off the list, and then clears the lock byte.
    method RemoveLock(i: nat)
      requires Valid() && i < |held|
      modifies this`held, lockBytes
      ensures Valid() && R() == old(R()) - {old(held[i].bucket)}
      ensures lockBytes[..] == old(lockBytes[..])[old(held[i].bucket) := false]
    {
      var bucket := held[i].bucket;
      RefsRemove(held, i);
      assert forall j :: 0 <= j < |Removed(held, i)| ==> Removed(held, i)[j] == held[if j == i then |held| - 1 else j];
      held := Removed(held, i);
      lockBytes[bucket] := false;
    }

    // Changes the counts of a lock that is held.
    method SetLock(i: nat, l: WriteLock)
      requires Valid() && i < |held| && l.bucket == held[i].bucket && LockOk(l)
      modifies this`held
      ensures Valid() && R() == old(R())[l.bucket := l] && held == old(held)[i := l]
    {
      RefsReplace(held, i, l);
      held := held[i := l];
    }

    method WriteLockBucket(bucket: nat) returns (ok: bool)
      requires Valid() && bucket < lockBytes.Length
      modifies this`held, lockBytes
      ensures Valid()
      ensures ok <==> !old(lockBytes[bucket]) || bucket in old(R())
      ensures R() == if ok then PlusBucket(old(R()), bucket) else old(R())
      ensures lockBytes[..] == old(lockBytes[..])[bucket := true]
    {
      ok := TryTakeLock(bucket);
      var i := FindWriteLock(bucket);
      if ok {
        AddLock(bucket);
      } else if i != -1 {
        // One more reference to the lock that is there
        SetLock(i, held[i].(total := held[i].total + 1));
        ok := true;
      }
    }

    method ReleaseBucketLock(bucket: nat)
      requires Valid() && bucket in R() && BucketRefs(R()[bucket]) >= 1
      modifies this`held, lockBytes
      ensures Valid() && R() == MinusBucket(old(R()), bucket)
      ensures lockBytes[..] == old(lockBytes[..])[bucket := bucket in R()]
    {
      hide Refs, Distinct, SumOf;
      var i := FindWriteLock(bucket);
      if held[i].total == 1 {
        RemoveLock(i);
      } else {
        SetLock(i, held[i].(total := held[i].total - 1));
        assert lockBytes[..] == lockBytes[..][bucket := true];
      }
    }

    // Locks the bucket, unless it has changed since it was read-locked or another thread
    // holds it. A refused upgrade leaves no trace.
    method UpgradeBucketLock(read: ReadLock) returns (status: Status)
      requires Valid() && read.bucket < lockBytes.Length
      modifies this`held, lockBytes
      ensures Valid() && (status == SI_OK || status == SI_RETRY)
      ensures status == SI_OK <==>
                seqs[read.bucket] == read.seqNum && (read.bucket in old(R()) || !old(lockBytes[read.bucket]))
      ensures status == SI_OK ==> R() == PlusBucket(old(R()), read.bucket)
      ensures status == SI_OK ==> lockBytes[..] == old(lockBytes[..])[read.bucket := true]
      ensures status == SI_RETRY ==> R() == old(R()) && lockBytes[..] == old(lockBytes[..])
    {
      hide SumOf, Refs, Distinct;
      var i := FindWriteLock(read.bucket);
      if i != -1 {
        if seqs[read.bucket] != read.seqNum {
          return SI_RETRY;
        }
        SetLock(i, held[i].(total := held[i].total + 1));
        assert lockBytes[..] == lockBytes[..][read.bucket := true];
        return SI_OK;
      }
      var ok := TryTakeLock(read.bucket);
      if !ok {
        assert lockBytes[..] == old(lockBytes[..]);
        return SI_RETRY;
      }
      AddLock(read.bucket);
      if seqs[read.bucket] != read.seqNum {
        NewLockOk(read.bucket);
        BucketUndo(old(R()), read.bucket);
        ReleaseBucketLock(read.bucket);
        assert lockBytes[..] == old(lockBytes[..]);
        return SI_RETRY;
      }
      return SI_OK;
    }

    // Locks an entry of a bucket that is locked already.
    method WriteLockEntryInLockedBucket(bucket: nat, entry: nat)
      requires Valid() && bucket in R() && entry < CUCKOO_BUCKET_SIZE
      modifies this`held
      ensures Valid() && R() == PlusEntry(old(R()), bucket, entry)
    {
      hide Refs, Distinct, SumOf;
      var i := FindWriteLock(bucket);
      var l := held[i];
      SumAt(l.entryRefs, entry, l.entryRefs[entry] + 1);
      SetLock(i, IncEntry(l, entry).(total := l.total + 1));
    }

    // Locks an entry that was read earlier, unless its bucket has changed since or is
    // locked by another thread.
    method UpgradeLock(bucket: nat, entry: nat, seqNum: nat) returns (status: Status)
      requires Valid() && bucket < lockBytes.Length && entry < CUCKOO_BUCKET_SIZE
      modifies this`held, lockBytes
      ensures Valid() && (status == SI_OK || status == SI_RETRY)
      ensures status == SI_OK <==> seqs[bucket] == seqNum && (bucket in old(R()) || !old(lockBytes[bucket]))
      ensures bucket in old(R()) ==> |old(R())[bucket].entryRefs| == CUCKOO_BUCKET_SIZE
      ensures status == SI_OK ==> R() == PlusEntry(old(R()), bucket, entry)
      ensures status == SI_OK ==> lockBytes[..] == old(lockBytes[..])[bucket := true]
      ensures status == SI_RETRY ==> R() == old(R()) && lockBytes[..] == old(lockBytes[..])
    {
      hide SumOf, Refs, Distinct;
      var ok := TryTakeLock(bucket);
      var i := FindWriteLock(bucket);
      if ok {
        AddLock(bucket);
        RefsAt(held, |held| - 1);
        NewLockOk(bucket);
        if seqs[bucket] != seqNum {
          BucketUndo(old(R()), bucket);
          ReleaseBucketLock(bucket);
          assert lockBytes[..] == old(lockBytes[..]);
          return SI_RETRY;
        }
        // The reference to the bucket becomes one to the entry, so the total stays
        SumAt(held[|held| - 1].entryRefs, entry, 1);
        SetLock(|held| - 1, IncEntry(held[|held| - 1], entry));
        return SI_OK;
      }
      assert lockBytes[..] == old(lockBytes[..]);
      if i != -1 && seqs[bucket] == seqNum {
        WriteLockEntryInLockedBucket(bucket, entry);
        return SI_OK;
      }
      return SI_RETRY;
    }

    method WriteUnlock(bucket: nat, entry: nat)
      requires Valid() && bucket in R() && entry < CUCKOO_BUCKET_SIZE && R()[bucket].entryRefs[entry] >= 1
      modifies this`held, lockBytes
      ensures Valid() && R() == MinusEntry(old(R()), bucket, entry)
      ensures lockBytes[..] == old(lockBytes[..])[bucket := bucket in R()]
    {
      hide SumOf, Refs, Distinct;
      var i := FindWriteLock(bucket);
      var l := held[i];
      SumAt(l.entryRefs, entry, l.entryRefs[entry] - 1);
      if l.total == 1 {
        RemoveLock(i);
      } else {
        SetLock(i, DecEntry(l, entry).(total := l.total - 1));
        assert lockBytes[..] == lockBytes[..][bucket := true];
      }
    }

    // If the source entry is locked, one reference to it moves to the destination. Both
    // buckets are locked, and the source keeps a reference to its bucket.
    method MoveEntryLock(dst: nat, dstEntry: nat, src: nat, srcEntry: nat)
      requires Valid() && dst in R() && src in R() && dst != src
      requires dstEntry < CUCKOO_BUCKET_SIZE && srcEntry < CUCKOO_BUCKET_SIZE && BucketRefs(R()[src]) >= 1
      modifies this`held
      ensures Valid()
      ensures old(R())[src].entryRefs[srcEntry] == 0 ==> R() == old(R())
      ensures old(R())[src].entryRefs[srcEntry] != 0 ==>
                R() == PlusEntry(MinusEntry(old(R()), src, srcEntry), dst, dstEntry)
      ensures R().Keys == old(R()).Keys
      ensures R()[src].total + R()[dst].total == old(R())[src].total + old(R())[dst].total
      ensures forall b :: b in R() && b != src && b != dst ==> R()[b] == old(R())[b]
    {
      hide SumOf, Refs, Distinct;
      var i := FindWriteLock(src);
      var j := FindWriteLock(dst);
      var l, m := held[i], held[j];
      if l.entryRefs[srcEntry] == 0 {
        return;
      }
      SumAt(l.entryRefs, srcEntry, l.entryRefs[srcEntry] - 1);
      SumAt(m.entryRefs, dstEntry, m.entryRefs[dstEntry] + 1);
      SetLock(i, DecEntry(l, srcEntry).(total := l.total - 1));
      SetLock(j, IncEntry(m, dstEntry).(total := m.total + 1));
    }

    // Clears the lock bytes of all locks held, and only those.
    method ReleaseAllLocks()
      requires Valid()
      modifies this`held, lockBytes
      ensures Valid() && held == [] && R() == map[]
      ensures forall b :: 0 <= b < lockBytes.Length ==> lockBytes[b] == (old(lockBytes[b]) && b !in old(R()))
    {
      ghost var bytes := lockBytes[..];
      var i := 0;
      while i < |held|
        invariant 0 <= i <= |held| && held == old(held) && Distinct(held) && |bytes| == lockBytes.Length
        invariant forall j :: 0 <= j < |held| ==> held[j].bucket < lockBytes.Length
        invariant forall b :: 0 <= b < lockBytes.Length ==>
                    lockBytes[b] == (bytes[b] && forall j :: 0 <= j < i ==> held[j].bucket != b)
      {
        lockBytes[held[i].bucket] := false;
        i := i + 1;
      }
      held := [];
    }

    lemma {:induction false} ValidRefs()
      requires Valid()
      ensures RefsOk(R())
      ensures BytesOf(lockBytes[..], R().Keys, lockBytes[..], R().Keys)
      ensures forall b :: b in R() ==> b < lockBytes.Length && lockBytes[b]
    {
    }

    // Locks the parents above the bitmap at path[pos] whose max_leaf may have to change:
    // those from which the path goes through jumps and last children only. If one of them
    // cannot be locked, those that were are unlocked again, and the references are what
    // they were.
    method UpgradeLocksOnLeftParentsAbove(path: seq<PathLock>, pos: nat) returns (status: Status)
      requires Valid() && pos < |path| && PathLocksOk(path, lockBytes.Length) && lockBytes.Length <= 0x1_0000_0000
      modifies this`held, lockBytes
      ensures Valid() && RefsOk(old(R())) && (status == SI_OK || status == SI_RETRY)
      ensures status == SI_OK ==>
                LeftParents(path, pos) <= pos && R() == Taken(old(R()), path, LeftParents(path, pos), pos)
      ensures status == SI_OK ==> forall s :: EntryCount(R(), s) == EntryCount(old(R()), s) + |ClimbersIn(path, pos, s)|
      ensures status == SI_OK ==> forall b :: BucketCount(R(), b) == BucketCount(old(R()), b)
      ensures status == SI_RETRY ==> R() == old(R()) && lockBytes[..] == old(lockBytes[..])
      ensures status == SI_OK ==> BytesOf(old(lockBytes[..]), old(R()).Keys, lockBytes[..], R().Keys)
    {
      hide Refs, Distinct, LockOk, BytesOf, SumOf, RefsOk, EntryCount, BucketCount, ClimbersIn;
      ghost var refs, bytes := R(), lockBytes[..];
      ValidRefs();
      status := SI_OK;
      var at := pos;
      while 0 < at && status == SI_OK && (path[at - 1].isJump || path[at].lastSymbol == path[at - 1].maxChild)
        invariant 0 <= at <= pos && Valid() && (status == SI_OK || status == SI_RETRY)
        invariant R() == Taken(refs, path, at, pos) && LeftParents(path, pos) == LeftParents(path, at)
        invariant BytesOf(bytes, refs.Keys, lockBytes[..], R().Keys)
        decreases at, status == SI_OK
      {
        ghost var held0, bytes0 := R().Keys, lockBytes[..];
        status := UpgradeLock(path[at - 1].bucket, path[at - 1].entry, path[at - 1].seqNum);
        if status == SI_OK {
          BytesTaken(bytes, refs.Keys, bytes0, held0, path[at - 1].bucket);
          assert R().Keys == held0 + {path[at - 1].bucket};
          at := at - 1;
        }
      }
      if status != SI_OK {
        // Those that were locked before the failure
        UnlockPath(path, at, pos, refs, bytes);
        BytesRestored(bytes, refs.Keys, lockBytes[..]);
      }
      ClimbersCount(refs, path, pos);
    }

    method UnlockPath(path: seq<PathLock>, from: nat, pos: nat, ghost refs: map<nat, WriteLock>,
                      ghost bytes: seq<bool>)
      requires Valid() && from <= pos <= |path| && PathLocksOk(path, 0x1_0000_0000) && RefsOk(refs)
      requires R() == Taken(refs, path, from, pos) && BytesOf(bytes, refs.Keys, lockBytes[..], R().Keys)
      modifies this`held, lockBytes
      ensures Valid() && R() == refs && BytesOf(bytes, refs.Keys, lockBytes[..], R().Keys)
    {
      hide Taken, Refs, PlusEntry, Distinct, LockOk, BytesOf;
      var at := from;
      TakenNothing(refs, path, pos);
      while at < pos
        invariant from <= at <= pos && Valid() && R() == Taken(refs, path, at, pos)
        invariant BytesOf(bytes, refs.Keys, lockBytes[..], R().Keys)
      {
        TakenUndo(refs, path, at, pos);
        BytesGiven(bytes, refs.Keys, lockBytes[..], R().Keys, path[at].bucket,
                   MinusEntry(R(), path[at].bucket, path[at].entry).Keys);
        WriteUnlock(path[at].bucket, path[at].entry);
        at := at + 1;
      }
    }

    // Locks the buckets of a relocation path. If one of them cannot be locked, those that
    // were are released again, in the order in which they were taken.
    method LockRelocationPath(rs: seq<ReadLock>) returns (status: Status)
      requires Valid() && DistinctReads(rs) && forall i :: 0 <= i < |rs| ==> rs[i].bucket < lockBytes.Length
      modifies this`held, lockBytes
      ensures Valid() && (status == SI_OK || status == SI_RETRY)
      ensures status == SI_OK ==> R() == PlusAll(old(R()), rs)
      ensures status == SI_OK ==> forall x :: EntryCount(R(), x) == EntryCount(old(R()), x)
      ensures status == SI_OK ==> forall b :: BucketCount(R(), b) == BucketCount(old(R()), b)
                                                                      + (if Reads(rs, b) then 1 else 0)
      ensures status == SI_RETRY ==> R() == old(R()) && lockBytes[..] == old(lockBytes[..])
      ensures BytesOf(old(lockBytes[..]), old(R()).Keys, lockBytes[..], R().Keys)
    {
      hide Refs, Distinct, SumOf, LockOk, BytesOf, EntryCount, BucketCount;
      ghost var refs, bytes := R(), lockBytes[..];
      ValidRefs();
      var locked := 0;
      status := SI_OK;
      while locked < |rs| && status == SI_OK
        invariant 0 <= locked <= |rs| && Valid() && (status == SI_OK || status == SI_RETRY)
        invariant R() == PlusAll(refs, rs[..locked]) && BytesOf(bytes, refs.Keys, lockBytes[..], R().Keys)
        decreases |rs| - locked, status == SI_OK
      {
        ghost var held0, bytes0 := R().Keys, lockBytes[..];
        status := UpgradeBucketLock(rs[locked]);
        if status == SI_OK {
          BytesTaken(bytes, refs.Keys, bytes0, held0, rs[locked].bucket);
          assert R().Keys == held0 + {rs[locked].bucket};
          assert rs[..locked + 1][..locked] == rs[..locked];
          locked := locked + 1;
        }
      }
      assert rs[..|rs|] == rs;
      CountAll(refs, rs);
      if status != SI_OK {
        ReleasePath(rs[..locked], refs, bytes);
        BytesRestored(bytes, refs.Keys, lockBytes[..]);
      }
    }

    // Releases the buckets of a path, in the order in which they were taken.
    method ReleasePath(rs: seq<ReadLock>, ghost refs: map<nat, WriteLock>, ghost bytes: seq<bool>)
      requires Valid() && DistinctReads(rs) && RefsOk(refs) && R() == PlusAll(refs, rs)
      requires BytesOf(bytes, refs.Keys, lockBytes[..], R().Keys)
      modifies this`held, lockBytes
      ensures Valid() && R() == refs && BytesOf(bytes, refs.Keys, lockBytes[..], R().Keys)
    {
      hide Refs, Distinct, SumOf, BytesOf;
      var i := 0;
      assert rs[0..] == rs;
      while i < |rs|
        invariant 0 <= i <= |rs| && Valid() && R() == PlusAll(refs, rs[i..])
        invariant BytesOf(bytes, refs.Keys, lockBytes[..], R().Keys)
      {
        ReleaseOne(refs, rs, i);
        BytesGiven(bytes, refs.Keys, lockBytes[..], R().Keys, rs[i].bucket, MinusBucket(R(), rs[i].bucket).Keys);
        ReleaseBucketLock(rs[i].bucket);
        i := i + 1;
      }
    }

    // The locks of a relocation. The path of cells goes from the unused cell to the cell
    // that is freed, each entry moving to the cell before its own; the buckets but the
    // last are locked first and released last. Afterwards the references to buckets are
    // what they were, and those to entries have been carried along.
    method RelocateLocks(rs: seq<ReadLock>, path: seq<Slot>) returns (status: Status)
      requires Valid() && DistinctReads(rs) && PathOnBuckets(rs, path, lockBytes.Length)
      requires BucketCount(R(), path[|rs|].bucket) >= 1
      modifies this`held, lockBytes
      ensures Valid() && (status == SI_OK || status == SI_RETRY)
      ensures status == SI_RETRY ==> R() == old(R()) && lockBytes[..] == old(lockBytes[..])
      ensures BytesOf(old(lockBytes[..]), old(R()).Keys, lockBytes[..], R().Keys)
      ensures status == SI_OK ==> forall x :: EntryCount(R(), x) == CarriedCount(old(R()), path, |rs|, x)
      ensures status == SI_OK ==> forall b :: BucketCount(R(), b) == BucketCount(old(R()), b)
    {
      hide Refs, Distinct, SumOf, EntryCount, BucketCount, PlusAll, LockOk, DistinctSlots, BytesOf;
      ghost var refs, bytes := R(), lockBytes[..];
      ValidRefs();
      status := LockRelocationPath(rs);
      if status == SI_RETRY {
        return;
      }
      CountAll(refs, rs);
      var k := 0;
      while k < |rs|
        invariant 0 <= k <= |rs| && Valid()
        invariant forall x :: EntryCount(R(), x) == CarriedCount(refs, path, k, x)
        invariant forall b :: BucketCount(R(), b) == BucketCount(refs, b) + (if Reads(rs, b) then 1 else 0)
        invariant BytesOf(bytes, refs.Keys, lockBytes[..], R().Keys)
      {
        k := k + 1;
        MoveSlotLock(path[k - 1], path[k]);
      }
      ReleaseBuckets(rs, refs.Keys, bytes);
    }

    method MoveSlotLock(d: Slot, s: Slot)
      requires Valid() && d.bucket != s.bucket && d.entry < CUCKOO_BUCKET_SIZE && s.entry < CUCKOO_BUCKET_SIZE
      requires BucketCount(R(), s.bucket) >= 1 && BucketCount(R(), d.bucket) >= 1
      modifies this`held
      ensures Valid() && RefCarried(old(R()), R(), d, s) && R().Keys == old(R()).Keys
    {
      hide Refs, Distinct, SumOf;
      ValidRefs();
      CountMove(R(), d, s);
      MoveEntryLock(d.bucket, d.entry, s.bucket, s.entry);
    }

    // Gives one reference to each of the buckets back.
    method ReleaseBuckets(rs: seq<ReadLock>, ghost held0: set<nat>, ghost bytes: seq<bool>)
      requires Valid() && DistinctReads(rs) && forall i :: 0 <= i < |rs| ==> BucketCount(R(), rs[i].bucket) >= 1
      requires BytesOf(bytes, held0, lockBytes[..], R().Keys)
      modifies this`held, lockBytes
      ensures Valid() && BytesOf(bytes, held0, lockBytes[..], R().Keys)
      ensures forall x :: EntryCount(R(), x) == EntryCount(old(R()), x)
      ensures forall b :: BucketCount(R(), b) == BucketCount(old(R()), b) - (if Reads(rs, b) then 1 else 0)
    {
      hide Refs, Distinct, SumOf, EntryCount, BucketCount, LockOk, BytesOf;
      var i := 0;
      while i < |rs|
        invariant 0 <= i <= |rs| && Valid()
        invariant forall x :: EntryCount(R(), x) == EntryCount(old(R()), x)
        invariant forall b :: BucketCount(R(), b) == BucketCount(old(R()), b) - (if Reads(rs[..i], b) then 1 else 0)
        invariant BytesOf(bytes, held0, lockBytes[..], R().Keys)
      {
        ReadsOneMore(rs, i);
        ValidRefs();
        CountMinus(R(), rs[i].bucket);
        BytesGiven(bytes, held0, lockBytes[..], R().Keys, rs[i].bucket, MinusBucket(R(), rs[i].bucket).Keys);
        ReleaseBucketLock(rs[i].bucket);
        i := i + 1;
      }
      assert rs[..i] == rs;
    }
  }
}
