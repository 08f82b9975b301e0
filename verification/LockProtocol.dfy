// Lock managers of any number of threads over shared lock bytes, as interleaved atomic
// steps. Between taking a byte and listing the lock, and between taking a lock off the
// list and clearing the byte, other threads may run.
module LockProtocol {
  import opened Store
  import opened Locks

  // `taken` is a bucket whose byte was just set, `leaving` one whose lock was just taken
  // off the list. While all locks are released, the first `cleared` bytes are cleared.
  // `bucketRefs` is the thread's own account of the references that it took to whole
  // buckets and has not given back; the manager does not store it.
  datatype Manager = Manager(held: seq<WriteLock>, taken: Option<nat>, leaving: Option<nat>, releasing: bool,
                             cleared: nat,
                             bucketRefs: map<nat, nat>)

  datatype System = System(bytes: seq<bool>, managers: map<nat, Manager>)

  datatype Action =
    | TryTake(bucket: nat)
    | ListLock
    | PlusRef(i: nat)
    | PlusEntryRef(i: nat, e: nat)
    | TurnIntoEntryRef(i: nat, e: nat)
    | MinusRef(i: nat)
    | MinusEntryRef(i: nat, e: nat)
    | MoveEntryRef(i: nat, e: nat, j: nat, f: nat)
    | ClearByte
    | StartReleaseAll
    | ClearNext
    | EndReleaseAll

  // The manager is not in the middle of an operation.
  predicate Quiet(m: Manager) {
    m.taken == None && m.leaving == None && !m.releasing
  }

  predicate ValidLock(m: Manager, i: nat) {
    i < |m.held| && LockOk(m.held[i]) && m.held[i].bucket in m.bucketRefs
  }

  // The thread has a reference to the whole bucket.
  predicate HasBucketRef(m: Manager, i: nat) {
    ValidLock(m, i) && m.bucketRefs[m.held[i].bucket] >= 1 && m.held[i].total >= 1
  }

  predicate Enabled(s: System, t: nat, a: Action) {
    t in s.managers && Possible(s, s.managers[t], a)
  }

  predicate Possible(s: System, m: Manager, a: Action) {
    match a
    case TryTake(b) => Quiet(m) && b < |s.bytes|
    case ListLock => m.taken.Some?
    case PlusRef(i) => Quiet(m) && ValidLock(m, i)
    case PlusEntryRef(i, e) => Quiet(m) && ValidLock(m, i) && e < CUCKOO_BUCKET_SIZE
    case TurnIntoEntryRef(i, e) => Quiet(m) && HasBucketRef(m, i) && e < CUCKOO_BUCKET_SIZE
    case MinusRef(i) => Quiet(m) && HasBucketRef(m, i)
    case MinusEntryRef(i, e) => Quiet(m) && ValidLock(m, i) && e < CUCKOO_BUCKET_SIZE && m.held[i].entryRefs[e] >= 1
    case MoveEntryRef(i, e, j, f) =>
      && Quiet(m) && HasBucketRef(m, i) && ValidLock(m, j) && i != j && e < CUCKOO_BUCKET_SIZE && f < CUCKOO_BUCKET_SIZE
      && m.held[i].entryRefs[e] >= 1
    case ClearByte => m.leaving.Some? && m.leaving.value < |s.bytes|
    case StartReleaseAll => Quiet(m)
    case ClearNext => m.releasing && m.cleared < |m.held| && m.held[m.cleared].bucket < |s.bytes|
    case EndReleaseAll => m.releasing && m.cleared == |m.held|
  }

  // Stores the counts of lock i; `refs` of them are the thread's references to the bucket.
  function SetCounts(m: Manager, i: nat, l: WriteLock, refs: nat): Manager
    requires i < |m.held|
  {
    m.(held := m.held[i := l], bucketRefs := m.bucketRefs[m.held[i].bucket := refs])
  }

  function Drop(m: Manager, i: nat, l: WriteLock, refs: nat): Manager
    requires i < |m.held|
  {
    if l.total == 0 then Unlist(m, i) else SetCounts(m, i, l, refs)
  }

  function Unlist(m: Manager, i: nat): Manager
    requires i < |m.held|
  {
    m.(held := Removed(m.held, i), leaving := Some(m.held[i].bucket), bucketRefs := m.bucketRefs - {m.held[i].bucket})
  }

  function List(m: Manager): Manager
    requires m.taken.Some?
  {
    m.(held := m.held + [NewLock(m.taken.value)], taken := None, bucketRefs := m.bucketRefs[m.taken.value := 1])
  }

  // The thread's references to the bucket of lock i.
  function RefsTo(m: Manager, i: nat): nat
    requires ValidLock(m, i)
  {
    m.bucketRefs[m.held[i].bucket]
  }

  // What the step does to the thread's manager.
  function DoManager(s: System, m: Manager, a: Action): Manager
    requires Possible(s, m, a)
  {
    match a
    case TryTake(b) => if s.bytes[b] then m else m.(taken := Some(b))
    case ListLock => List(m)
    case PlusRef(i) => SetCounts(m, i, m.held[i].(total := m.held[i].total + 1), RefsTo(m, i) + 1)
    case PlusEntryRef(i, e) => SetCounts(m, i, IncEntry(m.held[i], e).(total := m.held[i].total + 1), RefsTo(m, i))
    case TurnIntoEntryRef(i, e) => SetCounts(m, i, IncEntry(m.held[i], e), RefsTo(m, i) - 1)
    case MinusRef(i) => Drop(m, i, m.held[i].(total := m.held[i].total - 1), RefsTo(m, i) - 1)
    case MinusEntryRef(i, e) => Drop(m, i, DecEntry(m.held[i], e).(total := m.held[i].total - 1), RefsTo(m, i))
    case MoveEntryRef(i, e, j, f) => m.(held := MovedRef(m.held, i, e, j, f))
    case ClearByte => m.(leaving := None)
    case StartReleaseAll => m.(releasing := true, cleared := 0)
    case ClearNext => m.(cleared := m.cleared + 1)
    case EndReleaseAll => m.(held := [], releasing := false, cleared := 0, bucketRefs := map[])
  }

  function MovedRef(held: seq<WriteLock>, i: nat, e: nat, j: nat, f: nat): seq<WriteLock>
    requires i < |held| && j < |held| && i != j && LockOk(held[i]) && LockOk(held[j])
    requires e < CUCKOO_BUCKET_SIZE && f < CUCKOO_BUCKET_SIZE && held[i].entryRefs[e] >= 1
  {
    held[i := DecEntry(held[i], e).(total := held[i].total - 1)][j := IncEntry(held[j], f).(total := held[j].total + 1)]
  }

  // The exchange stores 1 whether or not the byte was clear.
  function DoBytes(s: System, m: Manager, a: Action): seq<bool>
    requires Possible(s, m, a)
  {
    match a
    case TryTake(b) => s.bytes[b := true]
    case ClearByte => s.bytes[m.leaving.value := false]
    case ClearNext => s.bytes[m.held[m.cleared].bucket := false]
    case _ => s.bytes
  }

  function Do(s: System, t: nat, a: Action): System
    requires Enabled(s, t, a)
  {
    System(DoBytes(s, s.managers[t], a), s.managers[t := DoManager(s, s.managers[t], a)])
  }

  // ------------------------------------------------------------------
  // Ownership
  // ------------------------------------------------------------------

  // The manager lists the bucket, and has not cleared its byte yet.
  ghost predicate Lists(m: Manager, b: nat) {
    exists i :: 0 <= i < |m.held| && m.cleared <= i && m.held[i].bucket == b
  }

  // The manager is responsible for the bucket's lock byte.
  ghost predicate Owns(m: Manager, b: nat) {
    Lists(m, b) || m.taken == Some(b) || m.leaving == Some(b)
  }

  // The total is the references to the entries and those to the bucket.
  ghost predicate Balanced(l: WriteLock, bucketRefs: map<nat, nat>) {
    l.bucket in bucketRefs && l.total == SumOf(l.entryRefs) + bucketRefs[l.bucket]
  }

  ghost predicate ManagerOk(m: Manager, buckets: nat) {
    && Distinct(m.held) && m.cleared <= |m.held|
    && (forall i :: 0 <= i < |m.held| ==>
          LockOk(m.held[i]) && m.held[i].bucket < buckets && Balanced(m.held[i], m.bucketRefs))
    && (m.taken.Some? ==> m.taken.value < buckets && m.leaving == None && !m.releasing && !Lists(m, m.taken.value))
    && (m.leaving.Some? ==> m.leaving.value < buckets && !m.releasing && !Lists(m, m.leaving.value))
    && (!m.releasing ==> m.cleared == 0)
  }

  // Every lock byte is set exactly if one manager is responsible for it, and no two are.
  ghost predicate Inv(s: System) {
    && (forall t {:trigger ManagerOk(s.managers[t], |s.bytes|)} :: t in s.managers ==>
         ManagerOk(s.managers[t], |s.bytes|))
    && (forall t :: t in s.managers ==> OwnsSetBytes(s, s.managers[t]))
    && (forall b :: 0 <= b < |s.bytes| && s.bytes[b] ==> Owned(s, b))
    && (forall t, u, b: nat ::
          t in s.managers && u in s.managers && Owns(s.managers[t], b) && Owns(s.managers[u], b) ==> t == u)
  }

  ghost predicate OwnsSetBytes(s: System, m: Manager) {
    forall b: nat :: Owns(m, b) ==> b < |s.bytes| && s.bytes[b]
  }

  ghost predicate Owned(s: System, b: nat) {
    exists t :: t in s.managers && Owns(s.managers[t], b)
  }

  // The references of a lock change, its bucket does not.
  lemma {:induction false} ReplacedLock(m: Manager, i: nat, l: WriteLock, refs: nat, buckets: nat)
    requires ManagerOk(m, buckets) && i < |m.held| && l.bucket == m.held[i].bucket && LockOk(l)
    requires l.total == SumOf(l.entryRefs) + refs
    ensures var m' := SetCounts(m, i, l, refs); ManagerOk(m', buckets) && forall b: nat :: Owns(m', b) <==> Owns(m, b)
  {
    hide SumOf;
    var m' := SetCounts(m, i, l, refs);
    assert forall j :: 0 <= j < |m.held| ==> m'.held[j].bucket == m.held[j].bucket;
    forall b: nat
      ensures Lists(m', b) <==> Lists(m, b)
    {
      if Lists(m, b) {
        var j :| 0 <= j < |m.held| && m.cleared <= j && m.held[j].bucket == b;
        assert m'.held[j].bucket == b;
      }
    }
    forall j | 0 <= j < |m'.held|
      ensures Balanced(m'.held[j], m'.bucketRefs)
    {
      assert Balanced(m.held[j], m.bucketRefs);
    }
  }

  lemma {:induction false} RemovedLock(m: Manager, i: nat, buckets: nat)
    requires ManagerOk(m, buckets) && Quiet(m) && i < |m.held|
    ensures var m' := Unlist(m, i); ManagerOk(m', buckets) && forall b: nat :: Owns(m', b) <==> Owns(m, b)
  {
    hide SumOf, LockOk;
    var m' := Unlist(m, i);
    RemovedAt(m.held, i);
    var e := |m.held| - 1;
    forall b: nat
      ensures Lists(m', b) <==> Lists(m, b) && b != m.held[i].bucket
    {
      if Lists(m, b) && b != m.held[i].bucket {
        var j :| 0 <= j < |m.held| && m.cleared <= j && m.held[j].bucket == b;
        assert m'.held[if j == e then i else j].bucket == b;
      }
      if Lists(m', b) {
        var j :| 0 <= j < |m'.held| && m'.cleared <= j && m'.held[j].bucket == b;
        assert m.held[if j == i then e else j].bucket == b;
      }
    }
    assert Lists(m, m.held[i].bucket);
    forall j | 0 <= j < |m'.held|
      ensures Balanced(m'.held[j], m'.bucketRefs)
    {
      assert Balanced(m.held[if j == i then e else j], m.bucketRefs);
    }
  }

  lemma {:induction false} ListedLock(m: Manager, buckets: nat)
    requires ManagerOk(m, buckets) && m.taken.Some?
    ensures ManagerOk(List(m), buckets) && forall b: nat :: Owns(List(m), b) <==> Owns(m, b)
  {
    hide SumOf;
    var m' := List(m);
    NewLockOk(m.taken.value);
    assert m'.held[|m.held|] == NewLock(m.taken.value);
    forall b: nat
      ensures Lists(m', b) <==> Lists(m, b) || m.taken == Some(b)
    {
      if Lists(m, b) {
        var j :| 0 <= j < |m.held| && m.cleared <= j && m.held[j].bucket == b;
        assert m'.held[j].bucket == b;
      }
    }
    forall j | 0 <= j < |m.held|
      ensures m.held[j].bucket != m.taken.value && Balanced(m'.held[j], m'.bucketRefs)
    {
      assert Lists(m, m.held[j].bucket) && Balanced(m.held[j], m.bucketRefs);
    }
  }

  lemma {:induction false} ClearedLock(m: Manager, buckets: nat)
    requires ManagerOk(m, buckets) && m.releasing && m.cleared < |m.held|
    ensures var m' := m.(cleared := m.cleared + 1);
            ManagerOk(m', buckets) && forall b: nat :: Owns(m', b) <==> Owns(m, b) && b != m.held[m.cleared].bucket
  {
    var m' := m.(cleared := m.cleared + 1);
    forall b: nat
      ensures Lists(m', b) <==> Lists(m, b) && b != m.held[m.cleared].bucket
    {
      if Lists(m, b) && b != m.held[m.cleared].bucket {
        var j :| 0 <= j < |m.held| && m.cleared <= j && m.held[j].bucket == b;
        assert m'.held[j].bucket == b;
      }
    }
  }

  // Which bucket the thread becomes responsible for, and which it no longer is.
  function Gained(s: System, m: Manager, a: Action): Option<nat> {
    if a.TryTake? && a.bucket < |s.bytes| && !s.bytes[a.bucket] then Some(a.bucket) else None
  }

  function Lost(m: Manager, a: Action): Option<nat> {
    if a.ClearByte? then m.leaving
    else if a.ClearNext? && m.cleared < |m.held| then Some(m.held[m.cleared].bucket) else None
  }

  lemma {:induction false} SumBounds(l: WriteLock, e: nat)
    requires LockOk(l) && e < CUCKOO_BUCKET_SIZE
    ensures SumOf(IncEntry(l, e).entryRefs) == SumOf(l.entryRefs) + 1
    ensures l.entryRefs[e] >= 1 ==> SumOf(DecEntry(l, e).entryRefs) == SumOf(l.entryRefs) - 1
  {
    SumAt(l.entryRefs, e, l.entryRefs[e] + 1);
    if l.entryRefs[e] >= 1 {
      SumAt(l.entryRefs, e, l.entryRefs[e] - 1);
    }
  }

  lemma {:induction false} DropLock(m: Manager, i: nat, l: WriteLock, refs: nat, buckets: nat)
    requires ManagerOk(m, buckets) && Quiet(m) && i < |m.held| && l.bucket == m.held[i].bucket
    requires |l.entryRefs| == CUCKOO_BUCKET_SIZE && l.total == SumOf(l.entryRefs) + refs
    ensures ManagerOk(Drop(m, i, l, refs), buckets) && forall b: nat :: Owns(Drop(m, i, l, refs), b) <==> Owns(m, b)
  {
    hide SumOf, ManagerOk, Owns;
    if l.total == 0 {
      RemovedLock(m, i, buckets);
    } else {
      ReplacedLock(m, i, l, refs, buckets);
    }
  }

  lemma {:induction false} StepManager(s: System, m: Manager, a: Action)
    requires ManagerOk(m, |s.bytes|) && Possible(s, m, a)
    requires OwnsSetBytes(s, m)
    ensures ManagerOk(DoManager(s, m, a), |s.bytes|)
    ensures forall b: nat :: Owns(DoManager(s, m, a), b) <==>
              (Owns(m, b) && Lost(m, a) != Some(b)) || Gained(s, m, a) == Some(b)
  {
    if a.TryTake? || a.ClearByte? || a.StartReleaseAll? || a.ClearNext? || a.EndReleaseAll? || a.ListLock? {
      StepBytes(s, m, a);
    } else {
      StepRefs(s, m, a);
    }
  }

  // Steps that take or clear lock bytes, or list a lock.
  lemma {:induction false} StepBytes(s: System, m: Manager, a: Action)
    requires ManagerOk(m, |s.bytes|) && Possible(s, m, a)
    requires a.TryTake? || a.ClearByte? || a.StartReleaseAll? || a.ClearNext? || a.EndReleaseAll? || a.ListLock?
    requires OwnsSetBytes(s, m)
    ensures ManagerOk(DoManager(s, m, a), |s.bytes|)
    ensures forall b: nat :: Owns(DoManager(s, m, a), b) <==>
              (Owns(m, b) && Lost(m, a) != Some(b)) || Gained(s, m, a) == Some(b)
  {
    hide LockOk;
    match a
    case ListLock => ListedLock(m, |s.bytes|);
    case ClearNext => ClearedLock(m, |s.bytes|);
    case _ =>
  }

  // Steps that only count references.
  lemma {:induction false} StepRefs(s: System, m: Manager, a: Action)
    requires ManagerOk(m, |s.bytes|) && Possible(s, m, a)
    requires !(a.TryTake? || a.ClearByte? || a.StartReleaseAll? || a.ClearNext? || a.EndReleaseAll? || a.ListLock?)
    ensures ManagerOk(DoManager(s, m, a), |s.bytes|) && forall b: nat :: Owns(DoManager(s, m, a), b) <==> Owns(m, b)
  {
    hide ManagerOk, Owns, SumOf, Drop, SetCounts, Balanced;
    match a
    case PlusRef(i) => RefAdded(m, i, |s.bytes|);
    case PlusEntryRef(i, e) => EntryRefAdded(m, i, e, |s.bytes|);
    case TurnIntoEntryRef(i, e) => RefTurned(m, i, e, |s.bytes|);
    case MinusRef(i) => RefDropped(m, i, |s.bytes|);
    case MinusEntryRef(i, e) => EntryRefDropped(m, i, e, |s.bytes|);
    case MoveEntryRef(i, e, j, f) => MovedLock(m, i, e, j, f, |s.bytes|);
  }

  lemma {:induction false} RefAdded(m: Manager, i: nat, buckets: nat)
    requires ManagerOk(m, buckets) && ValidLock(m, i)
    ensures var m' := SetCounts(m, i, m.held[i].(total := m.held[i].total + 1), RefsTo(m, i) + 1);
            ManagerOk(m', buckets) && forall b: nat :: Owns(m', b) <==> Owns(m, b)
  {
    LocksBalanced(m, buckets);
    hide ManagerOk, Owns, SumOf;
    ReplacedLock(m, i, m.held[i].(total := m.held[i].total + 1), RefsTo(m, i) + 1, buckets);
  }

  lemma {:induction false} EntryRefAdded(m: Manager, i: nat, e: nat, buckets: nat)
    requires ManagerOk(m, buckets) && ValidLock(m, i) && e < CUCKOO_BUCKET_SIZE
    ensures var m' := SetCounts(m, i, IncEntry(m.held[i], e).(total := m.held[i].total + 1), RefsTo(m, i));
            ManagerOk(m', buckets) && forall b: nat :: Owns(m', b) <==> Owns(m, b)
  {
    LocksBalanced(m, buckets);
    hide ManagerOk, Owns, SumOf;
    SumBounds(m.held[i], e);
    ReplacedLock(m, i, IncEntry(m.held[i], e).(total := m.held[i].total + 1), RefsTo(m, i), buckets);
  }

  lemma {:induction false} RefTurned(m: Manager, i: nat, e: nat, buckets: nat)
    requires ManagerOk(m, buckets) && HasBucketRef(m, i) && e < CUCKOO_BUCKET_SIZE
    ensures var m' := SetCounts(m, i, IncEntry(m.held[i], e), RefsTo(m, i) - 1);
            ManagerOk(m', buckets) && forall b: nat :: Owns(m', b) <==> Owns(m, b)
  {
    LocksBalanced(m, buckets);
    hide ManagerOk, Owns, SumOf;
    SumBounds(m.held[i], e);
    ReplacedLock(m, i, IncEntry(m.held[i], e), RefsTo(m, i) - 1, buckets);
  }

  lemma {:induction false} RefDropped(m: Manager, i: nat, buckets: nat)
    requires ManagerOk(m, buckets) && Quiet(m) && HasBucketRef(m, i)
    ensures var m' := Drop(m, i, m.held[i].(total := m.held[i].total - 1), RefsTo(m, i) - 1);
            ManagerOk(m', buckets) && forall b: nat :: Owns(m', b) <==> Owns(m, b)
  {
    LocksBalanced(m, buckets);
    hide ManagerOk, Owns, SumOf;
    DropLock(m, i, m.held[i].(total := m.held[i].total - 1), RefsTo(m, i) - 1, buckets);
  }

  lemma {:induction false} EntryRefDropped(m: Manager, i: nat, e: nat, buckets: nat)
    requires ManagerOk(m, buckets) && Quiet(m) && ValidLock(m, i) && e < CUCKOO_BUCKET_SIZE
             && m.held[i].entryRefs[e] >= 1
    ensures var m' := Drop(m, i, DecEntry(m.held[i], e).(total := m.held[i].total - 1), RefsTo(m, i));
            ManagerOk(m', buckets) && forall b: nat :: Owns(m', b) <==> Owns(m, b)
  {
    LocksBalanced(m, buckets);
    hide ManagerOk, Owns, SumOf;
    SumBounds(m.held[i], e);
    DropLock(m, i, DecEntry(m.held[i], e).(total := m.held[i].total - 1), RefsTo(m, i), buckets);
  }

  lemma {:induction false} LocksBalanced(m: Manager, buckets: nat)
    requires ManagerOk(m, buckets)
    ensures forall i :: 0 <= i < |m.held| ==> Balanced(m.held[i], m.bucketRefs)
  {
  }

  lemma {:induction false} MovedLock(m: Manager, i: nat, e: nat, j: nat, f: nat, buckets: nat)
    requires ManagerOk(m, buckets) && HasBucketRef(m, i) && ValidLock(m, j) && i != j
    requires e < CUCKOO_BUCKET_SIZE && f < CUCKOO_BUCKET_SIZE && m.held[i].entryRefs[e] >= 1
    ensures var m' := m.(held := MovedRef(m.held, i, e, j, f));
            ManagerOk(m', buckets) && forall b: nat :: Owns(m', b) <==> Owns(m, b)
  {
    LocksBalanced(m, buckets);
    assert m.held[i].bucket != m.held[j].bucket;
    hide ManagerOk, Owns, SumOf;
    SumBounds(m.held[i], e);
    SumBounds(m.held[j], f);
    var l := DecEntry(m.held[i], e).(total := m.held[i].total - 1);
    var k := IncEntry(m.held[j], f).(total := m.held[j].total + 1);
    assert Balanced(m.held[i], m.bucketRefs) && Balanced(m.held[j], m.bucketRefs);
    ReplacedLock(m, i, l, RefsTo(m, i), buckets);
    var m1 := SetCounts(m, i, l, RefsTo(m, i));
    assert m1.bucketRefs == m.bucketRefs && m1.held[j] == m.held[j];
    ReplacedLock(m1, j, k, RefsTo(m, j), buckets);
    assert SetCounts(m1, j, k, RefsTo(m, j)) == m.(held := MovedRef(m.held, i, e, j, f));
  }

  lemma {:induction false} StepKeepsInv(s: System, t: nat, a: Action)
    requires Inv(s) && Enabled(s, t, a)
    ensures Inv(Do(s, t, a))
  {
    hide ManagerOk, Owns, DoManager;
    var m, s' := s.managers[t], Do(s, t, a);
    assert ManagerOk(m, |s.bytes|);
    StepManager(s, m, a);
    LostIsOwned(s, m, a);
    BytesFollow(s, m, a);
    forall b | 0 <= b < |s'.bytes| && s'.bytes[b]
      ensures Owned(s', b)
    {
      if Gained(s, m, a) == Some(b) {
        assert Owns(s'.managers[t], b);
      } else {
        assert Owned(s, b);
        var u :| u in s.managers && Owns(s.managers[u], b);
        assert Owns(s'.managers[u], b);
      }
    }
  }

  // A step never clears the lock byte of another thread's bucket.
  lemma {:induction false} OthersKeepTheirs(s: System, t: nat, a: Action, u: nat)
    requires Inv(s) && Enabled(s, t, a) && u in s.managers && u != t
    ensures forall b: nat :: Owns(s.managers[u], b) ==> b < |s.bytes| && Lost(s.managers[t], a) != Some(b)
  {
    hide ManagerOk, Owns;
    LostIsOwned(s, s.managers[t], a);
    assert OwnsSetBytes(s, s.managers[u]);
  }

  lemma {:induction false} LostIsOwned(s: System, m: Manager, a: Action)
    requires Possible(s, m, a)
    ensures Lost(m, a).Some? ==> Owns(m, Lost(m, a).value)
  {
    if a.ClearNext? {
      assert Lists(m, m.held[m.cleared].bucket);
    }
  }

  // Which lock bytes a step changes.
  lemma {:induction false} BytesFollow(s: System, m: Manager, a: Action)
    requires Possible(s, m, a)
    ensures |DoBytes(s, m, a)| == |s.bytes|
    ensures forall b :: 0 <= b < |s.bytes| ==>
              DoBytes(s, m, a)[b] == ((s.bytes[b] && Lost(m, a) != Some(b)) || Gained(s, m, a) == Some(b))
  {
  }

  // ------------------------------------------------------------------
  // Runs
  // ------------------------------------------------------------------

  ghost predicate Initial(s: System) {
    && (forall b :: 0 <= b < |s.bytes| ==> !s.bytes[b])
    && forall t :: t in s.managers ==> s.managers[t] == Manager([], None, None, false, 0, map[])
  }

  ghost predicate Next(s: System, s': System) {
    exists t: nat, a :: Enabled(s, t, a) && s' == Do(s, t, a)
  }

  ghost predicate Run(run: seq<System>) {
    && |run| > 0
    && if |run| == 1 then Initial(run[0]) else Run(run[..|run| - 1]) && Next(run[|run| - 2], run[|run| - 1])
  }

  lemma {:induction false} InitialInv(s: System)
    requires Initial(s)
    ensures Inv(s)
  {
    forall t, b: nat | t in s.managers
      ensures ManagerOk(s.managers[t], |s.bytes|) && !Owns(s.managers[t], b)
    {
    }
  }

  lemma {:induction false} RunsKeepInv(run: seq<System>)
    requires Run(run)
    ensures Inv(run[|run| - 1])
  {
    if |run| == 1 {
      InitialInv(run[0]);
    } else {
      RunsKeepInv(run[..|run| - 1]);
      var t: nat, a :| Enabled(run[|run| - 2], t, a) && run[|run| - 1] == Do(run[|run| - 2], t, a);
      StepKeepsInv(run[|run| - 2], t, a);
    }
  }

  ghost predicate ListedBy(s: System, t: nat, b: nat) {
    t in s.managers && Lists(s.managers[t], b)
  }

  ghost predicate AllQuiet(s: System) {
    forall t :: t in s.managers ==> Quiet(s.managers[t])
  }

  // In every reachable state in which no thread is in the middle of an operation, a lock
  // byte is set exactly when one manager lists the bucket, and it lists it once.
  lemma {:induction false} ByteIffListedOnce(run: seq<System>, b: nat)
    requires Run(run) && b < |run[|run| - 1].bytes|
    requires AllQuiet(run[|run| - 1])
    ensures var s := run[|run| - 1];
            && (s.bytes[b] <==> exists t :: ListedBy(s, t, b))
            && (forall t, u :: ListedBy(s, t, b) && ListedBy(s, u, b) ==> t == u)
            && (forall t :: t in s.managers ==> Distinct(s.managers[t].held))
  {
    RunsKeepInv(run);
    var s := run[|run| - 1];
    forall t | t in s.managers
      ensures Distinct(s.managers[t].held) && (Owns(s.managers[t], b) <==> ListedBy(s, t, b))
    {
      assert ManagerOk(s.managers[t], |s.bytes|);
    }
  }

  // In every reachable state the count of each lock is the sum of the references to the
  // bucket's entries and of those that the thread took to the bucket as a whole.
  lemma {:induction false} TotalsBalance(run: seq<System>, t: nat, i: nat)
    requires Run(run) && t in run[|run| - 1].managers && i < |run[|run| - 1].managers[t].held|
    ensures var m := run[|run| - 1].managers[t]; var l := m.held[i];
            l.bucket in m.bucketRefs && l.total == SumOf(l.entryRefs) + m.bucketRefs[l.bucket] && l.total >= 1
  {
    RunsKeepInv(run);
    var s := run[|run| - 1];
    assert ManagerOk(s.managers[t], |s.bytes|);
    LocksBalanced(s.managers[t], |s.bytes|);
    assert Balanced(s.managers[t].held[i], s.managers[t].bucketRefs);
  }

  // Once a thread has released all its locks, it is responsible for no lock byte.
  lemma {:induction false} ReleasedAll(s: System, t: nat)
    requires Inv(s) && Enabled(s, t, EndReleaseAll)
    ensures forall b: nat :: !Owns(Do(s, t, EndReleaseAll).managers[t], b)
  {
    assert ManagerOk(s.managers[t], |s.bytes|);
  }

  function TotalOf(held: seq<WriteLock>): nat {
    if |held| == 0 then 0 else TotalOf(held[..|held| - 1]) + held[|held| - 1].total
  }

  lemma {:induction false} TotalAt(held: seq<WriteLock>, i: nat, l: WriteLock)
    requires i < |held|
    ensures TotalOf(held[i := l]) == TotalOf(held) - held[i].total + l.total
    ensures held[i].total <= TotalOf(held)
  {
    var e := |held| - 1;
    if i == e {
      assert held[i := l][..e] == held[..e];
    } else {
      TotalAt(held[..e], i, l);
      assert held[i := l][..e] == held[..e][i := l];
    }
  }

  // Moving a reference from one entry to another conserves the total, and the references
  // that belong to the buckets.
  lemma {:induction false} MoveConserves(held: seq<WriteLock>, i: nat, e: nat, j: nat, f: nat)
    requires i < |held| && j < |held| && i != j && LockOk(held[i]) && LockOk(held[j])
    requires e < CUCKOO_BUCKET_SIZE && f < CUCKOO_BUCKET_SIZE && held[i].entryRefs[e] >= 1 && BucketRefs(held[i]) >= 1
    ensures var held' := MovedRef(held, i, e, j, f);
            && TotalOf(held') == TotalOf(held) && LockOk(held'[i]) && LockOk(held'[j])
            && BucketRefs(held'[i]) == BucketRefs(held[i]) && BucketRefs(held'[j]) == BucketRefs(held[j])
  {
    SumBounds(held[i], e);
    SumBounds(held[j], f);
    var l := DecEntry(held[i], e).(total := held[i].total - 1);
    TotalAt(held, i, l);
    TotalAt(held[i := l], j, IncEntry(held[j], f).(total := held[j].total + 1));
  }

  // ------------------------------------------------------------------
  // One thread, with no other in between
  // ------------------------------------------------------------------

  // A free bucket is locked with one reference, and nothing else changes.
  lemma {:induction false} LockAlone(s: System, t: nat, b: nat)
    requires t in s.managers && Quiet(s.managers[t]) && b < |s.bytes| && !s.bytes[b]
    ensures Enabled(s, t, TryTake(b)) && Enabled(Do(s, t, TryTake(b)), t, ListLock)
    ensures var m := s.managers[t];
            Do(Do(s, t, TryTake(b)), t, ListLock) ==
            System(s.bytes[b := true],
                   s.managers[t := m.(held := m.held + [NewLock(b)], bucketRefs := m.bucketRefs[b := 1])])
  {
  }

  // A bucket whose byte is set is refused.
  lemma {:induction false} BusyIsRefused(s: System, t: nat, b: nat)
    requires t in s.managers && Quiet(s.managers[t]) && b < |s.bytes| && s.bytes[b]
    ensures Enabled(s, t, TryTake(b)) && Do(s, t, TryTake(b)) == s
  {
    assert s.bytes[b := true] == s.bytes && s.managers[t := s.managers[t]] == s.managers;
  }

  // Giving the last reference back frees the bucket: neither its byte nor the manager
  // knows of the lock any more, and all other locks are as before.
  lemma {:induction false} UnlockAlone(s: System, t: nat, i: nat)
    requires Inv(s) && t in s.managers && Quiet(s.managers[t]) && i < |s.managers[t].held|
    requires s.managers[t].held[i].total == 1 && HasBucketRef(s.managers[t], i)
    ensures var b := s.managers[t].held[i].bucket;
            && b < |s.bytes| && Enabled(s, t, MinusRef(i)) && Enabled(Do(s, t, MinusRef(i)), t, ClearByte)
            && var s' := Do(Do(s, t, MinusRef(i)), t, ClearByte);
               && s'.bytes == s.bytes[b := false] && s'.managers.Keys == s.managers.Keys && Quiet(s'.managers[t])
               && (forall u :: u in s.managers && u != t ==> s'.managers[u] == s.managers[u])
               && forall l :: l in s'.managers[t].held <==> l in s.managers[t].held && l.bucket != b
  {
    var m := s.managers[t];
    assert ManagerOk(m, |s.bytes|);
    RemovedAt(m.held, i);
    var held' := Removed(m.held, i);
    forall l
      ensures l in held' <==> l in m.held && l.bucket != m.held[i].bucket
    {
      if l in m.held && l.bucket != m.held[i].bucket {
        var j :| 0 <= j < |m.held| && m.held[j] == l;
        assert held'[if j == |m.held| - 1 then i else j] == l;
      }
      if l in held' {
        var j :| 0 <= j < |held'| && held'[j] == l;
        assert m.held[if j == i then |m.held| - 1 else j] == l;
      }
    }
  }

  // A reference to an entry is one more for its bucket, and can be given back.
  lemma {:induction false} EntryRefAlone(s: System, t: nat, i: nat, e: nat)
    requires t in s.managers && Quiet(s.managers[t]) && ValidLock(s.managers[t], i) && e < CUCKOO_BUCKET_SIZE
    ensures Enabled(s, t, PlusEntryRef(i, e))
    ensures var s1 := Do(s, t, PlusEntryRef(i, e)); var l, l1 := s.managers[t].held[i], s1.managers[t].held[i];
            && l1.entryRefs == l.entryRefs[e := l.entryRefs[e] + 1] && l1.total == l.total + 1
            && Enabled(s1, t, MinusEntryRef(i, e)) && Do(s1, t, MinusEntryRef(i, e)) == s
  {
    var m := s.managers[t];
    var l := m.held[i];
    SumAt(l.entryRefs, e, l.entryRefs[e] + 1);
    hide SumOf;
    var s1 := Do(s, t, PlusEntryRef(i, e));
    var m1 := s1.managers[t];
    assert m1.held[i].entryRefs[e := l.entryRefs[e]] == l.entryRefs;
    assert m1.held[i := l] == m.held;
    assert m1.bucketRefs == m.bucketRefs;
    assert s1.managers[t := m] == s.managers;
  }
}
