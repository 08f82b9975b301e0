// Adding entries with the same hash to the two buckets of a pair, as interleaved atomic
// steps of any number of threads. Besides adding, a thread may take locks and change
// cells under them: relocations, removals, and everything about other hashes.
module ColorProtocol {
  import opened Arithmetic
  import opened Store

  // The cells of the pair: 0..3 are those of the primary bucket, 4..7 those of the
  // secondary. `Ours` is an entry with the hash in question; `id` tells which attempt
  // added it.
  datatype Slot = Empty | Other(color: nat) | Ours(id: nat, color: nat)

  const PAIR_CELLS := 2 * CUCKOO_BUCKET_SIZE

  // Which bucket of the pair a cell is in: 0 or 1.
  function SideOf(i: nat): nat { if i < CUCKOO_BUCKET_SIZE then 0 else 1 }

  function Alt(side: nat): nat { if side == 0 then 1 else 0 }

  // What an attempt remembers: the sequence numbers read of both buckets, the bucket and
  // the cell to write, the colours seen in scanned cells, and the colour chosen.
  datatype Attempt = Attempt(pre: seq<nat>, side: nat, cell: nat, seen: set<nat>, color: nat)

  datatype Phase =
    | Idle
    | Start
    | ReadOne(first: nat)
    | ReadBoth(pre: seq<nat>)
    | Target(a: Attempt, found: bool)
    | Locked(a: Attempt, found: bool)
    | Making(a: Attempt)
    | Scanning(a: Attempt, next: nat)
    | Chosen(a: Attempt)
    | Begun(a: Attempt)
    | Stored(a: Attempt)
    | Finished(a: Attempt)
    | UndoBegun(a: Attempt)
    | UndoStored(a: Attempt)

  // `id` numbers the current attempt.
  datatype Thread = Thread(id: nat, phase: Phase)

  // A change to a cell by a thread that holds the bucket's lock, outside of adding.
  datatype Change = Change(cell: nat, value: Slot, stored: bool)

  // `committed` records the colours of the entries whose add returned SI_OK.
  datatype Pair = Pair(lock: seq<Option<nat>>, seqNum: seq<nat>, cells: seq<Slot>, change: seq<Option<Change>>,
                       threads: map<nat, Thread>, nextId: nat, committed: map<nat, nat>)

  datatype Action =
    | NewAttempt
    | ReadSeq
    | FindFree(cell: nat)
    | FindNone
    | TakeLock(side: nat)
    | Validate
    | PickFreed(cell: nat)
    | ScanNext
    | ChooseColor(color: nat)
    | BeginStore
    | StoreHeader
    | EndStore
    | Check
    | UndoStore
    | UndoEnd
    | GiveUp
    | BeginChange(cell: nat, value: Slot)
    | StoreChange(side: nat)
    | EndChange(side: nat)
    | Release(side: nat)

  // The thread may change cells of buckets it has locked: also while it makes room for
  // the entry that it is about to add.
  predicate MayChange(p: Phase) { p.Idle? || p.Making? }

  // The attempt is at a stage at which the thread holds the lock of its bucket.
  predicate HasSide(p: Phase) {
    p.Locked? || p.Making? || InScan(p) || p.UndoBegun? || p.UndoStored?
  }

  predicate InScan(p: Phase) {
    p.Scanning? || p.Chosen? || p.Begun? || p.Stored? || p.Finished?
  }

  // The attempt is between the two counter stores of a write.
  predicate MidStore(p: Phase) {
    p.Begun? || p.Stored? || p.UndoBegun? || p.UndoStored?
  }

  // Steps that change a cell outside of adding, and steps that write the new entry or take
  // it out again.
  predicate IsChange(a: Action) { a.BeginChange? || a.StoreChange? || a.EndChange? }

  predicate IsStore(a: Action) {
    a.BeginStore? || a.StoreHeader? || a.EndStore? || a.Check? || a.UndoStore? || a.UndoEnd?
  }

  predicate HasAttempt(p: Phase) {
    p.Target? || HasSide(p)
  }

  predicate Holds(s: Pair, t: nat, side: nat)
    requires |s.lock| == 2
  {
    side < 2 && s.lock[side] == Some(t)
  }

  // No change of the thread's is in progress.
  predicate Settled(s: Pair, t: nat)
    requires |s.lock| == |s.change| == 2
  {
    (Holds(s, t, 0) ==> s.change[0] == None) && (Holds(s, t, 1) ==> s.change[1] == None)
  }

  // The entry is in some cell of the pair.
  predicate Present(cells: seq<Slot>, id: nat, color: nat) {
    exists i :: 0 <= i < |cells| && cells[i] == Ours(id, color)
  }

  predicate Shaped(s: Pair) {
    |s.lock| == 2 && |s.seqNum| == 2 && |s.change| == 2 && |s.cells| == PAIR_CELLS
  }

  predicate AttemptShaped(a: Attempt) {
    |a.pre| == 2 && a.side < 2 && a.cell < PAIR_CELLS && SideOf(a.cell) == a.side
  }

  predicate Enabled(s: Pair, t: nat, a: Action) {
    Shaped(s) && t in s.threads && (HasAttempt(s.threads[t].phase) ==> AttemptShaped(s.threads[t].phase.a))
    && Possible(s, t, s.threads[t].phase, a)
  }

  predicate Possible(s: Pair, t: nat, p: Phase, a: Action)
    requires Shaped(s)
  {
    match a
    case NewAttempt => p.Idle? && Settled(s, t)
    case ReadSeq => p.Start? || p.ReadOne?
    case FindFree(cell) => p.ReadBoth? && |p.pre| == 2 && cell < PAIR_CELLS && s.cells[cell] == Empty
    case FindNone => p.ReadBoth? && |p.pre| == 2
    case TakeLock(side) => side < 2 && (if p.Target? then side == p.a.side else MayChange(p) && !Holds(s, t, side))
    case Validate => p.Locked?
    case PickFreed(cell) =>
      p.Making? && cell < PAIR_CELLS && SideOf(cell) == p.a.side && s.cells[cell] == Empty && Settled(s, t)
    case ScanNext => p.Scanning? && p.next < PAIR_CELLS
    case ChooseColor(color) => p.Scanning? && p.next == PAIR_CELLS && color <= MAX_VALID_COLOR && color !in p.a.seen
    case BeginStore => p.Chosen?
    case StoreHeader => p.Begun?
    case EndStore => p.Stored?
    case Check => p.Finished?
    case UndoStore => p.UndoBegun?
    case UndoEnd => p.UndoStored?
    case GiveUp => p.Making? && Settled(s, t)
    case BeginChange(cell, value) =>
      && MayChange(p) && cell < PAIR_CELLS && Holds(s, t, SideOf(cell)) && Settled(s, t)
      // An entry is rewritten where it is, or is put into a cell by moving it, with both
      // buckets locked
      && (value.Ours? ==>
            value == s.cells[cell] || (Holds(s, t, 0) && Holds(s, t, 1) && Present(s.cells, value.id, value.color)))
    case StoreChange(side) =>
      MayChange(p) && Holds(s, t, side) && s.change[side].Some? && !s.change[side].value.stored
      && s.change[side].value.cell < PAIR_CELLS
    case EndChange(side) => MayChange(p) && Holds(s, t, side) && s.change[side].Some? && s.change[side].value.stored
    case Release(side) => Holds(s, t, side) && Settled(s, t) && p.Idle?
  }

  function To(s: Pair, t: nat, p: Phase): Pair
    requires t in s.threads
  {
    s.(threads := s.threads[t := s.threads[t].(phase := p)])
  }

  function Bump(s: Pair, side: nat): Pair
    requires side < |s.seqNum|
  {
    s.(seqNum := s.seqNum[side := s.seqNum[side] + 1])
  }

  function ColorsOf(x: Slot): set<nat> {
    match x
    case Empty => {INVALID_COLOR}
    case Other(color) => {color}
    case Ours(_, color) => {color}
  }

  function Do(s: Pair, t: nat, act: Action): Pair
    requires Enabled(s, t, act)
  {
    var p := s.threads[t].phase;
    match act
    case NewAttempt => s.(threads := s.threads[t := Thread(s.nextId, Start)], nextId := s.nextId + 1)
    case ReadSeq =>
      if p.Start? then To(s, t, ReadOne(s.seqNum[0])) else To(s, t, ReadBoth([p.first, s.seqNum[1]]))
    case FindFree(cell) => To(s, t, Target(Attempt(p.pre, SideOf(cell), cell, {}, 0), true))
    case FindNone => To(s, t, Target(Attempt(p.pre, 0, 0, {}, 0), false))
    case TakeLock(side) =>
      if p.Target? then
        // A bucket that this thread holds already only has its reference count increased
        if s.lock[side] == None || Holds(s, t, side)
            then To(s, t, Locked(p.a, p.found)).(lock := s.lock[side := Some(t)])
        else To(s, t, Idle)
      else if s.lock[side] == None then s.(lock := s.lock[side := Some(t)])
      else s
    case Validate =>
      if s.seqNum[p.a.side] != p.a.pre[p.a.side] then To(s, t, Idle)
      else To(s, t, if p.found then Scanning(p.a, 0) else Making(p.a))
    case PickFreed(cell) => To(s, t, Scanning(p.a.(cell := cell), 0))
    case ScanNext => To(s, t, Scanning(p.a.(seen := p.a.seen + ColorsOf(s.cells[p.next])), p.next + 1))
    case ChooseColor(color) => To(s, t, Chosen(p.a.(color := color)))
    case BeginStore => Bump(To(s, t, Begun(p.a)), p.a.side)
    case StoreHeader => To(s, t, Stored(p.a)).(cells := s.cells[p.a.cell := Ours(s.threads[t].id, p.a.color)])
    case EndStore => Bump(To(s, t, Finished(p.a)), p.a.side)
    case Check =>
      // The sequence number of the bucket that was not locked decides
      if s.seqNum[Alt(p.a.side)] == p.a.pre[Alt(p.a.side)]
      then To(s, t, Idle).(committed := s.committed[s.threads[t].id := p.a.color])
      else Bump(To(s, t, UndoBegun(p.a)), p.a.side)
    case UndoStore => To(s, t, UndoStored(p.a)).(cells := s.cells[p.a.cell := Empty])
    case UndoEnd => Bump(To(s, t, Idle), p.a.side)
    case GiveUp => To(s, t, Idle)
    case BeginChange(cell, value) =>
      Bump(s, SideOf(cell)).(change := s.change[SideOf(cell) := Some(Change(cell, value, false))])
    case StoreChange(side) =>
      var c := s.change[side].value;
      s.(cells := s.cells[c.cell := c.value], change := s.change[side := Some(c.(stored := true))])
    case EndChange(side) => Bump(s, side).(change := s.change[side := None])
    case Release(side) => s.(lock := s.lock[side := None])
  }

  // ------------------------------------------------------------------
  // What every step keeps
  // ------------------------------------------------------------------

  // Which sequence numbers the thread has read so far.
  function PreOf(p: Phase): seq<nat> {
    match p
    case ReadOne(first) => [first]
    case ReadBoth(pre) => pre
    case Target(a, _) => a.pre
    case Locked(a, _) => a.pre
    case Making(a) => a.pre
    case Scanning(a, _) => a.pre
    case Chosen(a) => a.pre
    case Begun(a) => a.pre
    case Stored(a) => a.pre
    case Finished(a) => a.pre
    case UndoBegun(a) => a.pre
    case UndoStored(a) => a.pre
    case _ => []
  }

  // Sequence numbers only grow, and a thread holds the lock that its attempt needs.
  predicate ThreadOk(s: Pair, t: nat)
    requires Shaped(s) && t in s.threads
  {
    var p := s.threads[t].phase;
    && (HasAttempt(p) ==> AttemptShaped(p.a))
    && (p.ReadBoth? ==> |p.pre| == 2)
    && (forall b :: 0 <= b < |PreOf(p)| && b < 2 ==> PreOf(p)[b] <= s.seqNum[b])
    && (HasSide(p) ==> s.lock[p.a.side] == Some(t))
    && (p.Scanning? ==> p.next <= PAIR_CELLS && |p.a.seen| <= p.next)
    && ((p.Target? || p.Locked? || p.Making?) ==> p.a.seen == {})
    && (p.Chosen? || p.Begun? || p.Stored? || p.Finished? ==> p.a.color !in p.a.seen)
  }

  // The cell found unused is unused as long as nothing in its bucket changed; from the
  // validation on it stays so until the thread writes it.
  predicate CellFree(s: Pair, t: nat)
    requires Shaped(s) && t in s.threads && ThreadOk(s, t)
  {
    var p := s.threads[t].phase;
    && ((p.Target? || p.Locked?) && p.found && s.seqNum[p.a.side] == p.a.pre[p.a.side] ==>
          s.seqNum[p.a.side] % 2 == 0 ==> s.cells[p.a.cell] == Empty)
    && (p.Scanning? || p.Chosen? || p.Begun? ==> s.cells[p.a.cell] == Empty)
    && (p.Stored? || p.Finished? || p.UndoBegun? ==> s.cells[p.a.cell] == Ours(s.threads[t].id, p.a.color))
  }

  // How many cells the attempt has scanned.
  function Scanned(p: Phase): nat {
    if p.Scanning? then p.next else PAIR_CELLS
  }

  // The entry is being stored right now in the bucket that the attempt has not locked.
  ghost predicate BeingStored(s: Pair, id: nat, side: nat) {
    exists w :: w in s.threads && s.threads[w].id == id && s.threads[w].phase.Stored?
        && s.threads[w].phase.a.side == side
  }

  // As long as the other bucket's sequence number is what the attempt read, the colour
  // of every entry in a scanned cell was seen, but for one whose store is in progress.
  ghost predicate SawColors(s: Pair, t: nat)
    requires Shaped(s) && t in s.threads && ThreadOk(s, t)
  {
    var th := s.threads[t];
    InScan(th.phase) && s.seqNum[Alt(th.phase.a.side)] == th.phase.a.pre[Alt(th.phase.a.side)] ==>
      forall i {:trigger s.cells[i]} ::
        0 <= i < Scanned(th.phase) && i < PAIR_CELLS && s.cells[i].Ours? && s.cells[i].id != th.id ==>
          s.cells[i].color in th.phase.a.seen || BeingStored(s, s.cells[i].id, Alt(th.phase.a.side))
  }

  // An entry is committed, with its colour, or it is where its attempt put it.
  ghost predicate EntryKnown(s: Pair, i: nat)
    requires Shaped(s) && i < PAIR_CELLS
  {
    s.cells[i].Ours? ==>
      && s.cells[i].id < s.nextId
      && if s.cells[i].id in s.committed then s.committed[s.cells[i].id] == s.cells[i].color
         else exists w :: IsAddedBy(s, w, i)
  }

  ghost predicate IsAddedBy(s: Pair, w: nat, i: nat)
    requires Shaped(s) && i < PAIR_CELLS
  {
    w in s.threads && s.cells[i].Ours? && s.threads[w].id == s.cells[i].id
    && (s.threads[w].phase.Stored? || s.threads[w].phase.Finished? || s.threads[w].phase.UndoBegun?)
    && s.threads[w].phase.a.cell == i && s.threads[w].phase.a.color == s.cells[i].color
  }

  // A change in progress is its lock holder's, and one that puts an entry into a cell
  // rewrites what the cell holds, or has both buckets locked while the entry is in the pair.
  ghost predicate ChangeOk(s: Pair, b: nat)
    requires Shaped(s) && b < 2
  {
    s.change[b].Some? ==>
      && s.change[b].value.cell < PAIR_CELLS && SideOf(s.change[b].value.cell) == b
      && s.lock[b].Some? && s.lock[b].value in s.threads && MayChange(s.threads[s.lock[b].value].phase)
      && (s.change[b].value.value.Ours? && !s.change[b].value.stored ==>
            || s.cells[s.change[b].value.cell] == s.change[b].value.value
            || (s.lock[Alt(b)] == s.lock[b] && s.change[Alt(b)] == None
                && Present(s.cells, s.change[b].value.value.id, s.change[b].value.value.color)))
  }

  // The counter is odd exactly while a cell of the bucket is being written.
  ghost predicate ParityOk(s: Pair, b: nat)
    requires Shaped(s) && b < 2
  {
    s.seqNum[b] % 2 == 1 <==> s.change[b].Some? || exists w :: IsMidStore(s, w, b)
  }

  ghost predicate IsMidStore(s: Pair, w: nat, b: nat) {
    w in s.threads && MidStore(s.threads[w].phase) && s.threads[w].phase.a.side == b
  }

  predicate SameAttempt(t: Thread, u: Thread) {
    !t.phase.Idle? && !u.phase.Idle? && t.id == u.id
  }

  ghost predicate IdsOk(s: Pair) {
    && (forall t :: t in s.threads ==> s.threads[t].id < s.nextId)
    && (forall t :: t in s.threads && !s.threads[t].phase.Idle? ==> s.threads[t].id !in s.committed)
    && (forall t, u :: t in s.threads && u in s.threads && SameAttempt(s.threads[t], s.threads[u]) ==> t == u)
    && (forall id :: id in s.committed ==> id < s.nextId)
  }

  // The entry's add returned SI_OK, and the entry is still in the pair.
  predicate CommittedHere(s: Pair, id: nat) {
    id in s.committed && Present(s.cells, id, s.committed[id])
  }

  // No two committed entries of the pair have the same colour.
  ghost predicate ColorsUnique(s: Pair) {
    forall id, id' :: CommittedHere(s, id) && CommittedHere(s, id') && id != id' ==> s.committed[id] != s.committed[id']
  }

  ghost predicate Inv(s: Pair) {
    && Shaped(s) && IdsOk(s)
    && (forall t {:trigger ThreadOk(s, t)} :: t in s.threads ==> ThreadOk(s, t))
    && (forall t {:trigger CellFree(s, t)} :: t in s.threads ==> CellFree(s, t))
    && (forall t {:trigger SawColors(s, t)} :: t in s.threads ==> SawColors(s, t))
    && (forall i {:trigger EntryKnown(s, i)} :: 0 <= i < PAIR_CELLS ==> EntryKnown(s, i))
    && ChangeOk(s, 0) && ChangeOk(s, 1) && ParityOk(s, 0) && ParityOk(s, 1)
    && ColorsUnique(s)
  }

  // ------------------------------------------------------------------
  // One step
  // ------------------------------------------------------------------

  // What all steps have in common. Other threads stay as they are; an attempt keeps its
  // number, which is committed when the attempt ends; locks are taken when free and
  // released by their holder; sequence numbers grow; and only the lock holder stores
  // to a bucket, while its sequence number is odd.
  ghost predicate Effect(s: Pair, t: nat, s': Pair)
    requires Shaped(s) && t in s.threads
  {
    Shaped(s') && ThreadEffect(s, t, s') && BucketEffect(s, t, s')
  }

  ghost predicate ThreadEffect(s: Pair, t: nat, s': Pair)
    requires t in s.threads
  {
    && s'.threads.Keys == s.threads.Keys
    && (forall u :: u in s.threads && u != t ==> s'.threads[u] == s.threads[u])
    && (if s'.threads[t].id == s.threads[t].id
        then s'.nextId == s.nextId && (s.threads[t].phase.Idle? ==> s'.threads[t].phase.Idle?)
        else s.threads[t].phase.Idle? && s'.threads[t] == Thread(s.nextId, Start) && s'.nextId == s.nextId + 1)
    && (s'.committed == s.committed
        || (s.threads[t].phase.Finished? && s'.threads[t] == s.threads[t].(phase := Idle)
            && s'.committed == s.committed[s.threads[t].id := s.threads[t].phase.a.color]))
  }

  ghost predicate BucketEffect(s: Pair, t: nat, s': Pair)
    requires Shaped(s) && Shaped(s')
  {
    && LockStep(s, t, s', 0) && LockStep(s, t, s', 1) && SeqStep(s, s', 0) && SeqStep(s, s', 1)
    && forall i :: 0 <= i < PAIR_CELLS && s'.cells[i] != s.cells[i] ==>
         s.lock[SideOf(i)] == Some(t) && s.seqNum[SideOf(i)] % 2 == 1 && s'.seqNum == s.seqNum
  }

  predicate SeqStep(s: Pair, s': Pair, b: nat)
    requires Shaped(s) && Shaped(s') && b < 2
  {
    s'.seqNum[b] == s.seqNum[b] || s'.seqNum[b] == s.seqNum[b] + 1
  }

  predicate LockStep(s: Pair, t: nat, s': Pair, b: nat)
    requires Shaped(s) && Shaped(s') && b < 2
  {
    s'.lock[b] == s.lock[b] || (s.lock[b] == None && s'.lock[b] == Some(t))
        || (s.lock[b] == Some(t) && s'.lock[b] == None)
  }

  lemma {:induction false} StepThreads(s: Pair, t: nat, a: Action)
    requires Enabled(s, t, a) && s.threads[t].id < s.nextId
    ensures Shaped(Do(s, t, a)) && ThreadEffect(s, t, Do(s, t, a))
  {
    if IsChange(a) {
      ThreadsByChange(s, t, a);
    } else if IsStore(a) {
      ThreadsByStore(s, t, a);
    } else {
      ThreadsByOther(s, t, a);
    }
  }

  lemma {:induction false} ThreadsByChange(s: Pair, t: nat, a: Action)
    requires Enabled(s, t, a) && s.threads[t].id < s.nextId
    requires IsChange(a)
    ensures Shaped(Do(s, t, a)) && ThreadEffect(s, t, Do(s, t, a))
  {
  }

  lemma {:induction false} ThreadsByStore(s: Pair, t: nat, a: Action)
    requires Enabled(s, t, a) && s.threads[t].id < s.nextId
    requires !(IsChange(a)) && IsStore(a)
    ensures Shaped(Do(s, t, a)) && ThreadEffect(s, t, Do(s, t, a))
  {
  }

  lemma {:induction false} ThreadsByOther(s: Pair, t: nat, a: Action)
    requires Enabled(s, t, a) && s.threads[t].id < s.nextId
    requires !(IsChange(a)) && !(IsStore(a))
    ensures Shaped(Do(s, t, a)) && ThreadEffect(s, t, Do(s, t, a))
  {
  }

  lemma {:induction false} StepBuckets(s: Pair, t: nat, a: Action)
    requires Enabled(s, t, a) && ThreadOk(s, t)
    requires MidStore(s.threads[t].phase) ==> s.seqNum[s.threads[t].phase.a.side] % 2 == 1
    requires forall b :: 0 <= b < 2 && s.change[b].Some? ==>
               s.seqNum[b] % 2 == 1 && s.change[b].value.cell < PAIR_CELLS && SideOf(s.change[b].value.cell) == b
    ensures Shaped(Do(s, t, a)) && BucketEffect(s, t, Do(s, t, a))
  {
    if IsChange(a) {
      BucketsByChange(s, t, a);
    } else if IsStore(a) {
      BucketsByStore(s, t, a);
    } else {
      BucketsByOther(s, t, a);
    }
  }

  lemma {:induction false} BucketsByChange(s: Pair, t: nat, a: Action)
    requires Enabled(s, t, a) && ThreadOk(s, t)
    requires MidStore(s.threads[t].phase) ==> s.seqNum[s.threads[t].phase.a.side] % 2 == 1
    requires forall b :: 0 <= b < 2 && s.change[b].Some? ==>
               s.seqNum[b] % 2 == 1 && s.change[b].value.cell < PAIR_CELLS && SideOf(s.change[b].value.cell) == b
    requires IsChange(a)
    ensures Shaped(Do(s, t, a)) && BucketEffect(s, t, Do(s, t, a))
  {
  }

  lemma {:induction false} BucketsByStore(s: Pair, t: nat, a: Action)
    requires Enabled(s, t, a) && ThreadOk(s, t)
    requires MidStore(s.threads[t].phase) ==> s.seqNum[s.threads[t].phase.a.side] % 2 == 1
    requires forall b :: 0 <= b < 2 && s.change[b].Some? ==>
               s.seqNum[b] % 2 == 1 && s.change[b].value.cell < PAIR_CELLS && SideOf(s.change[b].value.cell) == b
    requires !(IsChange(a)) && IsStore(a)
    ensures Shaped(Do(s, t, a)) && BucketEffect(s, t, Do(s, t, a))
  {
  }

  lemma {:induction false} BucketsByOther(s: Pair, t: nat, a: Action)
    requires Enabled(s, t, a) && ThreadOk(s, t)
    requires MidStore(s.threads[t].phase) ==> s.seqNum[s.threads[t].phase.a.side] % 2 == 1
    requires forall b :: 0 <= b < 2 && s.change[b].Some? ==>
               s.seqNum[b] % 2 == 1 && s.change[b].value.cell < PAIR_CELLS && SideOf(s.change[b].value.cell) == b
    requires !(IsChange(a)) && !(IsStore(a))
    ensures Shaped(Do(s, t, a)) && BucketEffect(s, t, Do(s, t, a))
  {
  }

  lemma {:induction false} StepEffect(s: Pair, t: nat, a: Action)
    requires Inv(s) && Enabled(s, t, a)
    ensures Effect(s, t, Do(s, t, a))
  {
    hide CellFree, SawColors, EntryKnown, ColorsUnique, Do, Possible;
    assert ThreadOk(s, t);
    if MidStore(s.threads[t].phase) {
      assert IsMidStore(s, t, s.threads[t].phase.a.side);
    }
    StepThreads(s, t, a);
    StepBuckets(s, t, a);
  }

  lemma {:induction false} StepIds(s: Pair, t: nat, a: Action)
    requires Inv(s) && Enabled(s, t, a)
    ensures IdsOk(Do(s, t, a))
  {
    hide ThreadOk, CellFree, SawColors, EntryKnown, ChangeOk, ParityOk, ColorsUnique, Do, HasAttempt, Possible, SideOf;
    StepEffect(s, t, a);
  }

  // The thread that makes the step.
  lemma {:induction false} StepSelf(s: Pair, t: nat, a: Action)
    requires Enabled(s, t, a) && ThreadOk(s, t)
    ensures Shaped(Do(s, t, a)) && t in Do(s, t, a).threads && ThreadOk(Do(s, t, a), t)
  {
    if IsChange(a) {
      SelfByChange(s, t, a);
    } else if IsStore(a) {
      SelfByStore(s, t, a);
    } else if a.ScanNext? || a.ChooseColor? || a.PickFreed? || a.Validate? {
      SelfByScan(s, t, a);
    } else {
      SelfByOther(s, t, a);
    }
  }

  lemma {:induction false} SelfByChange(s: Pair, t: nat, a: Action)
    requires Enabled(s, t, a) && ThreadOk(s, t) && IsChange(a)
    ensures Shaped(Do(s, t, a)) && t in Do(s, t, a).threads && ThreadOk(Do(s, t, a), t)
  {
  }

  lemma {:induction false} SelfByStore(s: Pair, t: nat, a: Action)
    requires Enabled(s, t, a) && ThreadOk(s, t) && IsStore(a)
    ensures Shaped(Do(s, t, a)) && t in Do(s, t, a).threads && ThreadOk(Do(s, t, a), t)
  {
    if a.BeginStore? || a.StoreHeader? || a.EndStore? {
      SelfByWrite(s, t, a);
    } else {
      SelfByUndo(s, t, a);
    }
  }

  lemma {:induction false} SelfByWrite(s: Pair, t: nat, a: Action)
    requires Enabled(s, t, a) && ThreadOk(s, t) && IsStore(a)
    requires (a.BeginStore? || a.StoreHeader? || a.EndStore?)
    ensures Shaped(Do(s, t, a)) && t in Do(s, t, a).threads && ThreadOk(Do(s, t, a), t)
  {
  }

  lemma {:induction false} SelfByUndo(s: Pair, t: nat, a: Action)
    requires Enabled(s, t, a) && ThreadOk(s, t) && IsStore(a)
    requires !(a.BeginStore? || a.StoreHeader? || a.EndStore?)
    ensures Shaped(Do(s, t, a)) && t in Do(s, t, a).threads && ThreadOk(Do(s, t, a), t)
  {
  }

  lemma {:induction false} SelfByScan(s: Pair, t: nat, a: Action)
    requires Enabled(s, t, a) && ThreadOk(s, t) && (a.ScanNext? || a.ChooseColor? || a.PickFreed? || a.Validate?)
    ensures Shaped(Do(s, t, a)) && t in Do(s, t, a).threads && ThreadOk(Do(s, t, a), t)
  {
    if a.ScanNext? {
      SeenGrowsByOne(s.threads[t].phase.a.seen, s.cells[s.threads[t].phase.next]);
    }
  }

  lemma {:induction false} SelfByOther(s: Pair, t: nat, a: Action)
    requires Enabled(s, t, a) && ThreadOk(s, t) && !IsChange(a) && !IsStore(a)
    requires !(a.ScanNext? || a.ChooseColor? || a.PickFreed? || a.Validate?)
    ensures Shaped(Do(s, t, a)) && t in Do(s, t, a).threads && ThreadOk(Do(s, t, a), t)
  {
    if a.TakeLock? || a.Release? || a.GiveUp? {
      SelfByLock(s, t, a);
    } else {
      SelfByStart(s, t, a);
    }
  }

  lemma {:induction false} SelfByLock(s: Pair, t: nat, a: Action)
    requires Enabled(s, t, a) && ThreadOk(s, t) && !IsChange(a) && !IsStore(a)
    requires !(a.ScanNext? || a.ChooseColor? || a.PickFreed? || a.Validate?)
    requires (a.TakeLock? || a.Release? || a.GiveUp?)
    ensures Shaped(Do(s, t, a)) && t in Do(s, t, a).threads && ThreadOk(Do(s, t, a), t)
  {
  }

  lemma {:induction false} SelfByStart(s: Pair, t: nat, a: Action)
    requires Enabled(s, t, a) && ThreadOk(s, t) && !IsChange(a) && !IsStore(a)
    requires !(a.ScanNext? || a.ChooseColor? || a.PickFreed? || a.Validate?)
    requires !(a.TakeLock? || a.Release? || a.GiveUp?)
    ensures Shaped(Do(s, t, a)) && t in Do(s, t, a).threads && ThreadOk(Do(s, t, a), t)
  {
  }

  lemma {:induction false} StepThread(s: Pair, t: nat, a: Action, u: nat)
    requires Inv(s) && Enabled(s, t, a) && u in s.threads
    ensures Shaped(Do(s, t, a)) && u in Do(s, t, a).threads && ThreadOk(Do(s, t, a), u)
  {
    hide CellFree, SawColors, EntryKnown, ChangeOk, ParityOk, ColorsUnique, IdsOk, Do, Possible;
    assert ThreadOk(s, t);
    StepSelf(s, t, a);
    StepEffect(s, t, a);
    assert ThreadOk(s, u);
  }

  lemma {:induction false} StepFreeSelf(s: Pair, t: nat, a: Action)
    requires Inv(s) && Enabled(s, t, a)
    ensures Shaped(Do(s, t, a)) && t in Do(s, t, a).threads && ThreadOk(Do(s, t, a), t) && CellFree(Do(s, t, a), t)
  {
    hide SawColors, EntryKnown, ChangeOk, ParityOk, ColorsUnique, IdsOk, ThreadOk;
    assert ThreadOk(s, t) && CellFree(s, t);
    StepSelf(s, t, a);
    if a.Validate? {
      OwnBucketIsStill(s, t);
    }
  }

  lemma {:induction false} StepFree(s: Pair, t: nat, a: Action, u: nat)
    requires Inv(s) && Enabled(s, t, a) && u in s.threads
    ensures Shaped(Do(s, t, a)) && u in Do(s, t, a).threads && ThreadOk(Do(s, t, a), u) && CellFree(Do(s, t, a), u)
  {
    hide Do, IdsOk, Possible;
    StepFreeSelf(s, t, a);
    StepThread(s, t, a, u);
    hide SawColors, EntryKnown, ChangeOk, ParityOk, ColorsUnique, IdsOk, Do;
    StepEffect(s, t, a);
    assert ThreadOk(s, u) && CellFree(s, u);
  }

  // While a thread that is not changing cells holds a lock, the bucket is not written.
  lemma {:induction false} OwnBucketIsStill(s: Pair, t: nat)
    requires Inv(s) && t in s.threads && s.threads[t].phase.Locked?
    ensures Shaped(s) && ThreadOk(s, t) && s.seqNum[s.threads[t].phase.a.side] % 2 == 0
  {
    hide CellFree, SawColors, EntryKnown, ColorsUnique, IdsOk;
    assert ThreadOk(s, t);
    var b := s.threads[t].phase.a.side;
    assert forall w :: w in s.threads ==> ThreadOk(s, w);
    assert ChangeOk(s, b) && ParityOk(s, b);
  }

  // What the stores put into a cell.
  lemma {:induction false} StoredValue(s: Pair, t: nat, a: Action, i: nat)
    requires Inv(s) && Enabled(s, t, a) && i < PAIR_CELLS && Do(s, t, a).cells[i] != s.cells[i]
             && Do(s, t, a).cells[i].Ours?
    ensures ThreadOk(s, t) && Shaped(Do(s, t, a))
    ensures var v := Do(s, t, a).cells[i];
            || (a.StoreHeader? && s.threads[t].phase.Begun? && i == s.threads[t].phase.a.cell
                && v == Ours(s.threads[t].id, s.threads[t].phase.a.color)
                && Do(s, t, a).threads[t] == s.threads[t].(phase := Stored(s.threads[t].phase.a)))
            || (a.StoreChange? && MayChange(s.threads[t].phase) && v.id in s.committed && s.committed[v.id] == v.color
                && v.id < s.nextId && s.lock == [Some(t), Some(t)] && Present(s.cells, v.id, v.color))
  {
    hide CellFree, SawColors, ParityOk, ColorsUnique, ThreadOk, IdsOk;
    assert ThreadOk(s, t);
    if a.StoreChange? {
      assert ChangeOk(s, a.side);
      assert i == s.change[a.side].value.cell;
      MovedIsCommitted(s, t, a.side);
    }
  }

  lemma {:induction false} StepKnown(s: Pair, t: nat, a: Action, i: nat)
    requires Inv(s) && Enabled(s, t, a) && i < PAIR_CELLS
    ensures Shaped(Do(s, t, a)) && EntryKnown(Do(s, t, a), i)
  {
    hide SawColors;
    var s' := Do(s, t, a);
    if s'.cells[i] == s.cells[i] {
      KnownStays(s, t, a, i);
    } else if s'.cells[i].Ours? {
      hide SawColors, ParityOk, ColorsUnique, Do;
      StepEffect(s, t, a);
      StoredValue(s, t, a, i);
      if a.StoreHeader? {
        assert IsAddedBy(s', t, i);
      }
    }
  }

  lemma {:induction false} KnownStays(s: Pair, t: nat, a: Action, i: nat)
    requires Inv(s) && Enabled(s, t, a) && i < PAIR_CELLS && Do(s, t, a).cells[i] == s.cells[i]
    ensures Shaped(Do(s, t, a)) && EntryKnown(Do(s, t, a), i)
  {
    hide SawColors, ParityOk, ColorsUnique, ChangeOk, Do, Possible, CellFree;
    StepEffect(s, t, a);
    var s' := Do(s, t, a);
    assert ThreadOk(s, t) && EntryKnown(s, i);
    if s.cells[i].Ours? && s.cells[i].id !in s.committed && s.cells[i].id !in s'.committed {
      var w :| IsAddedBy(s, w, i);
      if w == t {
        AdderStays(s, t, a, i);
      }
      assert IsAddedBy(s', w, i);
    }
  }

  lemma {:induction false} AdderStays(s: Pair, t: nat, a: Action, i: nat)
    requires Enabled(s, t, a) && ThreadOk(s, t) && i < PAIR_CELLS && IsAddedBy(s, t, i)
    requires Do(s, t, a).cells[i] == s.cells[i] && s.cells[i].id !in Do(s, t, a).committed
    ensures Shaped(Do(s, t, a)) && IsAddedBy(Do(s, t, a), t, i)
  {
  }

  // Only committed entries are moved: an entry whose attempt is not finished is in a
  // bucket that its thread has locked.
  lemma {:induction false} MovedIsCommitted(s: Pair, t: nat, b: nat)
    requires Inv(s) && b < 2 && IsMove(s, b)
    ensures var v := s.change[b].value.value; v.id in s.committed && s.committed[v.id] == v.color && v.id < s.nextId
  {
    var v := s.change[b].value.value;
    assert ChangeOk(s, b);
    var i: nat :| i < |s.cells| && s.cells[i] == Ours(v.id, v.color);
    assert EntryKnown(s, i);
    assert forall w :: w in s.threads ==> ThreadOk(s, w);
  }

  lemma {:induction false} StepChange(s: Pair, t: nat, a: Action, b: nat)
    requires Inv(s) && Enabled(s, t, a) && b < 2
    ensures Shaped(Do(s, t, a)) && ChangeOk(Do(s, t, a), b)
  {
    hide CellFree, SawColors, EntryKnown, ColorsUnique, IdsOk, ParityOk, Do, Possible;
    StepEffect(s, t, a);
    assert ThreadOk(s, t) && ChangeOk(s, b) && ChangeOk(s, Alt(b));
    StillPresent(s, t, Do(s, t, a), b);
    ChangeByStep(s, t, a, b);
  }

  // While an entry is being moved, it is not lost.
  lemma {:induction false} StillPresent(s: Pair, t: nat, s': Pair, b: nat)
    requires Shaped(s) && t in s.threads && Effect(s, t, s') && b < 2 && ChangeOk(s, b) && ChangeOk(s, Alt(b))
    ensures IsMove(s, b) && (s.lock[b] != Some(t) || s'.cells == s.cells) ==>
              Present(s'.cells, s.change[b].value.value.id, s.change[b].value.value.color)
  {
    if IsMove(s, b) {
      var v := s.change[b].value.value;
      var i :| 0 <= i < |s.cells| && s.cells[i] == Ours(v.id, v.color);
      if s.lock[b] != Some(t) || s'.cells == s.cells {
        assert s'.cells[i] == Ours(v.id, v.color);
      }
    }
  }

  // An entry is about to be put into a cell that does not hold it.
  predicate IsMove(s: Pair, b: nat)
    requires Shaped(s) && b < 2
  {
    s.change[b].Some? && s.change[b].value.value.Ours? && !s.change[b].value.stored
    && s.change[b].value.cell < PAIR_CELLS && s.cells[s.change[b].value.cell] != s.change[b].value.value
  }

  lemma {:induction false} ChangeByStep(s: Pair, t: nat, a: Action, b: nat)
    requires Enabled(s, t, a) && ThreadOk(s, t) && b < 2 && ChangeOk(s, b) && ChangeOk(s, Alt(b))
    requires Effect(s, t, Do(s, t, a))
    requires IsMove(s, b) && (s.lock[b] != Some(t) || Do(s, t, a).cells == s.cells) ==>
               Present(Do(s, t, a).cells, s.change[b].value.value.id, s.change[b].value.value.color)
    ensures ChangeOk(Do(s, t, a), b)
  {
    if IsChange(a) {
      ChangeByChange(s, t, a, b);
    } else if IsStore(a) {
      ChangeByStore(s, t, a, b);
    } else {
      ChangeByOther(s, t, a, b);
    }
  }

  lemma {:induction false} ChangeByChange(s: Pair, t: nat, a: Action, b: nat)
    requires Enabled(s, t, a) && b < 2 && ChangeOk(s, b) && ChangeOk(s, Alt(b)) && IsChange(a)
    requires IsMove(s, b) && (s.lock[b] != Some(t) || Do(s, t, a).cells == s.cells) ==>
               Present(Do(s, t, a).cells, s.change[b].value.value.id, s.change[b].value.value.color)
    ensures Shaped(Do(s, t, a)) && ChangeOk(Do(s, t, a), b)
  {
    hide Present, IsMove;
  }

  lemma {:induction false} ChangeByStore(s: Pair, t: nat, a: Action, b: nat)
    requires Enabled(s, t, a) && ThreadOk(s, t) && b < 2 && ChangeOk(s, b) && IsStore(a)
    requires IsMove(s, b) && (s.lock[b] != Some(t) || Do(s, t, a).cells == s.cells) ==>
               Present(Do(s, t, a).cells, s.change[b].value.value.id, s.change[b].value.value.color)
    ensures Shaped(Do(s, t, a)) && ChangeOk(Do(s, t, a), b)
  {
    hide Present, IsMove, Settled;
  }

  lemma {:induction false} ChangeByOther(s: Pair, t: nat, a: Action, b: nat)
    requires Enabled(s, t, a) && ThreadOk(s, t) && b < 2 && ChangeOk(s, b) && !IsChange(a) && !IsStore(a)
    requires IsMove(s, b) ==> Present(Do(s, t, a).cells, s.change[b].value.value.id, s.change[b].value.value.color)
    ensures Shaped(Do(s, t, a)) && ChangeOk(Do(s, t, a), b)
  {
    if a.TakeLock? || a.Release? {
      ChangeByLock(s, t, a, b);
    } else {
      ChangeByNothing(s, t, a, b);
    }
  }

  lemma {:induction false} ChangeByLock(s: Pair, t: nat, a: Action, b: nat)
    requires Enabled(s, t, a) && ThreadOk(s, t) && b < 2 && ChangeOk(s, b) && !IsChange(a) && !IsStore(a)
    requires IsMove(s, b) ==> Present(Do(s, t, a).cells, s.change[b].value.value.id, s.change[b].value.value.color)
    requires a.TakeLock? || a.Release?
    ensures Shaped(Do(s, t, a)) && ChangeOk(Do(s, t, a), b)
  {
    hide Present, ThreadOk;
    OtherKeepsCells(s, t, a);
  }

  lemma {:induction false} ChangeByNothing(s: Pair, t: nat, a: Action, b: nat)
    requires Enabled(s, t, a) && ThreadOk(s, t) && b < 2 && ChangeOk(s, b) && !IsChange(a) && !IsStore(a)
    requires IsMove(s, b) ==> Present(Do(s, t, a).cells, s.change[b].value.value.id, s.change[b].value.value.color)
    requires !(a.TakeLock? || a.Release?)
    ensures Shaped(Do(s, t, a)) && ChangeOk(Do(s, t, a), b)
  {
    hide Present, ThreadOk;
    OtherKeepsCells(s, t, a);
  }

  lemma {:induction false} OtherKeepsCells(s: Pair, t: nat, a: Action)
    requires Enabled(s, t, a) && !IsChange(a) && !IsStore(a)
    ensures Do(s, t, a).cells == s.cells
  {
  }

  // The thread is writing to a cell of the bucket.
  predicate Busy(s: Pair, t: nat, b: nat)
    requires Shaped(s) && b < 2 && t in s.threads
  {
    (MidStore(s.threads[t].phase) && s.threads[t].phase.a.side == b) || (s.change[b].Some? && s.lock[b] == Some(t))
  }

  // A step advances the sequence number exactly when its thread begins or ends a write.
  ghost predicate Toggles(s: Pair, t: nat, s': Pair, b: nat)
    requires Shaped(s) && Shaped(s') && b < 2 && t in s.threads && t in s'.threads
  {
    && s'.seqNum[b] == (if Busy(s', t, b) != Busy(s, t, b) then s.seqNum[b] + 1 else s.seqNum[b])
    && (s'.change[b] != s.change[b] || Busy(s', t, b) || Busy(s, t, b) ==>
         s.lock[b] == Some(t) && s'.lock[b] == Some(t))
  }

  lemma {:induction false} StepToggles(s: Pair, t: nat, a: Action, b: nat)
    requires Enabled(s, t, a) && ThreadOk(s, t) && b < 2
    requires s.change[b].Some? ==> s.lock[b].Some? && (s.lock[b].value == t ==> MayChange(s.threads[t].phase))
    ensures Shaped(Do(s, t, a)) && t in Do(s, t, a).threads && Toggles(s, t, Do(s, t, a), b)
  {
    if IsChange(a) {
      TogglesByChange(s, t, a, b);
    } else if IsStore(a) {
      TogglesByStore(s, t, a, b);
    } else {
      TogglesByOther(s, t, a, b);
    }
  }

  lemma {:induction false} TogglesByChange(s: Pair, t: nat, a: Action, b: nat)
    requires Enabled(s, t, a) && ThreadOk(s, t) && b < 2 && IsChange(a)
    requires s.change[b].Some? ==> s.lock[b].Some? && (s.lock[b].value == t ==> MayChange(s.threads[t].phase))
    ensures Shaped(Do(s, t, a)) && t in Do(s, t, a).threads && Toggles(s, t, Do(s, t, a), b)
  {
  }

  lemma {:induction false} TogglesByStore(s: Pair, t: nat, a: Action, b: nat)
    requires Enabled(s, t, a) && ThreadOk(s, t) && b < 2 && IsStore(a)
    requires s.change[b].Some? ==> s.lock[b].Some? && (s.lock[b].value == t ==> MayChange(s.threads[t].phase))
    ensures Shaped(Do(s, t, a)) && t in Do(s, t, a).threads && Toggles(s, t, Do(s, t, a), b)
  {
    if a.BeginStore? || a.StoreHeader? || a.EndStore? {
      TogglesByWrite(s, t, a, b);
    } else {
      TogglesByUndo(s, t, a, b);
    }
  }

  lemma {:induction false} TogglesByWrite(s: Pair, t: nat, a: Action, b: nat)
    requires Enabled(s, t, a) && ThreadOk(s, t) && b < 2 && IsStore(a)
    requires s.change[b].Some? ==> s.lock[b].Some? && (s.lock[b].value == t ==> MayChange(s.threads[t].phase))
    requires a.BeginStore? || a.StoreHeader? || a.EndStore?
    ensures Shaped(Do(s, t, a)) && t in Do(s, t, a).threads && Toggles(s, t, Do(s, t, a), b)
  {
  }

  lemma {:induction false} TogglesByUndo(s: Pair, t: nat, a: Action, b: nat)
    requires Enabled(s, t, a) && ThreadOk(s, t) && b < 2 && IsStore(a)
    requires s.change[b].Some? ==> s.lock[b].Some? && (s.lock[b].value == t ==> MayChange(s.threads[t].phase))
    requires !(a.BeginStore? || a.StoreHeader? || a.EndStore?)
    ensures Shaped(Do(s, t, a)) && t in Do(s, t, a).threads && Toggles(s, t, Do(s, t, a), b)
  {
  }

  lemma {:induction false} TogglesByOther(s: Pair, t: nat, a: Action, b: nat)
    requires Enabled(s, t, a) && ThreadOk(s, t) && b < 2 && !IsChange(a) && !IsStore(a)
    requires s.change[b].Some? ==> s.lock[b].Some? && (s.lock[b].value == t ==> MayChange(s.threads[t].phase))
    ensures Shaped(Do(s, t, a)) && t in Do(s, t, a).threads && Toggles(s, t, Do(s, t, a), b)
  {
    if a.TakeLock? || a.Release? {
      TogglesByLock(s, t, a, b);
    } else {
      TogglesByNothing(s, t, a, b);
    }
  }

  lemma {:induction false} TogglesByLock(s: Pair, t: nat, a: Action, b: nat)
    requires Enabled(s, t, a) && ThreadOk(s, t) && b < 2 && !IsChange(a) && !IsStore(a)
    requires s.change[b].Some? ==> s.lock[b].Some? && (s.lock[b].value == t ==> MayChange(s.threads[t].phase))
    requires (a.TakeLock? || a.Release?)
    ensures Shaped(Do(s, t, a)) && t in Do(s, t, a).threads && Toggles(s, t, Do(s, t, a), b)
  {
  }

  lemma {:induction false} TogglesByNothing(s: Pair, t: nat, a: Action, b: nat)
    requires Enabled(s, t, a) && ThreadOk(s, t) && b < 2 && !IsChange(a) && !IsStore(a)
    requires s.change[b].Some? ==> s.lock[b].Some? && (s.lock[b].value == t ==> MayChange(s.threads[t].phase))
    requires !(a.TakeLock? || a.Release?)
    ensures Shaped(Do(s, t, a)) && t in Do(s, t, a).threads && Toggles(s, t, Do(s, t, a), b)
  {
    NothingStored(s, t, a);
    hide Do, Possible;
  }

  lemma {:induction false} NothingStored(s: Pair, t: nat, a: Action)
    requires Enabled(s, t, a) && !IsChange(a) && !IsStore(a) && !(a.TakeLock? || a.Release?)
    ensures var s' := Do(s, t, a);
            && Shaped(s') && t in s'.threads && s'.lock == s.lock && s'.seqNum == s.seqNum && s'.change == s.change
            && !MidStore(s.threads[t].phase) && !MidStore(s'.threads[t].phase)
  {
  }

  // Only the lock holder writes to a bucket.
  lemma {:induction false} BusyHolds(s: Pair, w: nat, b: nat)
    requires Inv(s) && b < 2 && w in s.threads && Busy(s, w, b)
    ensures s.lock[b] == Some(w)
  {
    assert ThreadOk(s, w);
  }

  lemma {:induction false} ParityByHolder(s: Pair, b: nat)
    requires Inv(s) && b < 2
    ensures s.lock[b].Some? && s.lock[b].value in s.threads ==> (s.seqNum[b] % 2 == 1 <==> Busy(s, s.lock[b].value, b))
    ensures s.lock[b] == None || s.lock[b].value !in s.threads ==> s.seqNum[b] % 2 == 0
  {
    hide CellFree, SawColors, EntryKnown, ColorsUnique, IdsOk;
    assert ChangeOk(s, b) && ParityOk(s, b);
    if exists w :: IsMidStore(s, w, b) {
      var w :| IsMidStore(s, w, b);
      BusyHolds(s, w, b);
    }
    if s.lock[b].Some? && s.lock[b].value in s.threads && MidStore(s.threads[s.lock[b].value].phase)
       && s.threads[s.lock[b].value].phase.a.side == b {
      assert IsMidStore(s, s.lock[b].value, b);
    }
  }

  lemma {:induction false} StepParity(s: Pair, t: nat, a: Action, b: nat)
    requires Inv(s) && Enabled(s, t, a) && b < 2
    ensures Shaped(Do(s, t, a)) && ParityOk(Do(s, t, a), b)
  {
    hide CellFree, SawColors, EntryKnown, ColorsUnique, IdsOk, Do, Possible;
    assert ThreadOk(s, t) && ChangeOk(s, b);
    StepEffect(s, t, a);
    StepToggles(s, t, a, b);
    ParityByHolder(s, b);
    var s' := Do(s, t, a);
    assert s.change[b].Some? ==> Busy(s, s.lock[b].value, b);
    if Busy(s', t, b) && !s'.change[b].Some? {
      assert IsMidStore(s', t, b);
    }
    if exists w :: IsMidStore(s', w, b) {
      var w :| IsMidStore(s', w, b);
      assert w != t ==> Busy(s, w, b);
      if w != t {
        BusyHolds(s, w, b);
      }
    }
    if s.lock[b].Some? && s.lock[b].value in s.threads && s.lock[b].value != t && Busy(s, s.lock[b].value, b) {
      assert s'.change[b].Some? || IsMidStore(s', s.lock[b].value, b);
    }
  }

  lemma {:induction false} StepSaw(s: Pair, t: nat, a: Action, u: nat)
    requires Inv(s) && Enabled(s, t, a) && u in s.threads
    ensures Shaped(Do(s, t, a)) && u in Do(s, t, a).threads && ThreadOk(Do(s, t, a), u) && SawColors(Do(s, t, a), u)
  {
    StepThread(s, t, a, u);
    hide CellFree, EntryKnown, ColorsUnique, ParityOk, ChangeOk, IdsOk, Do;
    StepEffect(s, t, a);
    var s' := Do(s, t, a);
    assert ThreadOk(s, u);
    var th := s'.threads[u];
    if InScan(th.phase) && s'.seqNum[Alt(th.phase.a.side)] == th.phase.a.pre[Alt(th.phase.a.side)] {
      forall i | 0 <= i < Scanned(th.phase) && i < PAIR_CELLS && s'.cells[i].Ours? && s'.cells[i].id != th.id
        ensures s'.cells[i].color in th.phase.a.seen || BeingStored(s', s'.cells[i].id, Alt(th.phase.a.side))
      {
        StepSawCell(s, t, a, u, i);
      }
    }
  }

  lemma {:induction false} StepSawCell(s: Pair, t: nat, a: Action, u: nat, i: nat)
    requires Inv(s) && Enabled(s, t, a) && u in s.threads && Shaped(Do(s, t, a)) && u in Do(s, t, a).threads
    requires ThreadOk(s, u) && ThreadOk(Do(s, t, a), u)
    requires var s' := Do(s, t, a); var th := s'.threads[u];
             && InScan(th.phase) && s'.seqNum[Alt(th.phase.a.side)] == th.phase.a.pre[Alt(th.phase.a.side)]
             && i < Scanned(th.phase) && i < PAIR_CELLS && s'.cells[i].Ours? && s'.cells[i].id != th.id
    ensures var s' := Do(s, t, a); var th := s'.threads[u];
            s'.cells[i].color in th.phase.a.seen || BeingStored(s', s'.cells[i].id, Alt(th.phase.a.side))
  {
    hide Inv, ThreadOk, InScan, HasAttempt;
    var s' := Do(s, t, a);
    if s'.cells[i] != s.cells[i] {
      SawNewCell(s, t, a, u, i);
    } else if u == t {
      SawSelf(s, t, a, i);
    } else {
      SawOther(s, t, a, u, i);
    }
  }

  // An entry that is stored behind the back of a scan is being stored in the bucket that
  // is not locked.
  lemma {:induction false} SawNewCell(s: Pair, t: nat, a: Action, u: nat, i: nat)
    requires Inv(s) && Enabled(s, t, a) && u in s.threads && Shaped(Do(s, t, a)) && u in Do(s, t, a).threads
    requires i < PAIR_CELLS && Do(s, t, a).cells[i].Ours? && Do(s, t, a).cells[i] != s.cells[i]
    requires InScan(Do(s, t, a).threads[u].phase) && Do(s, t, a).cells[i].id != Do(s, t, a).threads[u].id
    ensures BeingStored(Do(s, t, a), Do(s, t, a).cells[i].id, Alt(Do(s, t, a).threads[u].phase.a.side))
  {
    hide CellFree, SawColors, EntryKnown, ParityOk, ChangeOk, ColorsUnique, IdsOk;
    StepEffect(s, t, a);
    StoredValue(s, t, a, i);
    assert ThreadOk(s, t) && ThreadOk(s, u);
  }

  lemma {:induction false} SawSelf(s: Pair, t: nat, a: Action, i: nat)
    requires Inv(s) && Enabled(s, t, a) && Shaped(Do(s, t, a)) && t in Do(s, t, a).threads
    requires ThreadOk(s, t) && ThreadOk(Do(s, t, a), t)
    requires var s' := Do(s, t, a); var th := s'.threads[t];
             && InScan(th.phase) && s'.seqNum[Alt(th.phase.a.side)] == th.phase.a.pre[Alt(th.phase.a.side)]
             && i < Scanned(th.phase) && i < PAIR_CELLS && s'.cells[i] == s.cells[i]
             && s'.cells[i].Ours? && s'.cells[i].id != th.id
    ensures var s' := Do(s, t, a); var th := s'.threads[t];
            s'.cells[i].color in th.phase.a.seen || BeingStored(s', s'.cells[i].id, Alt(th.phase.a.side))
  {
    hide CellFree, EntryKnown, ColorsUnique, ParityOk, ChangeOk, IdsOk, Do, Possible;
    assert SawColors(s, t);
    StepEffect(s, t, a);
    ScanStep(s, t, a, i);
    var p := s.threads[t].phase;
    if s.cells[i].color !in Do(s, t, a).threads[t].phase.a.seen {
      StoringStays(s, t, a, s.cells[i].id, Alt(p.a.side));
    }
  }

  // A cell that the attempt has scanned was scanned before, or its colour was just seen.
  lemma {:induction false} ScanStep(s: Pair, t: nat, a: Action, i: nat)
    requires Enabled(s, t, a) && ThreadOk(s, t) && Shaped(Do(s, t, a)) && t in Do(s, t, a).threads
    requires InScan(Do(s, t, a).threads[t].phase) && i < Scanned(Do(s, t, a).threads[t].phase)
    requires i < PAIR_CELLS && s.cells[i].Ours?
    ensures InScan(s.threads[t].phase) && Do(s, t, a).threads[t].id == s.threads[t].id
    ensures var p, p' := s.threads[t].phase, Do(s, t, a).threads[t].phase;
            && p'.a.side == p.a.side && p'.a.pre == p.a.pre && p.a.seen <= p'.a.seen
            && (i < Scanned(p) || s.cells[i].color in p'.a.seen)
  {
    if a.ScanNext? {
      ScanOneMore(s, t, a, i);
    } else {
      ScanKept(s, t, a, i);
    }
  }

  lemma {:induction false} ScanOneMore(s: Pair, t: nat, a: Action, i: nat)
    requires Enabled(s, t, a) && ThreadOk(s, t) && Shaped(Do(s, t, a)) && t in Do(s, t, a).threads
    requires InScan(Do(s, t, a).threads[t].phase) && i < Scanned(Do(s, t, a).threads[t].phase)
    requires i < PAIR_CELLS && s.cells[i].Ours?
    requires a.ScanNext?
    ensures InScan(s.threads[t].phase) && Do(s, t, a).threads[t].id == s.threads[t].id
    ensures var p, p' := s.threads[t].phase, Do(s, t, a).threads[t].phase;
            && p'.a.side == p.a.side && p'.a.pre == p.a.pre && p.a.seen <= p'.a.seen
            && (i < Scanned(p) || s.cells[i].color in p'.a.seen)
  {
  }

  lemma {:induction false} ScanKept(s: Pair, t: nat, a: Action, i: nat)
    requires Enabled(s, t, a) && ThreadOk(s, t) && Shaped(Do(s, t, a)) && t in Do(s, t, a).threads
    requires InScan(Do(s, t, a).threads[t].phase) && i < Scanned(Do(s, t, a).threads[t].phase)
    requires i < PAIR_CELLS && s.cells[i].Ours?
    requires !a.ScanNext?
    ensures InScan(s.threads[t].phase) && Do(s, t, a).threads[t].id == s.threads[t].id
    ensures var p, p' := s.threads[t].phase, Do(s, t, a).threads[t].phase;
            && p'.a.side == p.a.side && p'.a.pre == p.a.pre && p.a.seen <= p'.a.seen
            && (i < Scanned(p) || s.cells[i].color in p'.a.seen)
  {
    hide ThreadOk, Holds;
  }

  lemma {:induction false} StoringStays(s: Pair, t: nat, a: Action, id: nat, b: nat)
    requires Inv(s) && Enabled(s, t, a) && BeingStored(s, id, b) && b < 2
    ensures Shaped(Do(s, t, a)) && (BeingStored(Do(s, t, a), id, b) || Do(s, t, a).seqNum[b] == s.seqNum[b] + 1)
  {
    hide CellFree, SawColors, EntryKnown, ColorsUnique, ParityOk, ChangeOk, IdsOk, ThreadOk;
    StepEffect(s, t, a);
    var w :| w in s.threads && s.threads[w].id == id && s.threads[w].phase.Stored? && s.threads[w].phase.a.side == b;
    assert w != t ==> Do(s, t, a).threads[w] == s.threads[w];
  }

  lemma {:induction false} SawOther(s: Pair, t: nat, a: Action, u: nat, i: nat)
    requires Inv(s) && Enabled(s, t, a) && u in s.threads && u != t && Shaped(Do(s, t, a)) && u in Do(s, t, a).threads
    requires ThreadOk(s, u)
    requires Do(s, t, a).threads[u] == s.threads[u]
    requires var s' := Do(s, t, a); var th := s'.threads[u];
             && InScan(th.phase) && s'.seqNum[Alt(th.phase.a.side)] == th.phase.a.pre[Alt(th.phase.a.side)]
             && i < Scanned(th.phase) && i < PAIR_CELLS && s'.cells[i] == s.cells[i]
             && s'.cells[i].Ours? && s'.cells[i].id != th.id
    ensures var s' := Do(s, t, a); var th := s'.threads[u];
            s'.cells[i].color in th.phase.a.seen || BeingStored(s', s'.cells[i].id, Alt(th.phase.a.side))
  {
    hide Enabled, IdsOk;
    var b := Alt(s.threads[u].phase.a.side);
    if s.cells[i].color !in s.threads[u].phase.a.seen && BeingStored(s, s.cells[i].id, b) {
      StoringStays(s, t, a, s.cells[i].id, b);
    }
    hide CellFree, EntryKnown, ColorsUnique, ParityOk, ChangeOk, IdsOk, Do;
    StepEffect(s, t, a);
    assert SawColors(s, u);
  }

  lemma {:induction false} StepUnique(s: Pair, t: nat, a: Action)
    requires Inv(s) && Enabled(s, t, a)
    ensures Shaped(Do(s, t, a)) && ColorsUnique(Do(s, t, a))
  {
    hide CellFree, SawColors, EntryKnown, ParityOk, ThreadOk, ChangeOk, IdsOk, Present;
    var s' := Do(s, t, a);
    forall id, id' | CommittedHere(s', id) && CommittedHere(s', id') && id != id'
      ensures s'.committed[id] != s'.committed[id']
    {
      StillHere(s, t, a, id);
      StillHere(s, t, a, id');
      if a.Check? {
        NewColorIsUnique(s, t, id);
        NewColorIsUnique(s, t, id');
      }
    }
  }

  predicate CheckPasses(s: Pair, t: nat)
    requires Enabled(s, t, Check)
  {
    var a := s.threads[t].phase.a; s.seqNum[Alt(a.side)] == a.pre[Alt(a.side)]
  }

  // When the check succeeds, no committed entry of the pair has the new entry's colour:
  // each was seen, and an entry that is being stored is not committed.
  lemma {:induction false} NewColorIsUnique(s: Pair, t: nat, id: nat)
    requires Inv(s) && Enabled(s, t, Check)
    ensures CheckPasses(s, t) && CommittedHere(s, id) && id != s.threads[t].id ==>
              s.committed[id] != s.threads[t].phase.a.color
  {
    assert ThreadOk(s, t) && SawColors(s, t);
  }

  // A committed entry in the pair was so before, or is the one that was just committed.
  lemma {:induction false} StillHere(s: Pair, t: nat, a: Action, id: nat)
    requires Inv(s) && Enabled(s, t, a) && CommittedHere(Do(s, t, a), id)
    ensures CommittedHere(s, id) || (a.Check? && id == s.threads[t].id)
  {
    hide CellFree, SawColors, ParityOk, ColorsUnique, ChangeOk, Do, ThreadOk;
    var s' := Do(s, t, a);
    StepEffect(s, t, a);
    var i :| 0 <= i < |s'.cells| && s'.cells[i] == Ours(id, s'.committed[id]);
    if s'.cells[i] != s.cells[i] {
      StoredValue(s, t, a, i);
    }
  }

  lemma {:induction false} StepKeepsInv(s: Pair, t: nat, a: Action)
    requires Inv(s) && Enabled(s, t, a)
    ensures Inv(Do(s, t, a))
  {
    hide ThreadOk, CellFree, SawColors, EntryKnown, ChangeOk, ParityOk, ColorsUnique, IdsOk, Do;
    StepEffect(s, t, a);
    StepIds(s, t, a);
    StepUnique(s, t, a);
    StepChange(s, t, a, 0);
    StepChange(s, t, a, 1);
    StepParity(s, t, a, 0);
    StepParity(s, t, a, 1);
    var s' := Do(s, t, a);
    forall u | u in s'.threads
      ensures ThreadOk(s', u) && CellFree(s', u) && SawColors(s', u)
    {
      StepFree(s, t, a, u);
      StepSaw(s, t, a, u);
    }
    forall i | 0 <= i < PAIR_CELLS
      ensures EntryKnown(s', i)
    {
      StepKnown(s, t, a, i);
    }
  }

  // An attempt never overwrites an entry.
  lemma {:induction false} StoresToUnusedCell(s: Pair, t: nat)
    requires Inv(s) && Enabled(s, t, StoreHeader)
    ensures s.cells[s.threads[t].phase.a.cell] == Empty
  {
    assert ThreadOk(s, t) && CellFree(s, t);
  }

  // ------------------------------------------------------------------
  // There is always a colour to choose
  // ------------------------------------------------------------------

  lemma {:induction false} SeenGrowsByOne(seen: set<nat>, x: Slot)
    ensures |seen + ColorsOf(x)| <= |seen| + 1
  {
    assert |ColorsOf(x)| == 1;
    assert seen + ColorsOf(x) == seen + (ColorsOf(x) - seen);
    SubsetCardinality(ColorsOf(x) - seen, ColorsOf(x));
  }

  // Eight cells have at most eight colours, so one of the nine is free.
  lemma {:induction false} ColorIsLeft(seen: set<nat>) returns (color: nat)
    requires |seen| <= PAIR_CELLS
    ensures color <= MAX_VALID_COLOR && color !in seen
  {
    if forall c :: 0 <= c <= MAX_VALID_COLOR ==> c in seen {
      assert Range(MAX_VALID_COLOR + 1) <= seen;
      SubsetCardinality(Range(MAX_VALID_COLOR + 1), seen);
    }
    color :| 0 <= color <= MAX_VALID_COLOR && color !in seen;
  }

  // After the scan there is a colour that the thread can choose.
  lemma {:induction false} ChoiceIsPossible(s: Pair, t: nat)
    requires Inv(s) && t in s.threads && s.threads[t].phase.Scanning? && s.threads[t].phase.next == PAIR_CELLS
    ensures exists color: nat :: Enabled(s, t, ChooseColor(color))
  {
    assert ThreadOk(s, t);
    var color := ColorIsLeft(s.threads[t].phase.a.seen);
    assert Enabled(s, t, ChooseColor(color));
  }

  // ------------------------------------------------------------------
  // Runs
  // ------------------------------------------------------------------

  // Any number of idle threads; the entries that are there have different colours.
  ghost predicate Initial(s: Pair) {
    && Shaped(s) && s.lock == [None, None] && s.change == [None, None]
    && s.seqNum[0] % 2 == 0 && s.seqNum[1] % 2 == 0
    && (forall t :: t in s.threads ==> s.threads[t].phase.Idle? && s.threads[t].id < s.nextId)
    && (forall id :: id in s.committed ==> id < s.nextId)
    && (forall i :: 0 <= i < PAIR_CELLS && s.cells[i].Ours? ==>
          s.cells[i].id in s.committed && s.committed[s.cells[i].id] == s.cells[i].color)
    && ColorsUnique(s)
  }

  lemma {:induction false} InitialInv(s: Pair)
    requires Initial(s)
    ensures Inv(s)
  {
    forall i | 0 <= i < PAIR_CELLS
      ensures EntryKnown(s, i)
    {
    }
  }

  ghost predicate Next(s: Pair, s': Pair) {
    exists t: nat, a :: Enabled(s, t, a) && s' == Do(s, t, a)
  }

  ghost predicate Run(run: seq<Pair>) {
    && |run| > 0
    && if |run| == 1 then Initial(run[0]) else Run(run[..|run| - 1]) && Next(run[|run| - 2], run[|run| - 1])
  }

  // In every reachable state, two entries of the pair whose adds both returned SI_OK
  // have different colours.
  lemma {:induction false} CommittedColorsDiffer(run: seq<Pair>)
    requires Run(run)
    ensures Inv(run[|run| - 1]) && ColorsUnique(run[|run| - 1])
  {
    hide ThreadOk, CellFree, SawColors, EntryKnown, ChangeOk, ParityOk, ColorsUnique, IdsOk, Do;
    if |run| == 1 {
      InitialInv(run[0]);
    } else {
      CommittedColorsDiffer(run[..|run| - 1]);
      var t: nat, a :| Enabled(run[|run| - 2], t, a) && run[|run| - 1] == Do(run[|run| - 2], t, a);
      StepKeepsInv(run[|run| - 2], t, a);
    }
  }
}
