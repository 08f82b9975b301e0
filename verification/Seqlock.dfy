// The sequence lock of a bucket, as interleaved atomic steps of any number of threads.
// The lock byte and the sequence share one word: taking and releasing the lock touch
// the byte alone, while a writer stores the whole word.
module Seqlock {

  // An entry is stored in two overlapping halves: `middle` is in both. The first load
  // of a reader covers `low` and `middle`, the second covers `high`.
  datatype Parts = Parts(low: int, middle: int, high: int)

  datatype Word = Word(lock: bool, seqNum: nat)

  datatype Phase =
    | Idle
    // Writers: the lock is held; a write of v to a cell is at its n'th store. `word` is
    // the counter as loaded before the first store; `before` records the cells at that
    // time, and no step depends on it.
    | Holding
    | Writing(cell: nat, v: Parts, word: Word, stores: nat, before: seq<Parts>)
    // Readers: after the first load of the counter, and after each half. `seen` records
    // what the cell held at the first load; no step depends on it.
    | Reading(cell: nat, word: Word, loaded: nat, low: int, middle: int, high: int, seen: Parts)
    | Returned(cell: nat, value: Parts)

  datatype Bucket = Bucket(word: Word, cells: seq<Parts>, threads: map<nat, Phase>)

  datatype Action =
    | TakeLock
    | BeginWrite(cell: nat, v: Parts)
    | StoreNext
    | ReleaseLock
    | BeginRead(cell: nat)
    | LoadNext
    | Forget

  ghost predicate Enabled(s: Bucket, t: nat, a: Action) {
    t in s.threads &&
    match a
    case TakeLock => s.threads[t].Idle?
    case BeginWrite(cell, _) => s.threads[t].Holding? && cell < |s.cells|
    case StoreNext => s.threads[t].Writing? && s.threads[t].stores < 4 && s.threads[t].cell < |s.cells|
    case ReleaseLock => s.threads[t].Holding?
    case BeginRead(cell) => s.threads[t].Idle? && cell < |s.cells|
    case LoadNext => s.threads[t].Reading? && s.threads[t].cell < |s.cells|
    case Forget => s.threads[t].Returned?
  }

  function WithPhase(s: Bucket, t: nat, p: Phase): Bucket {
    s.(threads := s.threads[t := p])
  }

  // The four stores of a write: odd counter, first half, second half, even counter.
  function StoreStep(s: Bucket, t: nat): Bucket
    requires t in s.threads && s.threads[t].Writing? && s.threads[t].cell < |s.cells|
  {
    var Writing(i, v, w, n, before) := s.threads[t];
    var next := WithPhase(s, t, if n == 3 then Holding else Writing(i, v, w, n + 1, before));
    if n == 0 then next.(word := w.(seqNum := w.seqNum + 1))
    else if n == 1 then next.(cells := s.cells[i := s.cells[i].(low := v.low, middle := v.middle)])
    else if n == 2 then next.(cells := s.cells[i := s.cells[i].(middle := v.middle, high := v.high)])
    else next.(word := w.(seqNum := w.seqNum + 2))
  }

  // The loads of a read after the first: both halves, and the counter again.
  function LoadStep(s: Bucket, t: nat): Bucket
    requires t in s.threads && s.threads[t].Reading? && s.threads[t].cell < |s.cells|
  {
    var r := s.threads[t];
    if r.loaded == 0 then
      WithPhase(s, t, r.(loaded := 1, low := s.cells[r.cell].low, middle := s.cells[r.cell].middle))
    else if r.loaded == 1 then WithPhase(s, t, r.(loaded := 2, high := s.cells[r.cell].high))
    else if s.word == r.word then WithPhase(s, t, Returned(r.cell, Parts(r.low, r.middle, r.high)))
    else WithPhase(s, t, Idle)
  }

  function Do(s: Bucket, t: nat, a: Action): Bucket
    requires Enabled(s, t, a)
  {
    match a
    case TakeLock =>
      // The exchange stores 1 whether or not the lock was free
      WithPhase(s, t, if s.word.lock then Idle else Holding).(word := s.word.(lock := true))
    case BeginWrite(cell, v) => WithPhase(s, t, Writing(cell, v, s.word, 0, s.cells))
    case StoreNext => StoreStep(s, t)
    case ReleaseLock => WithPhase(s, t, Idle).(word := s.word.(lock := false))
    case BeginRead(cell) =>
      // A reader that sees an odd counter starts over
      if s.word.seqNum % 2 == 1 then s
      else WithPhase(s, t, Reading(cell, s.word, 0, 0, 0, 0, s.cells[cell]))
    case LoadNext => LoadStep(s, t)
    case Forget => WithPhase(s, t, Idle)
  }

  // ------------------------------------------------------------------
  // What every step keeps
  // ------------------------------------------------------------------

  predicate HoldsLock(p: Phase) { p.Holding? || p.Writing? }

  // The thread is between the two counter stores of a write.
  predicate MidWrite(p: Phase) { p.Writing? && 1 <= p.stores }

  ghost predicate WriterOk(s: Bucket, t: nat)
    requires t in s.threads
  {
    var p := s.threads[t];
    p.Writing? ==>
      && p.stores <= 3 && p.cell < |s.cells| && p.word.lock && p.word.seqNum % 2 == 0
      && s.word == (if p.stores == 0 then p.word else p.word.(seqNum := p.word.seqNum + 1))
      && |p.before| == |s.cells| && (forall i :: 0 <= i < |s.cells| && i != p.cell ==> s.cells[i] == p.before[i])
      && (p.stores <= 1 ==> s.cells[p.cell] == p.before[p.cell])
      && (p.stores == 2 ==> s.cells[p.cell].low == p.v.low && s.cells[p.cell].middle == p.v.middle)
      && (p.stores == 3 ==> s.cells[p.cell] == p.v)
  }

  // As long as the counter is what the reader loaded, the cell is what it was then, and
  // what has been loaded of it is too.
  ghost predicate ReaderOk(s: Bucket, t: nat)
    requires t in s.threads
  {
    var p := s.threads[t];
    p.Reading? ==>
      && p.cell < |s.cells| && p.word.seqNum % 2 == 0 && p.word.seqNum <= s.word.seqNum && p.loaded <= 2
      && (p.word.seqNum == s.word.seqNum ==>
            && s.cells[p.cell] == p.seen
            && (p.loaded >= 1 ==> p.low == p.seen.low && p.middle == p.seen.middle)
            && (p.loaded >= 2 ==> p.high == p.seen.high))
  }

  // The lock byte is set exactly if one thread holds the lock, and no two do; outside of
  // a write the counter is even.
  ghost predicate Inv(s: Bucket) {
    && (forall t {:trigger WriterOk(s, t)} :: t in s.threads ==> WriterOk(s, t))
    && (forall t {:trigger ReaderOk(s, t)} :: t in s.threads ==> ReaderOk(s, t))
    && (forall t, u :: t in s.threads && u in s.threads && HoldsLock(s.threads[t]) && HoldsLock(s.threads[u]) ==>
         t == u)
    && (s.word.lock <==> exists t :: t in s.threads && HoldsLock(s.threads[t]))
    && (s.word.seqNum % 2 == 1 <==> exists t :: t in s.threads && MidWrite(s.threads[t]))
  }

  lemma {:induction false} OthersKeepReading(s: Bucket, s': Bucket, t: nat)
    requires Inv(s) && |s'.cells| == |s.cells| && s.word.seqNum <= s'.word.seqNum
    requires s'.word.seqNum == s.word.seqNum && s.word.seqNum % 2 == 0 ==> s'.cells == s.cells
    requires s.threads.Keys <= s'.threads.Keys && forall u :: u in s.threads && u != t ==> s'.threads[u] == s.threads[u]
    ensures forall u :: u in s.threads && u != t ==> ReaderOk(s', u)
  {
    forall u | u in s.threads && u != t
      ensures ReaderOk(s', u)
    {
      assert ReaderOk(s, u);
    }
  }

  // The lock byte is never lost: a writer's full-word stores keep it, and it is cleared
  // by its holder alone.
  lemma {:induction false} StepKeepsInv(s: Bucket, t: nat, a: Action)
    requires Inv(s) && Enabled(s, t, a)
    ensures Inv(Do(s, t, a))
    ensures s.word.lock && !Do(s, t, a).word.lock ==> a.ReleaseLock? && HoldsLock(s.threads[t])
    ensures s.word.seqNum <= Do(s, t, a).word.seqNum
    ensures s.word.seqNum % 2 == 0 && Do(s, t, a).word.seqNum == s.word.seqNum ==> Do(s, t, a).cells == s.cells
    ensures |Do(s, t, a).cells| == |s.cells|
  {
    OwnOk(s, t, a);
    OthersOk(s, t, a);
    LockByte(s, t, a);
    Parity(s, t, a);
    CellsFollowNumber(s, t, a);
    ByteClearedByHolder(s, t, a);
    ThreadsStay(s, t, a);
    hide Do, Enabled, WriterOk, ReaderOk;
  }

  // The thread's own notes stay right.
  lemma {:induction false} OwnOk(s: Bucket, t: nat, a: Action)
    requires Inv(s) && Enabled(s, t, a)
    ensures t in Do(s, t, a).threads && WriterOk(Do(s, t, a), t) && ReaderOk(Do(s, t, a), t)
  {
    assert WriterOk(s, t) && ReaderOk(s, t);
    if a.BeginWrite? {
      LockIsHeld(s, t);
      assert HoldsLock(s.threads[t]);
    }
  }

  lemma {:induction false} ByteClearedByHolder(s: Bucket, t: nat, a: Action)
    requires Inv(s) && Enabled(s, t, a)
    ensures s.word.lock && !Do(s, t, a).word.lock ==> a.ReleaseLock? && HoldsLock(s.threads[t])
  {
    assert WriterOk(s, t);
  }

  // The other threads' notes stay right.
  lemma {:induction false} OthersOk(s: Bucket, t: nat, a: Action)
    requires Inv(s) && Enabled(s, t, a)
    ensures var s' := Do(s, t, a);
            forall u :: u in s'.threads && u != t ==> WriterOk(s', u) && ReaderOk(s', u)
  {
    var s' := Do(s, t, a);
    CellsFollowNumber(s, t, a);
    ThreadsStay(s, t, a);
    hide Do, Enabled;
    OthersKeepReading(s, s', t);
    forall u | u in s'.threads && u != t
      ensures WriterOk(s', u)
    {
      assert WriterOk(s, u);
      if s.threads[u].Writing? {
        HolderUndisturbed(s, t, a, u);
      }
    }
  }

  // What a step of one thread leaves of the others.
  lemma {:induction false} ThreadsStay(s: Bucket, t: nat, a: Action)
    requires Enabled(s, t, a)
    ensures Do(s, t, a).threads.Keys == s.threads.Keys
    ensures forall u :: u in s.threads && u != t ==> Do(s, t, a).threads[u] == s.threads[u]
  {
  }

  lemma {:induction false} CellsFollowNumber(s: Bucket, t: nat, a: Action)
    requires Inv(s) && Enabled(s, t, a)
    ensures var s' := Do(s, t, a);
            && |s'.cells| == |s.cells| && s.word.seqNum <= s'.word.seqNum
            && (s'.word.seqNum == s.word.seqNum && s.word.seqNum % 2 == 0 ==> s'.cells == s.cells)
  {
    assert WriterOk(s, t);
  }

  // While one thread holds the lock, the steps of others change neither word nor cells.
  lemma {:induction false} HolderUndisturbed(s: Bucket, t: nat, a: Action, u: nat)
    requires Inv(s) && Enabled(s, t, a) && u in s.threads && HoldsLock(s.threads[u]) && u != t
    ensures Do(s, t, a).word == s.word && Do(s, t, a).cells == s.cells
  {
    assert !HoldsLock(s.threads[t]) && s.word.lock;
  }

  lemma {:induction false} LockByte(s: Bucket, t: nat, a: Action)
    requires Inv(s) && Enabled(s, t, a)
    ensures var s' := Do(s, t, a);
            && (forall u, v ::
                  u in s'.threads && v in s'.threads && HoldsLock(s'.threads[u]) && HoldsLock(s'.threads[v]) ==> u == v)
            && (s'.word.lock <==> exists u :: u in s'.threads && HoldsLock(s'.threads[u]))
  {
    var s' := Do(s, t, a);
    assert WriterOk(s, t);
    if s.word.lock {
      var h :| h in s.threads && HoldsLock(s.threads[h]);
      assert h != t || !a.ReleaseLock? ==> HoldsLock(s'.threads[h]);
    }
    if s'.word.lock && !s.word.lock {
      assert HoldsLock(s'.threads[t]);
    }
  }

  lemma {:induction false} Parity(s: Bucket, t: nat, a: Action)
    requires Inv(s) && Enabled(s, t, a)
    ensures var s' := Do(s, t, a);
            s'.word.seqNum % 2 == 1 <==> exists u :: u in s'.threads && MidWrite(s'.threads[u])
  {
    var s' := Do(s, t, a);
    assert WriterOk(s, t);
    if s.word.seqNum % 2 == 1 {
      var m :| m in s.threads && MidWrite(s.threads[m]);
      assert HoldsLock(s.threads[m]) && WriterOk(s, m);
      assert m != t ==> MidWrite(s'.threads[m]);
      if s'.word.seqNum % 2 == 1 {
        assert MidWrite(s'.threads[m]);
      } else {
        assert m == t && forall u :: u in s.threads && u != t ==> !HoldsLock(s.threads[u]);
      }
    } else if s'.word.seqNum % 2 == 1 {
      assert MidWrite(s'.threads[t]);
    } else {
      assert !MidWrite(s'.threads[t]);
    }
  }

  // A write that comes to its end has stored what it was given, and nothing else.
  lemma {:induction false} WriteStores(s: Bucket, t: nat)
    requires Inv(s) && Enabled(s, t, StoreNext) && Do(s, t, StoreNext).threads[t].Holding?
    ensures var p := s.threads[t]; |p.before| == |s.cells| && Do(s, t, StoreNext).cells == p.before[p.cell := p.v]
  {
    assert WriterOk(s, t);
  }

  // When a read returns, the value is in the cell, and no write is in progress.
  lemma {:induction false} ReadReturns(s: Bucket, t: nat)
    requires Inv(s) && Enabled(s, t, LoadNext) && Do(s, t, LoadNext).threads[t].Returned?
    ensures Do(s, t, LoadNext).threads[t] == Returned(s.threads[t].cell, s.cells[s.threads[t].cell])
    ensures s.word.seqNum % 2 == 0
  {
    assert ReaderOk(s, t);
  }

  ghost predicate CanDo(s: Bucket, t: nat, actions: seq<Action>)
    decreases |actions|
  {
    |actions| > 0 ==> Enabled(s, t, actions[0]) && CanDo(Do(s, t, actions[0]), t, actions[1..])
  }

  // The steps of one thread, with no other in between.
  function DoAll(s: Bucket, t: nat, actions: seq<Action>): Bucket
    requires CanDo(s, t, actions)
    decreases |actions|
  {
    if |actions| == 0 then s else DoAll(Do(s, t, actions[0]), t, actions[1..])
  }

  lemma {:induction false} OneMore(s: Bucket, t: nat, a: Action, rest: seq<Action>)
    requires Enabled(s, t, a) && CanDo(Do(s, t, a), t, rest)
    ensures CanDo(s, t, [a] + rest) && DoAll(s, t, [a] + rest) == DoAll(Do(s, t, a), t, rest)
  {
    assert ([a] + rest)[1..] == rest;
  }

  // A write that no other thread interferes with does what it is for.
  lemma {:induction false} WriteAlone(s: Bucket, t: nat, cell: nat, v: Parts)
    requires t in s.threads && s.threads[t].Idle? && !s.word.lock && s.word.seqNum % 2 == 0 && cell < |s.cells|
    ensures var write := [TakeLock, BeginWrite(cell, v), StoreNext, StoreNext, StoreNext, StoreNext, ReleaseLock];
            CanDo(s, t, write)
            && DoAll(s, t, write) == s.(cells := s.cells[cell := v], word := Word(false, s.word.seqNum + 2))
  {
    var s1 := Do(s, t, TakeLock);
    var s2 := Do(s1, t, BeginWrite(cell, v));
    var s3 := Do(s2, t, StoreNext);
    var s4 := Do(s3, t, StoreNext);
    var s5 := Do(s4, t, StoreNext);
    var s6 := Do(s5, t, StoreNext);
    var s7 := Do(s6, t, ReleaseLock);
    assert s7 == s.(cells := s.cells[cell := v], word := Word(false, s.word.seqNum + 2));
    OneMore(s6, t, ReleaseLock, []);
    OneMore(s5, t, StoreNext, [ReleaseLock]);
    OneMore(s4, t, StoreNext, [StoreNext, ReleaseLock]);
    OneMore(s3, t, StoreNext, [StoreNext, StoreNext, ReleaseLock]);
    OneMore(s2, t, StoreNext, [StoreNext, StoreNext, StoreNext, ReleaseLock]);
    OneMore(s1, t, BeginWrite(cell, v), [StoreNext, StoreNext, StoreNext, StoreNext, ReleaseLock]);
    OneMore(s, t, TakeLock, [BeginWrite(cell, v), StoreNext, StoreNext, StoreNext, StoreNext, ReleaseLock]);
  }

  // So does a read.
  lemma {:induction false} ReadAlone(s: Bucket, t: nat, cell: nat)
    requires t in s.threads && s.threads[t].Idle? && s.word.seqNum % 2 == 0 && cell < |s.cells|
    ensures var read := [BeginRead(cell), LoadNext, LoadNext, LoadNext];
            CanDo(s, t, read) && DoAll(s, t, read) == WithPhase(s, t, Returned(cell, s.cells[cell]))
  {
    var s1 := Do(s, t, BeginRead(cell));
    var s2 := Do(s1, t, LoadNext);
    var s3 := Do(s2, t, LoadNext);
    var s4 := Do(s3, t, LoadNext);
    assert s4 == WithPhase(s, t, Returned(cell, s.cells[cell]));
    OneMore(s3, t, LoadNext, []);
    OneMore(s2, t, LoadNext, [LoadNext]);
    OneMore(s1, t, LoadNext, [LoadNext, LoadNext]);
    OneMore(s, t, BeginRead(cell), [LoadNext, LoadNext, LoadNext]);
  }

  // ------------------------------------------------------------------
  // Runs
  // ------------------------------------------------------------------

  ghost predicate Initial(s: Bucket) {
    && !s.word.lock && s.word.seqNum % 2 == 0
    && forall t :: t in s.threads ==> s.threads[t].Idle?
  }

  ghost predicate Next(s: Bucket, s': Bucket) {
    exists t: nat, a :: Enabled(s, t, a) && s' == Do(s, t, a)
  }

  ghost predicate Run(run: seq<Bucket>) {
    && |run| > 0
    && if |run| == 1 then Initial(run[0]) else Run(run[..|run| - 1]) && Next(run[|run| - 2], run[|run| - 1])
  }

  // At some instant of the run the cell held the value, and no write was in progress.
  ghost predicate HeldWhole(run: seq<Bucket>, cell: nat, v: Parts) {
    exists i :: 0 <= i < |run| && cell < |run[i].cells| && run[i].cells[cell] == v && run[i].word.seqNum % 2 == 0
  }

  // At some step of the run a thread began to write the value to the cell.
  ghost predicate BegunAt(run: seq<Bucket>, k: nat, cell: nat, v: Parts) {
    k + 1 < |run| && exists t :: Enabled(run[k], t, BeginWrite(cell, v))
                                 && run[k + 1] == Do(run[k], t, BeginWrite(cell, v))
  }

  // The value was in the cell at the start, or it was given to a write to the cell.
  ghost predicate Given(run: seq<Bucket>, cell: nat, v: Parts) {
    || (|run| > 0 && cell < |run[0].cells| && v == run[0].cells[cell])
    || exists k: nat :: BegunAt(run, k, cell, v)
  }

  ghost predicate AllGiven(run: seq<Bucket>, cells: seq<Parts>) {
    forall i :: 0 <= i < |cells| ==> Given(run, i, cells[i])
  }

  // Unless a write is between its stores, all cells hold values that were given; so did
  // they when the write began, and so is what it stores.
  ghost predicate GivenSoFar(run: seq<Bucket>) {
    |run| > 0 &&
    var s := run[|run| - 1];
    && (s.word.seqNum % 2 == 0 ==> AllGiven(run, s.cells))
    && forall t :: t in s.threads && s.threads[t].Writing? ==>
         AllGiven(run, s.threads[t].before) && Given(run, s.threads[t].cell, s.threads[t].v)
  }

  lemma {:induction false} GivenLater(before: seq<Bucket>, run: seq<Bucket>, cell: nat, v: Parts)
    requires before <= run && Given(before, cell, v)
    ensures Given(run, cell, v)
  {
    if !(|before| > 0 && cell < |before[0].cells| && v == before[0].cells[cell]) {
      var k: nat :| BegunAt(before, k, cell, v);
      assert run[k] == before[k] && run[k + 1] == before[k + 1];
      assert BegunAt(run, k, cell, v);
    }
  }

  lemma {:induction false} AllGivenLater(before: seq<Bucket>, run: seq<Bucket>, cells: seq<Parts>)
    requires before <= run && AllGiven(before, cells)
    ensures AllGiven(run, cells)
  {
    forall i | 0 <= i < |cells|
      ensures Given(run, i, cells[i])
    {
      GivenLater(before, run, i, cells[i]);
    }
  }

  lemma {:induction false} RunsKeepGiven(run: seq<Bucket>)
    requires Run(run)
    ensures GivenSoFar(run)
  {
    if |run| == 1 {
      return;
    }
    hide Enabled, Do, Inv, GivenSoFar;
    var e := |run| - 1;
    RunsKeepInv(run[..e]);
    RunsKeepInv(run);
    RunsKeepGiven(run[..e]);
    var t: nat, a :| Enabled(run[e - 1], t, a) && run[e] == Do(run[e - 1], t, a);
    StepKeepsGiven(run, t, a);
  }

  lemma {:induction false} StepKeepsGiven(run: seq<Bucket>, t: nat, a: Action)
    requires |run| > 1 && Inv(run[|run| - 2]) && Enabled(run[|run| - 2], t, a)
    requires run[|run| - 1] == Do(run[|run| - 2], t, a) && GivenSoFar(run[..|run| - 1])
    ensures GivenSoFar(run)
  {
    var before, s, s' := run[..|run| - 1], run[|run| - 2], run[|run| - 1];
    StepKeepsInv(s, t, a);
    forall u | u in s'.threads && s'.threads[u].Writing?
      ensures AllGiven(run, s'.threads[u].before) && Given(run, s'.threads[u].cell, s'.threads[u].v)
    {
      WriterGiven(run, t, a, u);
    }
    if s'.word.seqNum % 2 == 0 {
      CellsGiven(run, t, a);
    }
  }

  lemma {:induction false} WriterGiven(run: seq<Bucket>, t: nat, a: Action, u: nat)
    requires |run| > 1 && Inv(run[|run| - 2]) && Enabled(run[|run| - 2], t, a)
    requires run[|run| - 1] == Do(run[|run| - 2], t, a) && GivenSoFar(run[..|run| - 1])
    requires u in run[|run| - 1].threads && run[|run| - 1].threads[u].Writing?
    ensures var p := run[|run| - 1].threads[u]; AllGiven(run, p.before) && Given(run, p.cell, p.v)
  {
    var before, s, p := run[..|run| - 1], run[|run| - 2], run[|run| - 1].threads[u];
    if s.threads[u].Writing? {
      AllGivenLater(before, run, p.before);
      GivenLater(before, run, p.cell, p.v);
    } else {
      assert a == BeginWrite(p.cell, p.v) && u == t;
      assert BegunAt(run, |run| - 2, p.cell, p.v);
      LockIsHeld(s, t);
      AllGivenLater(before, run, s.cells);
    }
  }

  // A thread that holds the lock and is not writing sees an even counter.
  lemma {:induction false} LockIsHeld(s: Bucket, t: nat)
    requires Inv(s) && t in s.threads && s.threads[t].Holding?
    ensures s.word.seqNum % 2 == 0
  {
    assert HoldsLock(s.threads[t]);
    assert forall m :: m in s.threads && MidWrite(s.threads[m]) ==> HoldsLock(s.threads[m]);
  }

  lemma {:induction false} CellsGiven(run: seq<Bucket>, t: nat, a: Action)
    requires |run| > 1 && Inv(run[|run| - 2]) && Enabled(run[|run| - 2], t, a)
    requires run[|run| - 1] == Do(run[|run| - 2], t, a) && GivenSoFar(run[..|run| - 1])
    requires run[|run| - 1].word.seqNum % 2 == 0
    ensures AllGiven(run, run[|run| - 1].cells)
  {
    var before, s, s' := run[..|run| - 1], run[|run| - 2], run[|run| - 1];
    StepKeepsInv(s, t, a);
    if s.word.seqNum % 2 == 0 {
      assert WriterOk(s, t);
      assert s'.cells == s.cells;
      AllGivenLater(before, run, s.cells);
    } else {
      var m :| m in s.threads && MidWrite(s.threads[m]);
      assert WriterOk(s, m) && HoldsLock(s.threads[m]);
      assert m == t && a.StoreNext?;
      WriteStores(s, t);
      AllGivenLater(before, run, s.threads[t].before);
      GivenLater(before, run, s.threads[t].cell, s.threads[t].v);
    }
  }

  // What a thread is reading, or has returned, was held at some instant.
  ghost predicate WasHeld(run: seq<Bucket>, t: nat)
    requires |run| > 0 && t in run[|run| - 1].threads
  {
    var p := run[|run| - 1].threads[t];
    && (p.Reading? ==> HeldWhole(run, p.cell, p.seen))
    && (p.Returned? ==> HeldWhole(run, p.cell, p.value))
  }

  lemma {:induction false} RunsKeepInv(run: seq<Bucket>)
    requires Run(run)
    ensures Inv(run[|run| - 1])
    ensures forall t :: t in run[|run| - 1].threads ==> WasHeld(run, t)
  {
    if |run| == 1 {
      return;
    }
    hide Enabled, Do, Inv, WasHeld;
    var e := |run| - 1;
    RunsKeepInv(run[..e]);
    var t: nat, a :| Enabled(run[e - 1], t, a) && run[e] == Do(run[e - 1], t, a);
    StepKeepsInv(run[e - 1], t, a);
    ThreadsStay(run[e - 1], t, a);
    forall u | u in run[e].threads
      ensures WasHeld(run, u)
    {
      StepKeepsHeld(run, t, a, u);
    }
  }

  lemma {:induction false} HeldLater(before: seq<Bucket>, run: seq<Bucket>, cell: nat, v: Parts)
    requires before <= run && HeldWhole(before, cell, v)
    ensures HeldWhole(run, cell, v)
  {
    var i :| 0 <= i < |before| && cell < |before[i].cells| && before[i].cells[cell] == v
        && before[i].word.seqNum % 2 == 0;
    assert run[i] == before[i];
  }

  lemma {:induction false} StepKeepsHeld(run: seq<Bucket>, t: nat, a: Action, u: nat)
    requires |run| > 1 && Inv(run[|run| - 2]) && Enabled(run[|run| - 2], t, a)
             && run[|run| - 1] == Do(run[|run| - 2], t, a)
    requires u in run[|run| - 2].threads && WasHeld(run[..|run| - 1], u)
    ensures WasHeld(run, u)
  {
    var before := run[..|run| - 1];
    var s, s' := run[|run| - 2], run[|run| - 1];
    var p := s.threads[u];
    assert ReaderOk(s, u);
    if p.Reading? {
      HeldLater(before, run, p.cell, p.seen);
    } else if p.Returned? {
      HeldLater(before, run, p.cell, p.value);
    }
    if s'.threads[u].Reading? && !p.Reading? {
      assert s'.cells[s'.threads[u].cell] == s'.threads[u].seen;
    }
  }

  lemma {:induction false} PrefixRuns(run: seq<Bucket>, n: nat)
    requires Run(run) && 0 < n <= |run|
    ensures Run(run[..n])
  {
    if n < |run| {
      PrefixRuns(run[..|run| - 1], n);
      assert run[..|run| - 1][..n] == run[..n];
    } else {
      assert run[..n] == run;
    }
  }

  // Whatever the cell holds as a whole was there at the start or was given to a write.
  lemma {:induction false} HeldIsGiven(run: seq<Bucket>, cell: nat, v: Parts)
    requires Run(run) && HeldWhole(run, cell, v)
    ensures Given(run, cell, v)
  {
    hide Run;
    var i :| 0 <= i < |run| && cell < |run[i].cells| && run[i].cells[cell] == v && run[i].word.seqNum % 2 == 0;
    PrefixRuns(run, i + 1);
    RunsKeepGiven(run[..i + 1]);
    GivenLater(run[..i + 1], run, cell, v);
  }

  // Whatever a reader returns, the cell held as a whole at a single instant, and it was
  // there at the start or was given to a write to that cell.
  lemma {:induction false} ReadsAreWhole(run: seq<Bucket>, t: nat)
    requires Run(run) && t in run[|run| - 1].threads && run[|run| - 1].threads[t].Returned?
    ensures HeldWhole(run, run[|run| - 1].threads[t].cell, run[|run| - 1].threads[t].value)
    ensures Given(run, run[|run| - 1].threads[t].cell, run[|run| - 1].threads[t].value)
  {
    RunsKeepInv(run);
    assert WasHeld(run, t);
    HeldIsGiven(run, run[|run| - 1].threads[t].cell, run[|run| - 1].threads[t].value);
  }
}
