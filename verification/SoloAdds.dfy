// What the steps of one thread do to a bucket pair when no other thread comes in between.
module SoloAdds {
  import opened Arithmetic
  import opened Store
  import opened ColorProtocol

  ghost predicate CanDo(s: Pair, t: nat, actions: seq<Action>)
    decreases |actions|
  {
    |actions| > 0 ==> Enabled(s, t, actions[0]) && CanDo(Do(s, t, actions[0]), t, actions[1..])
  }

  function DoAll(s: Pair, t: nat, actions: seq<Action>): Pair
    requires CanDo(s, t, actions)
    decreases |actions|
  {
    if |actions| == 0 then s else DoAll(Do(s, t, actions[0]), t, actions[1..])
  }

  // The actions lead from s to the other state.
  ghost predicate Leads(s: Pair, t: nat, actions: seq<Action>, s': Pair) {
    CanDo(s, t, actions) && DoAll(s, t, actions) == s'
  }

  lemma {:induction false} LeadsOne(s: Pair, t: nat, a: Action)
    requires Enabled(s, t, a)
    ensures Leads(s, t, [a], Do(s, t, a))
  {
    assert [a][1..] == [];
  }

  lemma {:induction false} LeadsOn(s: Pair, t: nat, a: seq<Action>, s1: Pair, b: seq<Action>, s2: Pair)
    requires Leads(s, t, a, s1) && Leads(s1, t, b, s2)
    ensures Leads(s, t, a + b, s2)
    decreases |a|
  {
    if |a| == 0 {
      assert a + b == b;
    } else {
      assert (a + b)[0] == a[0] && (a + b)[1..] == a[1..] + b;
      LeadsOn(Do(s, t, a[0]), t, a[1..], s1, b, s2);
    }
  }

  lemma {:induction false} ThenOne(s: Pair, t: nat, actions: seq<Action>, s1: Pair, a: Action)
    requires Leads(s, t, actions, s1) && Enabled(s1, t, a)
    ensures Leads(s, t, actions + [a], Do(s1, t, a))
  {
    LeadsOne(s1, t, a);
    LeadsOn(s, t, actions, s1, [a], Do(s1, t, a));
  }

  // ------------------------------------------------------------------
  // The end of an attempt
  // ------------------------------------------------------------------

  // The attempt is about to scan the pair for colours; its cell is unused, and the other
  // bucket is as it was when its number was read.
  ghost predicate AboutToScan(s: Pair, t: nat, id: nat, a: Attempt) {
    && Shaped(s) && t in s.threads && s.threads[t] == Thread(id, Scanning(a, 0)) && AttemptShaped(a)
    && a.seen == {} && s.lock[a.side] == Some(t) && s.cells[a.cell] == Empty && s.change == [None, None]
  }

  function ColorsBelow(cells: seq<Slot>, n: nat): set<nat>
    requires n <= |cells|
  {
    if n == 0 then {} else ColorsBelow(cells, n - 1) + ColorsOf(cells[n - 1])
  }

  lemma {:induction false} ScanSome(s: Pair, t: nat, id: nat, a: Attempt, n: nat) returns (actions: seq<Action>)
    requires AboutToScan(s, t, id, a) && n <= PAIR_CELLS
    ensures Leads(s, t, actions, To(s, t, Scanning(a.(seen := ColorsBelow(s.cells, n)), n)))
  {
    if n == 0 {
      actions := [];
      assert To(s, t, Scanning(a, 0)) == s && a.(seen := {}) == a;
    } else {
      actions := ScanSome(s, t, id, a, n - 1);
      var s1 := To(s, t, Scanning(a.(seen := ColorsBelow(s.cells, n - 1)), n - 1));
      ThenOne(s, t, actions, s1, ScanNext);
      assert Do(s1, t, ScanNext) == To(s, t, Scanning(a.(seen := ColorsBelow(s.cells, n)), n));
      actions := actions + [ScanNext];
    }
  }

  lemma {:induction false} BelowHas(cells: seq<Slot>, n: nat)
    requires n <= |cells|
    ensures |ColorsBelow(cells, n)| <= n
    ensures forall i :: 0 <= i < n ==> ColorsOf(cells[i]) <= ColorsBelow(cells, n)
  {
    if n > 0 {
      BelowHas(cells, n - 1);
    }
  }

  // No entry of the pair has the colour.
  ghost predicate NotInUse(cells: seq<Slot>, color: nat) {
    forall i :: 0 <= i < |cells| ==> color !in ColorsOf(cells[i])
  }

  // With the write of the header, the pair is as before but for the new entry.
  ghost function WithEntry(s: Pair, t: nat, id: nat, a: Attempt, color: nat): Pair
    requires Shaped(s) && t in s.threads && AttemptShaped(a)
  {
    s.(cells := s.cells[a.cell := Ours(id, color)], seqNum := s.seqNum[a.side := s.seqNum[a.side] + 2],
       threads := s.threads[t := Thread(id, Finished(a.(seen := ColorsBelow(s.cells, PAIR_CELLS), color := color)))])
  }

  lemma {:induction false} ScanAndStore(s: Pair, t: nat, id: nat, a: Attempt)
      returns (actions: seq<Action>, color: nat)
    requires AboutToScan(s, t, id, a)
    ensures color <= MAX_VALID_COLOR && NotInUse(s.cells, color)
    ensures Leads(s, t, actions, WithEntry(s, t, id, a, color))
  {
    hide Leads;
    var scan := ScanSome(s, t, id, a, PAIR_CELLS);
    BelowHas(s.cells, PAIR_CELLS);
    color := ColorIsLeft(ColorsBelow(s.cells, PAIR_CELLS));
    hide ColorsBelow;
    var seen := ColorsBelow(s.cells, PAIR_CELLS);
    var s1 := To(s, t, Scanning(a.(seen := seen), PAIR_CELLS));
    var store := StoreEntry(s1, t, id, a.(seen := seen), color);
    assert s1.(cells := s.cells[a.cell := Ours(id, color)], seqNum := s.seqNum[a.side := s.seqNum[a.side] + 2],
               threads := s1.threads[t := Thread(id, Finished(a.(seen := seen, color := color)))])
           == WithEntry(s, t, id, a, color);
    LeadsOn(s, t, scan, s1, store, WithEntry(s, t, id, a, color));
    actions := scan + store;
  }

  lemma {:induction false} StoreEntry(s: Pair, t: nat, id: nat, a: Attempt, color: nat) returns (actions: seq<Action>)
    requires Shaped(s) && t in s.threads && s.threads[t] == Thread(id, Scanning(a, PAIR_CELLS)) && AttemptShaped(a)
    requires color <= MAX_VALID_COLOR && color !in a.seen
    ensures Leads(s, t, actions,
                  s.(cells := s.cells[a.cell := Ours(id, color)], seqNum := s.seqNum[a.side := s.seqNum[a.side] + 2],
                     threads := s.threads[t := Thread(id, Finished(a.(color := color)))]))
  {
    hide Leads;
    var s1 := Do(s, t, ChooseColor(color));
    LeadsOne(s, t, ChooseColor(color));
    var s2 := Do(s1, t, BeginStore);
    ThenOne(s, t, [ChooseColor(color)], s1, BeginStore);
    var s3 := Do(s2, t, StoreHeader);
    ThenOne(s, t, [ChooseColor(color)] + [BeginStore], s2, StoreHeader);
    ThenOne(s, t, [ChooseColor(color)] + [BeginStore] + [StoreHeader], s3, EndStore);
    assert Do(s3, t, EndStore) ==
           s.(cells := s.cells[a.cell := Ours(id, color)], seqNum := s.seqNum[a.side := s.seqNum[a.side] + 2],
              threads := s.threads[t := Thread(id, Finished(a.(color := color)))]);
    actions := [ChooseColor(color)] + [BeginStore] + [StoreHeader] + [EndStore];
  }

  // If the other bucket's number is still what was read, the entry stays, with a colour
  // that nothing in the pair had; the bucket's lock is still to be released.
  lemma {:induction false} FinishAdd(s: Pair, t: nat, id: nat, a: Attempt) returns (actions: seq<Action>, color: nat)
    requires AboutToScan(s, t, id, a) && s.seqNum[Alt(a.side)] == a.pre[Alt(a.side)]
    ensures color <= MAX_VALID_COLOR && NotInUse(s.cells, color)
    ensures Leads(s, t, actions, s.(cells := s.cells[a.cell := Ours(id, color)],
                                    seqNum := s.seqNum[a.side := s.seqNum[a.side] + 2],
                                    threads := s.threads[t := Thread(id, Idle)],
                                    committed := s.committed[id := color]))
  {
    hide Leads;
    actions, color := ScanAndStore(s, t, id, a);
    hide ColorsBelow;
    var s1 := WithEntry(s, t, id, a, color);
    ThenOne(s, t, actions, s1, Check);
    assert Do(s1, t, Check) == s.(cells := s.cells[a.cell := Ours(id, color)],
                                  seqNum := s.seqNum[a.side := s.seqNum[a.side] + 2],
                                  threads := s.threads[t := Thread(id, Idle)],
                                  committed := s.committed[id := color]);
    actions := actions + [Check];
  }

  // If it is not, the entry is taken out again, and nothing is committed.
  lemma {:induction false} UndoAdd(s: Pair, t: nat, id: nat, a: Attempt) returns (actions: seq<Action>)
    requires AboutToScan(s, t, id, a) && s.seqNum[Alt(a.side)] != a.pre[Alt(a.side)]
    ensures Leads(s, t, actions, s.(seqNum := s.seqNum[a.side := s.seqNum[a.side] + 4],
                                    threads := s.threads[t := Thread(id, Idle)]))
  {
    hide Leads, ColorsBelow, CanDo, SideOf;
    var color;
    actions, color := ScanAndStore(s, t, id, a);
    hide ColorsBelow;
    var s1 := WithEntry(s, t, id, a, color);
    var s2 := Do(s1, t, Check);
    ThenOne(s, t, actions, s1, Check);
    var s3 := Do(s2, t, UndoStore);
    ThenOne(s, t, actions + [Check], s2, UndoStore);
    ThenOne(s, t, actions + [Check] + [UndoStore], s3, UndoEnd);
    var s4 := Do(s3, t, UndoEnd);
    assert s4.cells == s.cells;
    assert s4 == s.(seqNum := s.seqNum[a.side := s.seqNum[a.side] + 4], threads := s.threads[t := Thread(id, Idle)]);
    actions := actions + [Check] + [UndoStore] + [UndoEnd];
  }

  // ------------------------------------------------------------------
  // Whole additions
  // ------------------------------------------------------------------

  ghost predicate Unlocked(s: Pair, t: nat) {
    && Shaped(s) && t in s.threads && s.threads[t].phase.Idle? && s.lock == [None, None] && s.change == [None, None]
  }

  // The pair with one more entry, once its bucket's lock is released.
  ghost function Added(s: Pair, t: nat, cell: nat, color: nat, stores: nat): Pair
    requires Shaped(s) && cell < PAIR_CELLS
  {
    s.(cells := s.cells[cell := Ours(s.nextId, color)],
       seqNum := s.seqNum[SideOf(cell) := s.seqNum[SideOf(cell)] + stores],
       threads := s.threads[t := Thread(s.nextId, Idle)], nextId := s.nextId + 1,
       committed := s.committed[s.nextId := color])
  }

  // A thread that finds an unused cell, and that nobody interferes with, adds its entry
  // there and leaves everything else as it was.
  lemma {:induction false} AddAlone(s: Pair, t: nat, cell: nat) returns (actions: seq<Action>, color: nat)
    requires Unlocked(s, t) && cell < PAIR_CELLS && s.cells[cell] == Empty
    ensures color <= MAX_VALID_COLOR && NotInUse(s.cells, color)
    ensures Leads(s, t, actions, Added(s, t, cell, color, 2))
  {
    hide Leads;
    var a, side := Attempt(s.seqNum, SideOf(cell), cell, {}, 0), SideOf(cell);
    var s1, before := ReachScan(s, t, cell);
    var rest;
    rest, color := FinishAdd(s1, t, s.nextId, a);
    var s2 := s1.(cells := s1.cells[cell := Ours(s.nextId, color)],
                  seqNum := s1.seqNum[side := s1.seqNum[side] + 2],
                  threads := s1.threads[t := Thread(s.nextId, Idle)],
                  committed := s1.committed[s.nextId := color]);
    LeadsOn(s, t, before, s1, rest, s2);
    ThenOne(s, t, before + rest, s2, Release(side));
    assert Do(s2, t, Release(side)) == Added(s, t, cell, color, 2);
    actions := before + rest + [Release(side)];
  }

  lemma {:induction false} ReachScan(s: Pair, t: nat, cell: nat) returns (s': Pair, actions: seq<Action>)
    requires Unlocked(s, t) && cell < PAIR_CELLS && s.cells[cell] == Empty
    ensures Leads(s, t, actions, s')
    ensures s' == s.(threads := s.threads[t := Thread(s.nextId, Scanning(Attempt(s.seqNum, SideOf(cell), cell, {}, 0),
                                                                         0))],
                     nextId := s.nextId + 1, lock := s.lock[SideOf(cell) := Some(t)])
  {
    hide Leads;
    var side := SideOf(cell);
    var s1, start := StartAttempt(s, t);
    var s2 := Do(s1, t, FindFree(cell));
    ThenOne(s, t, start, s1, FindFree(cell));
    var s3 := Do(s2, t, TakeLock(side));
    ThenOne(s, t, start + [FindFree(cell)], s2, TakeLock(side));
    s' := Do(s3, t, Validate);
    ThenOne(s, t, start + [FindFree(cell)] + [TakeLock(side)], s3, Validate);
    actions := start + [FindFree(cell)] + [TakeLock(side)] + [Validate];
  }

  lemma {:induction false} StartAttempt(s: Pair, t: nat) returns (s': Pair, actions: seq<Action>)
    requires Unlocked(s, t)
    ensures Leads(s, t, actions, s')
    ensures s' == s.(threads := s.threads[t := Thread(s.nextId, ReadBoth(s.seqNum))], nextId := s.nextId + 1)
  {
    hide Leads;
    var s1 := Do(s, t, NewAttempt);
    LeadsOne(s, t, NewAttempt);
    var s2 := Do(s1, t, ReadSeq);
    ThenOne(s, t, [NewAttempt], s1, ReadSeq);
    s' := Do(s2, t, ReadSeq);
    ThenOne(s, t, [NewAttempt] + [ReadSeq], s2, ReadSeq);
    assert [s.seqNum[0], s.seqNum[1]] == s.seqNum;
    actions := [NewAttempt] + [ReadSeq] + [ReadSeq];
  }

  // A thread that holds the lock of the bucket, and may change cells, changes just the one.
  lemma {:induction false} ChangeAlone(s: Pair, t: nat, cell: nat, value: Slot) returns (actions: seq<Action>)
    requires Shaped(s) && t in s.threads && MayChange(s.threads[t].phase) && cell < PAIR_CELLS && !value.Ours?
    requires HasAttempt(s.threads[t].phase) ==> AttemptShaped(s.threads[t].phase.a)
    requires s.lock[SideOf(cell)] == Some(t) && s.change == [None, None]
    ensures Leads(s, t, actions, s.(cells := s.cells[cell := value],
                                    seqNum := s.seqNum[SideOf(cell) := s.seqNum[SideOf(cell)] + 2]))
  {
    hide Leads, AttemptShaped;
    var side := SideOf(cell);
    var s1 := Do(s, t, BeginChange(cell, value));
    LeadsOne(s, t, BeginChange(cell, value));
    var s2 := Do(s1, t, StoreChange(side));
    ThenOne(s, t, [BeginChange(cell, value)], s1, StoreChange(side));
    var s3 := Do(s2, t, EndChange(side));
    ThenOne(s, t, [BeginChange(cell, value)] + [StoreChange(side)], s2, EndChange(side));
    assert s3.change == s.change;
    assert s3 == s.(cells := s.cells[cell := value], seqNum := s.seqNum[side := s.seqNum[side] + 2]);
    actions := [BeginChange(cell, value)] + [StoreChange(side)] + [EndChange(side)];
  }

  // A thread that found both buckets full makes room in the primary one, and then adds its
  // entry there: it commits, as long as it did not write the other bucket.
  lemma {:induction false} MakeRoomAndAdd(s: Pair, t: nat, cell: nat) returns (actions: seq<Action>, color: nat)
    requires Unlocked(s, t) && cell < CUCKOO_BUCKET_SIZE
    ensures color <= MAX_VALID_COLOR && NotInUse(s.cells[cell := Empty], color)
    ensures Leads(s, t, actions, Added(s, t, cell, color, 4))
  {
    hide Leads;
    var s1, before := ReachFreed(s, t, cell);
    var rest;
    rest, color := FinishAdd(s1, t, s.nextId, Attempt(s.seqNum, 0, cell, {}, 0));
    var s2 := s1.(cells := s1.cells[cell := Ours(s.nextId, color)], seqNum := s1.seqNum[0 := s1.seqNum[0] + 2],
                  threads := s1.threads[t := Thread(s.nextId, Idle)],
                  committed := s1.committed[s.nextId := color]);
    LeadsOn(s, t, before, s1, rest, s2);
    ThenOne(s, t, before + rest, s2, Release(0));
    assert Do(s2, t, Release(0)) == Added(s, t, cell, color, 4);
    actions := before + rest + [Release(0)];
  }

  lemma {:induction false} ReachFreed(s: Pair, t: nat, cell: nat) returns (s': Pair, actions: seq<Action>)
    requires Unlocked(s, t) && cell < CUCKOO_BUCKET_SIZE
    ensures Leads(s, t, actions, s')
    ensures s' == s.(cells := s.cells[cell := Empty], seqNum := s.seqNum[0 := s.seqNum[0] + 2],
                     threads := s.threads[t := Thread(s.nextId, Scanning(Attempt(s.seqNum, 0, cell, {}, 0), 0))],
                     nextId := s.nextId + 1, lock := s.lock[0 := Some(t)])
  {
    hide Leads;
    var s1, before := ReachMaking(s, t);
    var change := ChangeAlone(s1, t, cell, Empty);
    var s2 := s1.(cells := s1.cells[cell := Empty], seqNum := s1.seqNum[0 := s1.seqNum[0] + 2]);
    LeadsOn(s, t, before, s1, change, s2);
    ThenOne(s, t, before + change, s2, PickFreed(cell));
    s' := Do(s2, t, PickFreed(cell));
    actions := before + change + [PickFreed(cell)];
  }

  lemma {:induction false} ReachMaking(s: Pair, t: nat) returns (s': Pair, actions: seq<Action>)
    requires Unlocked(s, t)
    ensures Leads(s, t, actions, s')
    ensures s' == s.(threads := s.threads[t := Thread(s.nextId, Making(Attempt(s.seqNum, 0, 0, {}, 0)))],
                     nextId := s.nextId + 1, lock := s.lock[0 := Some(t)])
  {
    hide Leads;
    var s1, start := StartAttempt(s, t);
    var s2 := Do(s1, t, FindNone);
    ThenOne(s, t, start, s1, FindNone);
    var s3 := Do(s2, t, TakeLock(0));
    ThenOne(s, t, start + [FindNone], s2, TakeLock(0));
    s' := Do(s3, t, Validate);
    ThenOne(s, t, start + [FindNone] + [TakeLock(0)], s3, Validate);
    actions := start + [FindNone] + [TakeLock(0)] + [Validate];
  }
}
