// Whole runs of operations, against a plain dictionary.
module Runs {
  import opened Keys
  import opened Hashing
  import opened Store
  import opened Order
  import opened Steps
  import opened Trie
  import opened Demands
  import opened Iteration
  import opened Verify

  datatype Op = InsertOp(kv: KV) | UpsertOp(kv: KV) | UpdateOp(kv: KV) | LookupOp(key: Key)

  datatype Answer =
    | Inserted(alreadyIn: bool)
    | Upserted(createdNew: bool)
    | Updated(found: bool)
    | Found(result: Option<KV>)

  // The reference: what an operation does to a plain dictionary, and what it answers.
  function Apply(dict: Dict, op: Op): Dict {
    match op
    case InsertOp(kv) => if kv.key in dict then dict else dict[kv.key := kv.value]
    case UpsertOp(kv) => dict[kv.key := kv.value]
    case UpdateOp(kv) => if kv.key in dict then dict[kv.key := kv.value] else dict
    case LookupOp(_) => dict
  }

  function Expected(dict: Dict, op: Op): Answer {
    match op
    case InsertOp(kv) => Inserted(kv.key in dict)
    case UpsertOp(kv) => Upserted(kv.key !in dict)
    case UpdateOp(kv) => Updated(kv.key in dict)
    case LookupOp(key) => Found(if key in dict then Some(KV(key, dict[key])) else None)
  }

  // The dictionary after a run that starts empty.
  function After(ops: seq<Op>): Dict {
    if |ops| == 0 then map[] else Apply(After(ops[..|ops| - 1]), ops[|ops| - 1])
  }

  // Does the operation store a value under the key, if the key was (not) there before?
  predicate Stores(op: Op, key: Key, present: bool) {
    match op
    case InsertOp(kv) => kv.key == key && !present
    case UpsertOp(kv) => kv.key == key
    case UpdateOp(kv) => kv.key == key && present
    case LookupOp(_) => false
  }

  predicate Creates(op: Op, key: Key) {
    (op.InsertOp? || op.UpsertOp?) && op.kv.key == key
  }

  // Some insert or upsert of the run named the key.
  ghost predicate Named(ops: seq<Op>, key: Key) {
    exists i :: 0 <= i < |ops| && Creates(ops[i], key)
  }

  // Operation i of the run stored the value under the key, and no later one stored
  // another.
  ghost predicate LastStored(ops: seq<Op>, key: Key, value: seq<Byte>, i: nat) {
    && i < |ops| && !ops[i].LookupOp? && ops[i].kv == KV(key, value)
    && Stores(ops[i], key, Named(ops[..i], key))
    && forall j :: i < j < |ops| ==> !Stores(ops[j], key, true)
  }

  // A key is in the dictionary exactly if some insert or upsert named it.
  lemma {:induction false} NamedIsHeld(ops: seq<Op>, key: Key)
    ensures key in After(ops) <==> Named(ops, key)
  {
    if |ops| > 0 {
      var e := |ops| - 1;
      var prefix := ops[..e];
      NamedIsHeld(prefix, key);
      assert forall i :: 0 <= i < e ==> prefix[i] == ops[i];
      if Named(prefix, key) {
        var i :| 0 <= i < |prefix| && Creates(prefix[i], key);
        assert Creates(ops[i], key);
      }
      if Named(ops, key) {
        var i :| 0 <= i < |ops| && Creates(ops[i], key);
        assert i < e ==> Creates(prefix[i], key);
      }
    }
  }

  // A key is in the dictionary exactly if some insert or upsert named it, and its value
  // is the one last stored.
  lemma {:induction false} RunHoldsLastStored(ops: seq<Op>, key: Key)
    ensures key in After(ops) <==> Named(ops, key)
    ensures key in After(ops) ==> exists i: nat :: LastStored(ops, key, After(ops)[key], i)
    ensures forall value, i: nat :: LastStored(ops, key, value, i) ==> key in After(ops) && After(ops)[key] == value
  {
    NamedIsHeld(ops, key);
    if key in After(ops) {
      StoredSome(ops, key);
    }
    forall value, i: nat | LastStored(ops, key, value, i)
      ensures key in After(ops) && After(ops)[key] == value
    {
      StoredIsHeld(ops, key, value, i);
    }
  }

  lemma {:induction false} StoredSome(ops: seq<Op>, key: Key)
    requires key in After(ops)
    ensures exists i: nat :: LastStored(ops, key, After(ops)[key], i)
  {
    var e := |ops| - 1;
    var prefix := ops[..e];
    NamedIsHeld(prefix, key);
    if Stores(ops[e], key, key in After(prefix)) {
      assert LastStored(ops, key, After(ops)[key], e);
    } else {
      StoredSome(prefix, key);
      var i: nat :| LastStored(prefix, key, After(prefix)[key], i);
      assert prefix[..i] == ops[..i];
      assert LastStored(ops, key, After(ops)[key], i);
    }
  }

  lemma {:induction false} StoredIsHeld(ops: seq<Op>, key: Key, value: seq<Byte>, i: nat)
    requires LastStored(ops, key, value, i)
    ensures key in After(ops) && After(ops)[key] == value
  {
    var e := |ops| - 1;
    var prefix := ops[..e];
    NamedIsHeld(prefix, key);
    if i < e {
      assert prefix[..i] == ops[..i];
      StoredIsHeld(prefix, key, value, i);
      assert !Stores(ops[e], key, true);
    }
  }

  // What the answer says about the dictionary before the operation.
  ghost predicate Tells(dict: Dict, op: Op, answer: Answer) {
    match op
    case InsertOp(kv) => answer.Inserted? && (answer.alreadyIn <==> kv.key in dict)
    case UpsertOp(kv) => answer.Upserted? && (answer.createdNew <==> kv.key !in dict)
    case UpdateOp(kv) => answer.Updated? && (answer.found <==> kv.key in dict)
    case LookupOp(key) =>
      && answer.Found? && (answer.result.None? <==> key !in dict)
      && forall pair :: answer.result == Some(pair) <==> pair.key == key && Holds(dict, pair)
  }

  // What the answer says about the operations before it: whether an insert or upsert named
  // the key and, for a lookup, the value last stored under it.
  ghost predicate TellsOfRun(ops: seq<Op>, op: Op, answer: Answer) {
    match op
    case InsertOp(kv) => answer.Inserted? && (answer.alreadyIn <==> Named(ops, kv.key))
    case UpsertOp(kv) => answer.Upserted? && (answer.createdNew <==> !Named(ops, kv.key))
    case UpdateOp(kv) => answer.Updated? && (answer.found <==> Named(ops, kv.key))
    case LookupOp(key) =>
      && answer.Found? && (answer.result.None? <==> !Named(ops, key))
      && forall pair :: answer.result == Some(pair) <==>
           pair.key == key && exists i: nat :: LastStored(ops, key, pair.value, i)
  }

  lemma {:induction false} AnswersTellOfRun(ops: seq<Op>, op: Op, answer: Answer)
    requires Tells(After(ops), op, answer)
    ensures TellsOfRun(ops, op, answer)
  {
    hide LastStored, Named, After;
    match op
    case InsertOp(kv) => NamedIsHeld(ops, kv.key);
    case UpsertOp(kv) => NamedIsHeld(ops, kv.key);
    case UpdateOp(kv) => NamedIsHeld(ops, kv.key);
    case LookupOp(key) => RunHoldsLastStored(ops, key);
  }

  // The dictionary after a run, pair by pair.
  lemma {:induction false} HeldIsStored(ops: seq<Op>)
    ensures forall kv :: Holds(After(ops), kv) <==> exists i: nat :: LastStored(ops, kv.key, kv.value, i)
  {
    hide LastStored, After;
    forall kv
      ensures Holds(After(ops), kv) <==> exists i: nat :: LastStored(ops, kv.key, kv.value, i)
    {
      RunHoldsLastStored(ops, kv.key);
    }
  }

  lemma {:induction false} AfterOne(ops: seq<Op>, n: nat)
    requires n < |ops|
    ensures After(ops[..n + 1]) == Apply(After(ops[..n]), ops[n])
  {
    assert ops[..n + 1][..n] == ops[..n];
  }

  lemma {:induction false} NothingYet(ops: seq<Op>)
    ensures After(ops[..0]) == map[]
  {
  }

  // Only an operation that brings in a new key may be refused.
  predicate MayBeRefused(dict: Dict, op: Op) {
    (op.InsertOp? || op.UpsertOp?) && op.kv.key !in dict
  }

  lemma {:induction false} RefusedIsNew(ops: seq<Op>, i: nat)
    requires i < |ops|
    ensures MayBeRefused(After(ops[..i]), ops[i]) ==> Brings(ops[i]) && !Named(ops[..i], ops[i].kv.key)
  {
    if Brings(ops[i]) {
      NamedIsHeld(ops[..i], ops[i].kv.key);
    }
  }

  predicate Brings(op: Op) { op.InsertOp? || op.UpsertOp? }

  // All prefixes of the keys that the run may bring in.
  ghost function RunPrefixes(ops: seq<Op>): set<Path> {
    set i, p | 0 <= i < |ops| && Brings(ops[i]) && p in Own(Symbols(ops[i].kv.key)) :: p
  }

  // No mix value is zero, and no bucket is the primary place of more than four prefixes.
  ghost predicate Fitting(g: Geometry, paths: set<Path>) {
    g.NoZeroMix() && forall b: nat :: PlacesIn(g, paths, b) <= 4
  }

  // The nodes are prefixes of the run's keys, and all entries are in their primary buckets.
  ghost predicate AllAtHome(g: Geometry, paths: set<Path>, dict: Dict, at: set<Path>, room: multiset<nat>) {
    && at <= paths && (forall key :: key in dict ==> Own(Symbols(key)) <= paths)
    && forall b: nat :: b < g.numBuckets ==> room[b] + PlacesIn(g, at, b) == 4
  }

  lemma {:induction false} PlaceInRange(g: Geometry, paths: set<Path>, b: nat)
    requires g.Valid() && b >= g.numBuckets
    ensures PlacesIn(g, paths, b) == 0
  {
    forall p | p in paths
      ensures PlaceOf(g, p) < g.numBuckets
    {
      HashInRange(g, HASH_START_VALUE, p);
    }
    assert PlacedIn(g, paths, b) == {};
  }

  // While all entries are in their primary buckets, there is room for every key of the run.
  lemma {:induction false} HomeHasRoom(g: Geometry, paths: set<Path>, dict: Dict, at: set<Path>, room: multiset<nat>,
                                       t: Path)
    requires g.Valid() && Fitting(g, paths) && AllAtHome(g, paths, dict, at, room) && Own(t) <= paths
    ensures RoomFor(g, room, at, dict, t)
  {
    forall y: Path, b: nat | MayNeed(dict, t, y)
      ensures PlacesIn(g, Own(t) + {y} - at, b) <= room[b]
    {
      NeededIsOfRun(paths, dict, t, y);
      var new' := Own(t) + {y} - at;
      PlacesDisjoint(g, new', at, b);
      PlacesMonotone(g, new' + at, paths, b);
      if b >= g.numBuckets {
        PlaceInRange(g, new', b);
      }
    }
  }

  lemma {:induction false} NeededIsOfRun(paths: set<Path>, dict: Dict, t: Path, y: Path)
    requires (forall key :: key in dict ==> Own(Symbols(key)) <= paths) && Own(t) <= paths && MayNeed(dict, t, y)
    ensures y in paths
  {
    InOwn(t, y);
    if !(y <= t) {
      var key :| key in dict && y <= Symbols(key);
      InOwn(Symbols(key), y);
    }
  }

  // Which nodes an operation may add.
  ghost predicate AddsFor(g: Geometry, op: Op, dict: Dict, at: set<Path>, at': set<Path>) {
    if Brings(op) then (at == {} && at' == {[]}) || Grew(g, dict, Symbols(op.kv.key), at, at') else at' == at
  }

  lemma {:induction false} StaysAtHome(g: Geometry, paths: set<Path>, op: Op, dict: Dict, at: set<Path>,
                                       room: multiset<nat>, at': set<Path>, room': multiset<nat>)
    requires g.NoZeroMix() && AllAtHome(g, paths, dict, at, room)
    requires Brings(op) ==> Own(Symbols(op.kv.key)) <= paths
    requires AddsFor(g, op, dict, at, at') && Granted(g, true, at, room, true, at', room')
    ensures AllAtHome(g, paths, Apply(dict, op), at', room')
  {
    forall p | p in at'
      ensures p in paths
    {
      if p !in at && at != {} {
        NeededIsOfRun(paths, dict, Symbols(op.kv.key), p);
      } else if p !in at {
        InOwn(Symbols(op.kv.key), []);
        if Grew(g, dict, Symbols(op.kv.key), at, at') {
          NeededIsOfRun(paths, dict, Symbols(op.kv.key), p);
        }
      }
    }
  }

  lemma {:induction false} OfRun(ops: seq<Op>, i: nat)
    requires i < |ops| && Brings(ops[i])
    ensures Own(Symbols(ops[i].kv.key)) <= RunPrefixes(ops)
  {
  }

  // One operation on the trie. If it is refused, it brings in a new key, and the table has
  // not the room that it may need or some mix value is zero.
  method Perform(trie: CuckooTrie, op: Op, attempts: nat) returns (ok: bool, answer: Answer)
    requires trie.Valid()
    modifies trie, trie.table`spot, trie.table`history, trie.table.cells, trie.table.seqs
    ensures ok ==> trie.Valid() && trie.dict == Apply(old(trie.dict), op) && answer == Expected(old(trie.dict), op)
    ensures ok ==> Tells(old(trie.dict), op, answer)
    ensures !ok && attempts > 0 ==> MayBeRefused(old(trie.dict), op)
    ensures attempts > 0 ==>
              Granted(trie.table.g, old(Brings(op) ==> trie.HasRoom(op.kv.key)), old(trie.Paths()),
                      old(trie.table.Room()), ok, trie.Paths(), trie.table.Room())
    ensures ok ==> AddsFor(trie.table.g, op, old(trie.dict), old(trie.Paths()), trie.Paths())
  {
    hide Good, Placed, RoomOf, WriteLog, Granted, RoomFor, Grew, Symbols;
    NothingTaken(trie.table.g, true, trie.Paths(), trie.table.Room());
    match op
    case InsertOp(kv) =>
      var status := trie.Insert(kv, attempts);
      ok, answer := status == S_OK || status == S_ALREADYIN, Inserted(status == S_ALREADYIN);
    case UpsertOp(kv) =>
      var status, createdNew := trie.Upsert(kv, attempts);
      ok, answer := status == S_OK, Upserted(createdNew);
    case UpdateOp(kv) =>
      var status := trie.Update(kv);
      ok, answer := true, Updated(status == S_OK);
    case LookupOp(key) =>
      var result := trie.Lookup(key);
      ok, answer := true, Found(result);
  }

  // Performs the operations in order on a new trie, up to the first that is refused,
  // which can only be one that brings in a new key; none is refused if the prefixes of the
  // run's keys fit in their primary buckets. Every answer given is that of a plain
  // dictionary; after a run that is not refused the consistency check succeeds, and a scan
  // from any key returns the rest of the dictionary in ascending order.
  method Run(g: Geometry, ops: seq<Op>, attempts: nat, from: Key)
      returns (answers: seq<Answer>, scanned: seq<KV>, isOk: bool)
    requires g.Valid()
    ensures |answers| <= |ops|
    ensures forall i :: 0 <= i < |answers| ==> answers[i] == Expected(After(ops[..i]), ops[i])
    ensures forall i :: 0 <= i < |answers| ==> TellsOfRun(ops[..i], ops[i], answers[i])
    ensures |answers| < |ops| && attempts > 0 ==> MayBeRefused(After(ops[..|answers|]), ops[|answers|])
    ensures |answers| < |ops| && attempts > 0 ==>
              Brings(ops[|answers|]) && !Named(ops[..|answers|], ops[|answers|].kv.key)
    ensures attempts > 0 && Fitting(g, RunPrefixes(ops)) ==> |answers| == |ops|
    ensures |answers| == |ops| ==>
              && isOk && Ascending(scanned)
              && (forall kv :: kv in scanned <==> Holds(After(ops), kv) && KeyCompare(kv.key, from) >= 0)
              && forall kv :: kv in scanned <==>
                   (exists i: nat :: LastStored(ops, kv.key, kv.value, i)) && KeyCompare(kv.key, from) >= 0
  {
    hide Good, Placed, RoomOf, WriteLog, After, Apply, Expected, MayBeRefused, RunPrefixes, AllAtHome, Granted, AddsFor,
         Fitting, Tells, TellsOfRun, LastStored, Named;
    NothingYet(ops);
    var trie := new CuckooTrie(g);
    ghost var fits, paths := attempts > 0 && Fitting(g, RunPrefixes(ops)), RunPrefixes(ops);
    HomeWhenEmpty(g, paths, trie.table.Room());
    answers, scanned, isOk := [], [], false;
    while |answers| < |ops|
      invariant trie.Valid() && fresh(trie) && fresh(trie.table) && fresh(trie.table.cells) && fresh(trie.table.seqs)
      invariant |answers| <= |ops| && trie.dict == After(ops[..|answers|])
      invariant forall i :: 0 <= i < |answers| ==> answers[i] == Expected(After(ops[..i]), ops[i])
      invariant forall i :: 0 <= i < |answers| ==> TellsOfRun(ops[..i], ops[i], answers[i])
      invariant trie.table.g == g && (fits ==> AllAtHome(g, paths, trie.dict, trie.Paths(), trie.table.Room()))
      decreases |ops| - |answers|
    {
      AfterOne(ops, |answers|);
      var ok, answer := PerformNext(trie, ops, |answers|, attempts);
      if !ok {
        RefusedIsNew(ops, |answers|);
        return;
      }
      AnswersTellOfRun(ops[..|answers|], ops[|answers|], answer);
      answers := answers + [answer];
    }
    assert ops[..|ops|] == ops;
    var verifier := new Verifier(trie);
    isOk := verifier.CheckTrie();
    var iter := new CtIter(trie);
    scanned := iter.Scan(from);
    HeldIsStored(ops);
  }

  // Performs operation i of the run.
  method PerformNext(trie: CuckooTrie, ops: seq<Op>, i: nat, attempts: nat) returns (ok: bool, answer: Answer)
    requires trie.Valid() && i < |ops|
    modifies trie, trie.table`spot, trie.table`history, trie.table.cells, trie.table.seqs
    ensures ok ==> trie.Valid() && trie.dict == Apply(old(trie.dict), ops[i])
                   && answer == Expected(old(trie.dict), ops[i]) && Tells(old(trie.dict), ops[i], answer)
    ensures !ok && attempts > 0 ==> MayBeRefused(old(trie.dict), ops[i])
    ensures var g, paths := trie.table.g, RunPrefixes(ops);
            attempts > 0 && Fitting(g, paths)
            && old(AllAtHome(g, paths, trie.dict, trie.Paths(), trie.table.Room())) ==>
              ok && AllAtHome(g, paths, trie.dict, trie.Paths(), trie.table.Room())
  {
    hide Good, Placed, RoomOf, WriteLog, Apply, Expected, MayBeRefused, RunPrefixes, AllAtHome, Granted, RoomFor,
         AddsFor, Fitting;
    ghost var g, paths, dict, at, room := trie.table.g, RunPrefixes(ops), trie.dict, trie.Paths(), trie.table.Room();
    ghost var fits := attempts > 0 && Fitting(g, paths) && AllAtHome(g, paths, dict, at, room);
    if Brings(ops[i]) {
      OfRun(ops, i);
      if fits {
        HomeHasRoom(g, paths, dict, at, room, Symbols(ops[i].kv.key));
      }
    }
    ok, answer := Perform(trie, ops[i], attempts);
    if fits {
      MustSucceed(g, paths, at, room, ok, trie.Paths(), trie.table.Room());
      StaysAtHome(g, paths, ops[i], dict, at, room, trie.Paths(), trie.table.Room());
    }
  }

  lemma {:induction false} MustSucceed(g: Geometry, paths: set<Path>, at: set<Path>, room: multiset<nat>, ok: bool,
                                       at': set<Path>, room': multiset<nat>)
    requires Fitting(g, paths) && Granted(g, true, at, room, ok, at', room')
    ensures ok && g.NoZeroMix()
  {
  }

  lemma {:induction false} HomeWhenEmpty(g: Geometry, paths: set<Path>, room: multiset<nat>)
    requires forall b :: 0 <= b < g.numBuckets ==> room[b] == 4
    ensures AllAtHome(g, paths, map[], {}, room)
  {
    assert forall b: nat :: PlacedIn(g, {}, b) == {};
  }

  // ------------------------------------------------------------------
  // Two instances
  // ------------------------------------------------------------------

  // The empty key and the key with a single zero byte have five prefixes, and one of them
  // has another primary bucket than the root.
  lemma {:induction false} TwoKeysFit(g: Geometry, a: KV, b: KV)
    requires g.Valid() && g.NoZeroMix() && a.key == [] && b.key == [0]
    ensures Fitting(g, RunPrefixes([InsertOp(a), InsertOp(b)]))
  {
    TwoKeysPrefixes(a, b);
    FirstSteps(g);
    hide RunPrefixes, PlaceOf;
    var five: set<Path> := {[], [0], [1], [1, 1], [1, 1, 0]};
    forall c: nat
      ensures PlacesIn(g, five, c) <= 4
    {
      var four: set<Path> := if c == 0 then {[], [0], [1, 1], [1, 1, 0]} else {[0], [1], [1, 1], [1, 1, 0]};
      SmallerSet(PlacedIn(g, five, c), four);
    }
  }

  lemma {:induction false} TwoKeysPrefixes(a: KV, b: KV)
    requires a.key == [] && b.key == [0]
    ensures RunPrefixes([InsertOp(a), InsertOp(b)]) == {[], [0], [1], [1, 1], [1, 1, 0]}
  {
    var ops := [InsertOp(a), InsertOp(b)];
    TwoKeysSymbols();
    hide Symbols, Own;
    OwnRoot();
    OwnSnoc([], 0);
    OwnSnoc([], 1);
    OwnSnoc([1], 1);
    OwnSnoc([1, 1], 0);
    assert [] + [0] == [0] && [] + [1] == [1] && [1] + [1] == [1, 1] && [1, 1] + [0] == [1, 1, 0];
    assert RunPrefixes(ops) == Own(Symbols(ops[0].kv.key)) + Own(Symbols(ops[1].kv.key));
  }

  lemma {:induction false} TwoKeysSymbols()
    ensures Symbols([]) == [0] && Symbols([0]) == [1, 1, 0]
  {
  }

  lemma {:induction false} OwnRoot()
    ensures Own([]) == {[]}
  {
    forall p
      ensures p in Own([]) <==> p == []
    {
      InOwn([], p);
    }
  }

  lemma {:induction false} OwnSnoc(t: Path, x: Symbol)
    ensures Own(t + [x]) == Own(t) + {t + [x]}
  {
    forall p
      ensures p in Own(t + [x]) <==> p in Own(t) + {t + [x]}
    {
      InOwn(t, p);
      InOwn(t + [x], p);
      if p <= t + [x] && p != t + [x] {
        assert p == (t + [x])[..|p|] == t[..|p|];
      }
    }
  }

  lemma {:induction false} FirstSteps(g: Geometry)
    requires g.Valid()
    ensures PlaceOf(g, []) == 0 && PlaceOf(g, [1]) > 0
  {
  }

  // With all mix values zero no entry but the root ever finds a place.
  const ZeroMix: Geometry := Geometry(64, seq(TAG_VALUES, t => 0))

  lemma {:induction false} ZeroMixIsValid()
    ensures ZeroMix.Valid() && forall hash :: !ZeroMix.Moves(hash)
  {
  }

  // If all nodes that a new key may need have a mix value of zero, it is never added, no
  // matter how often the insertion is tried.
  method InsertInVain(trie: CuckooTrie, kv: KV, attempts: nat) returns (status: ApiStatus)
    requires trie.Valid() && !trie.isEmpty && kv.key !in trie.dict
    requires forall p :: p !in trie.Paths() && MayNeed(trie.dict, Symbols(kv.key), p) ==>
               !trie.table.g.Moves(HashOf(trie.table.g, p))
    modifies trie, trie.table`spot, trie.table`history, trie.table.cells, trie.table.seqs
    ensures status != S_OK && status != S_ALREADYIN
  {
    hide MayNeed, Grew, Good, Placed, RoomOf, WriteLog, Granted, RoomFor, Symbols;
    ghost var stored, at := trie.dict, trie.Paths();
    status := trie.Insert(kv, attempts);
    if status == S_OK {
      var _ := NewNode(trie.table.g, stored, Symbols(kv.key), at, trie.Paths());
    }
  }

  lemma {:induction false} NewNode(g: Geometry, dict: Dict, t: Path, at: set<Path>, at': set<Path>) returns (p: Path)
    requires Grew(g, dict, t, at, at') && at != at'
    ensures p !in at && MayNeed(dict, t, p) && g.Moves(HashOf(g, p))
  {
    p :| p in at' && p !in at;
    assert p in at' - at;
  }
}
