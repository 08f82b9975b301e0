// What single stores do to the trie: stores outside it, stores to a leaf, and the
// contents of the leaves before and after.
module Steps {
  import opened Keys
  import opened Hashing
  import opened Store
  import opened Structure
  import opened Order

  ghost predicate Clean(n: Nodes) {
    forall l :: LeafAt(n, l) ==> !n[l].body.dirty
  }

  // The invariant of a trie that is not empty.
  ghost predicate Good(g: Geometry, n: Nodes, s: Shape, order: seq<Loc>, first: Option<Loc>, dict: Dict) {
    Findable(g, n, s) && MaxAll(n, s) && ListOk(n, order, first) && Clean(n) && DictOk(n, dict)
  }

  // ------------------------------------------------------------------
  // Stores outside the trie
  // ------------------------------------------------------------------

  // Entries of the trie are as before.
  ghost predicate SameInside(n: Nodes, s: Shape, n': Nodes) {
    forall l :: l in s.of ==> (l in n <==> l in n') && (l in n ==> n'[l] == n[l])
  }

  lemma {:induction false} StoreOutside(g: Geometry, n: Nodes, s: Shape, n': Nodes)
    requires Sound(g, n, s) && MaxAll(n, s) && SameInside(n, s, n')
    ensures Sound(g, n', s) && MaxAll(n', s)
  {
    assert NamedOk(g, n, s, []);
    SubtreeFrame(g, n, s, n', []);
    forall p | Has(n', s, p)
      ensures JumpChildHides(n', s, p) && MaxOk(n', s, p)
    {
      assert JumpChildHides(n, s, p) && MaxOk(n, s, p);
      if !BodyAt(n, s, p).Leaf? {
        LastChildIsChild(g, n, s, [], p);
      }
    }
  }

  // ------------------------------------------------------------------
  // Stores to a leaf of the trie
  // ------------------------------------------------------------------

  ghost predicate LeafEdit(n: Nodes, l: Loc, n': Nodes) {
    && LeafAt(n, l) && LeafAt(n', l) && n' == n[l := n'[l]]
    && n'[l].parentColor == n[l].parentColor && n'[l].lastSymbol == n[l].lastSymbol
    && n'[l].body.kv.key == n[l].body.kv.key
  }

  lemma {:induction false} EditLeaf(g: Geometry, n: Nodes, s: Shape, l: Loc, n': Nodes, c: Path)
    requires Sound(g, n, s) && LeafEdit(n, l, n')
    ensures Sound(g, n', s) && n'.Keys == n.Keys
    ensures MaxAll(n, s) ==> MaxAll(n', s)
    ensures MaxBut(n, s, c) ==> MaxBut(n', s, c)
  {
    SubtreeFrame(g, n, s, n', []);
    assert NamedOk(g, n, s, []);
    forall p | Has(n', s, p)
      ensures JumpChildHides(n', s, p) && (MaxOk(n, s, p) ==> MaxOk(n', s, p))
      ensures IsLastChild(n, s, p, c) ==> IsLastChild(n', s, p, c)
    {
      EditLeafOne(g, n, s, l, n', p);
    }
  }

  lemma {:induction false} EditLeafOne(g: Geometry, n: Nodes, s: Shape, l: Loc, n': Nodes, p: Path)
    requires Sound(g, n, s) && LeafEdit(n, l, n') && Has(n, s, p)
    ensures Has(n', s, p) && JumpChildHides(n', s, p) && (MaxOk(n, s, p) ==> MaxOk(n', s, p))
    ensures BodyAt(n, s, p).Leaf? <==> BodyAt(n', s, p).Leaf?
    ensures !BodyAt(n, s, p).Leaf? ==> BodyAt(n', s, p) == BodyAt(n, s, p)
  {
    assert JumpChildHides(n, s, p);
    if !BodyAt(n, s, p).Leaf? {
      LastChildIsChild(g, n, s, [], p);
      var d := LastChild(n, s, p);
      assert MaxLeafOf(s.at[d], n'[s.at[d]]) == MaxLeafOf(s.at[d], n[s.at[d]]);
    }
  }

  // ------------------------------------------------------------------
  // The leaves as a map
  // ------------------------------------------------------------------

  ghost function LeafBodies(n: Nodes): map<Loc, Body> {
    map l | l in n && n[l].body.Leaf? :: n[l].body
  }

  lemma {:induction false} LeavesAfterLeaf(n: Nodes, l: Loc, node: Node)
    requires node.body.Leaf?
    ensures LeafBodies(n[l := node]) == LeafBodies(n)[l := node.body]
  {
  }

  lemma {:induction false} LeavesAfterBranch(n: Nodes, l: Loc, node: Node)
    requires !node.body.Leaf?
    ensures LeafBodies(n[l := node]) == LeafBodies(n) - {l}
  {
  }

  lemma {:induction false} SameLeaves(n: Nodes, n': Nodes, order: seq<Loc>, first: Option<Loc>, dict: Dict)
    requires LeafBodies(n') == LeafBodies(n)
    ensures forall l :: LeafAt(n', l) <==> LeafAt(n, l)
    ensures forall l :: LeafAt(n, l) && LeafAt(n', l) ==> n'[l].body == n[l].body
    ensures ListOk(n, order, first) ==> ListOk(n', order, first)
    ensures DictOk(n, dict) ==> DictOk(n', dict)
    ensures Clean(n) ==> Clean(n')
  {
    forall l
      ensures LeafAt(n', l) <==> LeafAt(n, l)
      ensures LeafAt(n, l) ==> n'[l].body == n[l].body
    {
      assert l in LeafBodies(n') <==> l in LeafBodies(n);
      assert l in LeafBodies(n) ==> LeafBodies(n')[l] == LeafBodies(n)[l];
    }
    if ListOk(n, order, first) {
      ListFrame(n, order, first, n');
    }
    if DictOk(n, dict) {
      DictFrame(n, dict, n');
    }
  }

  // ------------------------------------------------------------------
  // New leaves in the list
  // ------------------------------------------------------------------

  function PredAt(order: seq<Loc>, k: nat): Option<Loc>
    requires k <= |order|
  {
    if k == 0 then None else Some(order[k - 1])
  }

  function FirstAfter(first: Option<Loc>, k: nat, l: Loc): Option<Loc> {
    if k == 0 then Some(l) else first
  }

  // Entry j is a leaf after the leaves `mid` have taken the place of positions k to
  // k + m of the list, and holds what it held, but for the leaf before position k,
  // which points to the first of `mid`.
  ghost predicate StaysAs(n: Nodes, order: seq<Loc>, k: nat, m: nat, mid: seq<Loc>, n': Nodes, j: Loc)
    requires k + m <= |order| && |mid| > 0
  {
    && (LeafAt(n', j) <==> j in mid || (LeafAt(n, j) && j !in order[k..k + m]))
    && (LeafAt(n, j) && LeafAt(n', j) && j !in mid ==>
          && n'[j].body.kv == n[j].body.kv && n'[j].body.dirty == n[j].body.dirty
          && n'[j].body.next == if PredAt(order, k) == Some(j) then Some(mid[0]) else n[j].body.next)
  }

  ghost predicate LeavesSpliced(n: Nodes, order: seq<Loc>, k: nat, m: nat, mid: seq<Loc>, n': Nodes)
    requires k + m <= |order| && |mid| > 0
  {
    && (forall j {:trigger StaysAs(n, order, k, m, mid, n', j)} :: StaysAs(n, order, k, m, mid, n', j))
    && (forall i :: 0 <= i < |mid| ==> !LeafAt(n, mid[i]))
  }

  lemma {:induction false} Distinct(n: Nodes, order: seq<Loc>, first: Option<Loc>, i: nat, j: nat)
    requires ListOk(n, order, first) && i < |order| && j < |order| && i != j
    ensures order[i] != order[j]
  {
    assert KeyLess(n, order[if i < j then i else j], order[if i < j then j else i]);
    SymLessIrreflexive(KeyOf(n, order[i]));
  }

  lemma {:induction false} OtherStays(n: Nodes, order: seq<Loc>, first: Option<Loc>, k: nat, m: nat, mid: seq<Loc>,
                                      n': Nodes, i: nat)
    requires ListOk(n, order, first) && k + m <= |order| && |mid| > 0 && LeavesSpliced(n, order, k, m, mid, n')
    requires i < |order| && !(k <= i < k + m)
    ensures LeafAt(n', order[i]) && KeyOf(n', order[i]) == KeyOf(n, order[i])
    ensures n'[order[i]].body.next == if i == k - 1 then Some(mid[0]) else n[order[i]].body.next
  {
    ListedAt(n, order, first, i);
    NotReplaced(n, order, first, k, m, i);
    hide ListOk, SymLess, PredAt;
    assert StaysAs(n, order, k, m, mid, n', order[i]);
  }

  lemma {:induction false} NotReplaced(n: Nodes, order: seq<Loc>, first: Option<Loc>, k: nat, m: nat, i: nat)
    requires ListOk(n, order, first) && k + m <= |order| && i < |order| && !(k <= i < k + m)
    ensures order[i] !in order[k..k + m]
    ensures PredAt(order, k) == Some(order[i]) <==> i == k - 1
  {
    hide ListOk;
    if order[i] in order[k..k + m] {
      var x :| 0 <= x < m && order[k..k + m][x] == order[i];
      Distinct(n, order, first, i, k + x);
    }
    if i != k - 1 && k > 0 {
      Distinct(n, order, first, i, k - 1);
    }
  }

  lemma {:induction false} StillListed(n: Nodes, order: seq<Loc>, first: Option<Loc>, k: nat, m: nat, mid: seq<Loc>,
                                       n': Nodes, j: Loc)
    requires ListOk(n, order, first) && k + m <= |order| && |mid| > 0 && LeavesSpliced(n, order, k, m, mid, n')
    requires LeafAt(n', j)
    ensures j in Spliced(order, k, m, mid)
  {
    hide NextAt;
    assert StaysAs(n, order, k, m, mid, n', j);
    if j in mid {
      var i :| 0 <= i < |mid| && mid[i] == j;
      SpliceIndex(order, k, m, mid, k + i);
    } else {
      assert forall x | k <= x < k + m :: order[k..k + m][x - k] == order[x];
      var i :| 0 <= i < |order| && order[i] == j;
      SpliceIndex(order, k, m, mid, if i < k then i else i + |mid| - m);
    }
  }

  // The list stays sorted and complete when leaves that fit take their place in it.
  lemma {:induction false} ListSpliced(n: Nodes, order: seq<Loc>, first: Option<Loc>, k: nat, m: nat, mid: seq<Loc>,
                                       n': Nodes)
    requires ListOk(n, order, first) && k + m <= |order| && |mid| > 0 && LeavesSpliced(n, order, k, m, mid, n')
    requires Fits(n, order, k, m, mid, n')
    ensures ListOk(n', Spliced(order, k, m, mid), FirstAfter(first, k, mid[0]))
  {
    forall i | 0 <= i < |order| && !(k <= i < k + m)
      ensures LeafAt(n', order[i]) && KeyOf(n', order[i]) == KeyOf(n, order[i])
      ensures n'[order[i]].body.next == if i == k - 1 then Some(mid[0]) else n[order[i]].body.next
    {
      OtherStays(n, order, first, k, m, mid, n', i);
    }
    assert OthersStay(n, order, k, m, mid[0], n');
    forall j | LeafAt(n', j)
      ensures j in Spliced(order, k, m, mid)
    {
      StillListed(n, order, first, k, m, mid, n', j);
    }
    SpliceList(n, order, first, k, m, mid, n');
  }

  lemma {:induction false} NoneHasKey(n: Nodes, dict: Dict, key: Key)
    requires DictOk(n, dict) && key !in dict
    ensures forall l :: LeafAt(n, l) ==> n[l].body.kv.key != key
  {
    forall l | LeafAt(n, l)
      ensures n[l].body.kv.key != key
    {
      assert Stored(n, n[l].body.kv);
    }
  }

  // One new leaf.
  lemma {:induction false} InsertLeaf(n: Nodes, order: seq<Loc>, first: Option<Loc>, dict: Dict, k: nat, l: Loc,
                                      kv: KV, n': Nodes)
    requires ListOk(n, order, first) && DictOk(n, dict) && Clean(n)
    requires k <= |order| && IsRank(n, order, Symbols(kv.key), k) && kv.key !in dict
    requires LeavesSpliced(n, order, k, 0, [l], n') && LeafAt(n', l) && n'[l].body == Leaf(kv, NextAt(order, k), false)
    ensures ListOk(n', Spliced(order, k, 0, [l]), FirstAfter(first, k, l))
    ensures DictOk(n', dict[kv.key := kv.value]) && Clean(n')
  {
    hide DictOk, ListOk, LeavesSpliced, IsRank, Clean;
    InsertFits(n, order, first, dict, k, l, kv, n');
    ListSpliced(n, order, first, k, 0, [l], n');
    CleanSpliced(n, order, k, 0, [l], n');
    InsertDict(n, order, dict, k, l, kv, n');
  }

  lemma {:induction false} InsertFits(n: Nodes, order: seq<Loc>, first: Option<Loc>, dict: Dict, k: nat, l: Loc,
                                      kv: KV, n': Nodes)
    requires ListOk(n, order, first) && DictOk(n, dict) && k <= |order| && IsRank(n, order, Symbols(kv.key), k)
             && kv.key !in dict
    requires LeafAt(n', l) && n'[l].body == Leaf(kv, NextAt(order, k), false)
    ensures Fits(n, order, k, 0, [l], n')
  {
    NoneHasKey(n, dict, kv.key);
    RankSeparates(n, order, first, kv.key, k);
    hide ListOk, DictOk, IsRank, SymLess;
    assert KeyOf(n', l) == Symbols(kv.key);
    OneFits(n, order, k, l, n');
  }

  lemma {:induction false} OneFits(n: Nodes, order: seq<Loc>, k: nat, l: Loc, n': Nodes)
    requires k <= |order| && LeafAt(n', l) && n'[l].body.next == NextAt(order, k)
    requires forall i :: 0 <= i < k ==> SymLess(KeyOf(n, order[i]), KeyOf(n', l))
    requires forall i :: k <= i < |order| ==> SymLess(KeyOf(n', l), KeyOf(n, order[i]))
    ensures Fits(n, order, k, 0, [l], n')
  {
    hide SymLess;
  }

  lemma {:induction false} InsertDict(n: Nodes, order: seq<Loc>, dict: Dict, k: nat, l: Loc, kv: KV, n': Nodes)
    requires DictOk(n, dict) && kv.key !in dict && k <= |order|
    requires LeavesSpliced(n, order, k, 0, [l], n') && LeafAt(n', l) && n'[l].body.kv == kv
    ensures DictOk(n', dict[kv.key := kv.value])
  {
    forall kv'
      ensures Stored(n', kv') <==> kv' == kv || (Stored(n, kv') && kv'.key != kv.key)
    {
      hide LeavesSpliced, DictOk, Stored;
      InsertStored(n, order, dict, k, l, kv, n', kv');
    }
    DictSet(n, dict, kv, n');
  }

  lemma {:induction false} InsertStored(n: Nodes, order: seq<Loc>, dict: Dict, k: nat, l: Loc, kv: KV, n': Nodes,
                                        kv': KV)
    requires DictOk(n, dict) && kv.key !in dict && k <= |order|
    requires LeavesSpliced(n, order, k, 0, [l], n') && LeafAt(n', l) && n'[l].body.kv == kv
    ensures Stored(n', kv') <==> kv' == kv || (Stored(n, kv') && kv'.key != kv.key)
  {
    assert Stored(n, kv') <==> Holds(dict, kv');
    if Stored(n, kv') {
      var j :| LeafAt(n, j) && n[j].body.kv == kv';
      assert StaysAs(n, order, k, 0, [l], n', j) && [l][0] == l;
      assert LeafAt(n', j) && n'[j].body.kv == kv';
    }
    if Stored(n', kv') {
      var j :| LeafAt(n', j) && n'[j].body.kv == kv';
      assert StaysAs(n, order, k, 0, [l], n', j);
    }
  }

  // Two leaves in place of one: its pair moves to one of them, a new pair is in the
  // other.
  lemma {:induction false} SplitInTwo(n: Nodes, order: seq<Loc>, first: Option<Loc>, dict: Dict, k: nat, a: Loc,
                                      b: Loc, kv: KV, n': Nodes)
    requires ListOk(n, order, first) && DictOk(n, dict) && Clean(n) && k < |order| && kv.key !in dict
    requires IsRank(n, order, Symbols(kv.key), if SymLess(KeyOf(n, order[k]), Symbols(kv.key)) then k + 1 else k)
    requires LeavesSpliced(n, order, k, 1, [a, b], n') && a != b && LeafAt(n', a) && LeafAt(n', b)
    requires n'[a].body.next == Some(b) && !n'[a].body.dirty
    requires n'[b].body.next == NextAt(order, k + 1) && !n'[b].body.dirty
    requires if SymLess(KeyOf(n, order[k]), Symbols(kv.key))
             then n'[a].body.kv == n[order[k]].body.kv && n'[b].body.kv == kv
             else n'[a].body.kv == kv && n'[b].body.kv == n[order[k]].body.kv
    ensures ListOk(n', Spliced(order, k, 1, [a, b]), FirstAfter(first, k, a))
    ensures DictOk(n', dict[kv.key := kv.value]) && Clean(n')
  {
    NoneHasKey(n, dict, kv.key);
    SplitFits(n, order, first, k, a, b, kv, n');
    ListSpliced(n, order, first, k, 1, [a, b], n');
    CleanSpliced(n, order, k, 1, [a, b], n');
    SplitDict(n, order, dict, k, a, b, kv, n');
  }

  lemma {:induction false} CleanSpliced(n: Nodes, order: seq<Loc>, k: nat, m: nat, mid: seq<Loc>, n': Nodes)
    requires Clean(n) && k + m <= |order| && |mid| > 0 && LeavesSpliced(n, order, k, m, mid, n')
    requires forall i :: 0 <= i < |mid| && LeafAt(n', mid[i]) ==> !n'[mid[i]].body.dirty
    ensures Clean(n')
  {
    forall j | LeafAt(n', j)
      ensures !n'[j].body.dirty
    {
      assert StaysAs(n, order, k, m, mid, n', j);
    }
  }

  predicate SamePair(x: KV, y: KV, u: KV, v: KV) {
    (x == u && y == v) || (x == v && y == u)
  }

  lemma {:induction false} SplitDict(n: Nodes, order: seq<Loc>, dict: Dict, k: nat, a: Loc, b: Loc, kv: KV, n': Nodes)
    requires DictOk(n, dict) && kv.key !in dict && k < |order| && LeafAt(n, order[k])
    requires LeavesSpliced(n, order, k, 1, [a, b], n') && LeafAt(n', a) && LeafAt(n', b)
    requires SamePair(n'[a].body.kv, n'[b].body.kv, kv, n[order[k]].body.kv)
    ensures DictOk(n', dict[kv.key := kv.value])
  {
    forall kv'
      ensures Stored(n', kv') <==> kv' == kv || (Stored(n, kv') && kv'.key != kv.key)
    {
      TwoStored(n, order, dict, k, a, b, kv, n', kv');
    }
    DictSet(n, dict, kv, n');
  }

  lemma {:induction false} SplitFits(n: Nodes, order: seq<Loc>, first: Option<Loc>, k: nat, a: Loc, b: Loc, kv: KV,
                                     n': Nodes)
    requires ListOk(n, order, first) && k < |order| && forall l :: LeafAt(n, l) ==> n[l].body.kv.key != kv.key
    requires IsRank(n, order, Symbols(kv.key), if SymLess(KeyOf(n, order[k]), Symbols(kv.key)) then k + 1 else k)
    requires LeafAt(n', a) && LeafAt(n', b) && n'[a].body.next == Some(b) && n'[b].body.next == NextAt(order, k + 1)
    requires if SymLess(KeyOf(n, order[k]), Symbols(kv.key))
             then n'[a].body.kv == n[order[k]].body.kv && n'[b].body.kv == kv
             else n'[a].body.kv == kv && n'[b].body.kv == n[order[k]].body.kv
    ensures Fits(n, order, k, 1, [a, b], n')
  {
    var u, v := KeyOf(n, order[k]), Symbols(kv.key);
    RankSeparates(n, order, first, kv.key, if SymLess(u, v) then k + 1 else k);
    SymLessTotal(n[order[k]].body.kv.key, kv.key);
    assert LeafAt(n, order[k]);
    forall i | 0 <= i < |order| && i != k
      ensures if i < k then SymLess(KeyOf(n, order[i]), u) && SymLess(KeyOf(n, order[i]), v)
              else SymLess(u, KeyOf(n, order[i])) && SymLess(v, KeyOf(n, order[i]))
    {
      assert KeyLess(n, order[if i < k then i else k], order[if i < k then k else i]);
    }
    TwoFit(n, order, k, a, b, n');
  }

  lemma {:induction false} TwoFit(n: Nodes, order: seq<Loc>, k: nat, a: Loc, b: Loc, n': Nodes)
    requires k < |order| && LeafAt(n', a) && LeafAt(n', b)
    requires n'[a].body.next == Some(b) && n'[b].body.next == NextAt(order, k + 1)
    requires SymLess(KeyOf(n', a), KeyOf(n', b))
    requires forall i :: 0 <= i < |order| && i != k ==>
               if i < k then SymLess(KeyOf(n, order[i]), KeyOf(n', a)) && SymLess(KeyOf(n, order[i]), KeyOf(n', b))
               else SymLess(KeyOf(n', a), KeyOf(n, order[i])) && SymLess(KeyOf(n', b), KeyOf(n, order[i]))
    ensures Fits(n, order, k, 1, [a, b], n')
  {
    hide LeafAt, SymLess;
  }

  lemma {:induction false} TwoStored(n: Nodes, order: seq<Loc>, dict: Dict, k: nat, a: Loc, b: Loc, kv: KV, n': Nodes,
                                     kv': KV)
    requires DictOk(n, dict) && kv.key !in dict && k < |order| && LeafAt(n, order[k])
    requires LeavesSpliced(n, order, k, 1, [a, b], n') && LeafAt(n', a) && LeafAt(n', b)
    requires SamePair(n'[a].body.kv, n'[b].body.kv, kv, n[order[k]].body.kv)
    ensures Stored(n', kv') <==> kv' == kv || (Stored(n, kv') && kv'.key != kv.key)
  {
    assert Stored(n, kv') <==> Holds(dict, kv');
    assert [a, b][0] == a && [a, b][1] == b && order[k..k + 1] == [order[k]];
    if Stored(n, kv') {
      var j :| LeafAt(n, j) && n[j].body.kv == kv';
      assert StaysAs(n, order, k, 1, [a, b], n', j);
      assert Stored(n', kv');
    }
    if Stored(n', kv') {
      var j :| LeafAt(n', j) && n'[j].body.kv == kv';
      assert StaysAs(n, order, k, 1, [a, b], n', j);
      assert kv' == kv || kv' == n[order[k]].body.kv || j !in [a, b];
    }
  }

  // ------------------------------------------------------------------
  // Stores to the predecessor
  // ------------------------------------------------------------------

  // The predecessor is a leaf, or the head of the list (None).
  ghost predicate PredEdited(n: Nodes, pred: Option<Loc>, n': Nodes) {
    if pred.None? then n' == n else LeafEdit(n, pred.value, n')
  }

  ghost function PredDirty(leaves: map<Loc, Body>, pred: Option<Loc>, dirty: bool): map<Loc, Body> {
    if pred.None? || pred.value !in leaves || !leaves[pred.value].Leaf? then leaves
    else leaves[pred.value := leaves[pred.value].(dirty := dirty)]
  }

  ghost function PredNext(leaves: map<Loc, Body>, pred: Option<Loc>, next: Loc): map<Loc, Body> {
    if pred.None? || pred.value !in leaves || !leaves[pred.value].Leaf? then leaves
    else leaves[pred.value := leaves[pred.value].(next := Some(next))]
  }

  lemma {:induction false} PredEditKeeps(g: Geometry, n: Nodes, s: Shape, pred: Option<Loc>, n': Nodes, c: Path)
    requires Sound(g, n, s) && PredEdited(n, pred, n')
    ensures Sound(g, n', s) && n'.Keys == n.Keys
    ensures MaxAll(n, s) ==> MaxAll(n', s)
    ensures MaxBut(n, s, c) ==> MaxBut(n', s, c)
  {
    if pred.Some? {
      EditLeaf(g, n, s, pred.value, n', c);
    }
  }

  // The leaves once `mid` is linked in behind the predecessor.
  lemma {:induction false} LinkedBodies(n: Nodes, order: seq<Loc>, first: Option<Loc>, k: nat, l: Loc, body: Body,
                                        n': Nodes)
    requires ListOk(n, order, first) && k <= |order| && Clean(n) && !LeafAt(n, l) && body.Leaf?
    requires LeafBodies(n') == PredNext(LeafBodies(n)[l := body], PredAt(order, k), l)
    ensures LeavesSpliced(n, order, k, 0, [l], n') && LeafAt(n', l) && n'[l].body == body
  {
    hide NextAt;
    assert k > 0 ==> LeafAt(n, order[k - 1]);
    assert l in LeafBodies(n') && LeafBodies(n')[l] == body;
    forall j
      ensures StaysAs(n, order, k, 0, [l], n', j)
    {
      assert LeafAt(n', j) <==> j in LeafBodies(n');
      assert LeafAt(n, j) <==> j in LeafBodies(n);
      if LeafAt(n, j) {
        assert LeafBodies(n')[j] == n'[j].body;
      }
    }
  }

  lemma {:induction false} LinkedTwoBodies(n: Nodes, order: seq<Loc>, first: Option<Loc>, k: nat, a: Loc, b: Loc,
                                           u: Body, v: Body, n': Nodes)
    requires ListOk(n, order, first) && k < |order| && Clean(n) && !LeafAt(n, a) && !LeafAt(n, b) && a != b
    requires u.Leaf? && v.Leaf?
    requires LeafBodies(n') == PredNext((LeafBodies(n) - {order[k]})[b := v][a := u], PredAt(order, k), a)
    ensures LeavesSpliced(n, order, k, 1, [a, b], n')
    ensures LeafAt(n', a) && n'[a].body == u && LeafAt(n', b) && n'[b].body == v
  {
    hide LeafBodies, PredNext, StaysAs, KeyLess;
    assert LeafAt(n, order[k]);
    if k > 0 {
      assert LeafAt(n, order[k - 1]);
      Distinct(n, order, first, k - 1, k);
    }
    forall j
      ensures StaysAs(n, order, k, 1, [a, b], n', j)
      ensures j == a ==> LeafAt(n', j) && n'[j].body == u
      ensures j == b ==> LeafAt(n', j) && n'[j].body == v
    {
      LinkedTwoAt(n, order, k, a, b, u, v, n', j);
    }
  }

  lemma {:induction false} LinkedTwoAt(n: Nodes, order: seq<Loc>, k: nat, a: Loc, b: Loc, u: Body, v: Body, n': Nodes,
                                       j: Loc)
    requires k < |order| && !LeafAt(n, a) && !LeafAt(n, b) && a != b && u.Leaf? && v.Leaf?
    requires k > 0 ==> LeafAt(n, order[k - 1]) && order[k - 1] != order[k]
    requires LeafBodies(n') == PredNext((LeafBodies(n) - {order[k]})[b := v][a := u], PredAt(order, k), a)
    ensures StaysAs(n, order, k, 1, [a, b], n', j)
    ensures j == a ==> LeafAt(n', j) && n'[j].body == u
    ensures j == b ==> LeafAt(n', j) && n'[j].body == v
  {
    var leaves, leaves' := LeafBodies(n), LeafBodies(n');
    assert LeafAt(n', j) <==> j in leaves';
    assert LeafAt(n, j) <==> j in leaves;
    TwoBodies(leaves, order[k], PredAt(order, k), a, b, u, v, leaves', j);
    if j in leaves' {
      assert leaves'[j] == n'[j].body;
    }
    StaysOne(n, order, k, a, b, n', j);
  }

  lemma {:induction false} TwoBodies(leaves: map<Loc, Body>, gone: Loc, pred: Option<Loc>, a: Loc, b: Loc, u: Body,
                                     v: Body, leaves': map<Loc, Body>, j: Loc)
    requires a !in leaves && b !in leaves && a != b && u.Leaf? && v.Leaf? && pred != Some(gone)
    requires pred.Some? ==> pred.value in leaves && leaves[pred.value].Leaf?
    requires leaves' == PredNext((leaves - {gone})[b := v][a := u], pred, a)
    ensures j in leaves' <==> j == a || j == b || (j in leaves && j != gone)
    ensures j == a ==> leaves'[j] == u
    ensures j == b ==> leaves'[j] == v
    ensures j in leaves' && j != a && j != b ==>
              leaves'[j] == if pred == Some(j) then leaves[j].(next := Some(a)) else leaves[j]
  {
  }

  lemma {:induction false} StaysOne(n: Nodes, order: seq<Loc>, k: nat, a: Loc, b: Loc, n': Nodes, j: Loc)
    requires k < |order|
    requires LeafAt(n', j) <==> j == a || j == b || (LeafAt(n, j) && j != order[k])
    requires LeafAt(n, j) && LeafAt(n', j) && j != a && j != b ==>
               && n'[j].body.kv == n[j].body.kv && n'[j].body.dirty == n[j].body.dirty
               && n'[j].body.next == if PredAt(order, k) == Some(j) then Some(a) else n[j].body.next
    ensures StaysAs(n, order, k, 1, [a, b], n', j)
  {
    assert order[k..k + 1] == [order[k]] && [a, b][0] == a && [a, b][1] == b;
  }

  // ------------------------------------------------------------------
  // A trie with one key, and new values for stored keys
  // ------------------------------------------------------------------

  const RootShape := Shape(map[[] := RootLoc], map[RootLoc := []], map[])

  function RootNode(kv: KV): Node {
    Node(INVALID_COLOR, SYMBOL_END, Leaf(kv, None, false))
  }

  lemma {:induction false} SingleKey(g: Geometry, kv: KV)
    requires g.Valid()
    ensures Good(g, map[RootLoc := RootNode(kv)], RootShape, [RootLoc], Some(RootLoc), map[kv.key := kv.value])
  {
    var n: Nodes := map[RootLoc := RootNode(kv)];
    assert NodeOk(n, RootShape, []) && NamedOk(g, n, RootShape, []);
    forall kv'
      ensures Stored(n, kv') <==> Holds(map[kv.key := kv.value], kv')
    {
      assert LeafAt(n, RootLoc);
    }
  }

  ghost predicate NewValue(n: Nodes, l: Loc, kv: KV, n': Nodes) {
    LeafAt(n, l) && n[l].body.kv.key == kv.key && n' == n[l := n[l].(body := n[l].body.(kv := kv))]
  }

  // Storing a new value under a key that is in the trie.
  lemma {:induction false} SetValue(g: Geometry, n: Nodes, s: Shape, order: seq<Loc>, first: Option<Loc>, dict: Dict,
                                    l: Loc, kv: KV, n': Nodes)
    requires Good(g, n, s, order, first, dict) && NewValue(n, l, kv, n')
    ensures Good(g, n', s, order, first, dict[kv.key := kv.value]) && kv.key in dict
  {
    hide Subtree, MaxAll, JumpsHide, ListOk, DictOk, Clean;
    EditLeaf(g, n, s, l, n', []);
    SetKeepsList(n, order, first, l, kv, n');
    SetDict(n, order, first, dict, l, kv, n');
  }

  lemma {:induction false} SetKeepsList(n: Nodes, order: seq<Loc>, first: Option<Loc>, l: Loc, kv: KV, n': Nodes)
    requires ListOk(n, order, first) && Clean(n) && NewValue(n, l, kv, n')
    ensures ListOk(n', order, first) && Clean(n')
  {
    hide ListOk, SymLess;
    forall j
      ensures LeafAt(n', j) <==> LeafAt(n, j)
      ensures LeafAt(n, j) && LeafAt(n', j) ==>
                KeyOf(n', j) == KeyOf(n, j) && n'[j].body.next == n[j].body.next && n'[j].body.dirty == n[j].body.dirty
    {
    }
    ListFrame(n, order, first, n');
  }

  lemma {:induction false} SetDict(n: Nodes, order: seq<Loc>, first: Option<Loc>, dict: Dict, l: Loc, kv: KV, n': Nodes)
    requires ListOk(n, order, first) && DictOk(n, dict) && NewValue(n, l, kv, n')
    ensures DictOk(n', dict[kv.key := kv.value]) && kv.key in dict
  {
    hide ListOk;
    assert Stored(n, n[l].body.kv);
    assert Holds(dict, n[l].body.kv);
    forall kv'
      ensures Stored(n', kv') <==> kv' == kv || (Stored(n, kv') && kv'.key != kv.key)
    {
      SetStored(n, order, first, l, kv, n', kv');
    }
    DictSet(n, dict, kv, n');
  }

  lemma {:induction false} SetStored(n: Nodes, order: seq<Loc>, first: Option<Loc>, l: Loc, kv: KV, n': Nodes, kv': KV)
    requires ListOk(n, order, first) && NewValue(n, l, kv, n')
    ensures Stored(n', kv') <==> kv' == kv || (Stored(n, kv') && kv'.key != kv.key)
  {
    hide ListOk;
    assert LeafAt(n', l) && n'[l].body.kv == kv;
    if Stored(n', kv') && kv' != kv {
      var j :| LeafAt(n', j) && n'[j].body.kv == kv';
      assert LeafAt(n, j) && n[j].body.kv == kv';
      OneLeafPerKey(n, order, first, j, l);
    }
    if Stored(n, kv') && kv'.key != kv.key {
      var j :| LeafAt(n, j) && n[j].body.kv == kv';
      assert LeafAt(n', j) && n'[j].body.kv == kv';
    }
  }

  lemma {:induction false} OneLeafPerKey(n: Nodes, order: seq<Loc>, first: Option<Loc>, a: Loc, b: Loc)
    requires ListOk(n, order, first) && LeafAt(n, a) && LeafAt(n, b) && a != b
    ensures n[a].body.kv.key != n[b].body.kv.key
  {
    var i :| 0 <= i < |order| && order[i] == a;
    var j :| 0 <= j < |order| && order[j] == b;
    assert KeyLess(n, order[if i < j then i else j], order[if i < j then j else i]);
    SymLessIrreflexive(KeyOf(n, a));
  }
}
