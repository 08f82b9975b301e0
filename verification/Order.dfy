// The sorted linked list of leaves, and the search for a leaf's predecessor.
module Order {
  import opened Keys
  import opened Hashing
  import opened Store
  import opened Structure

  // ------------------------------------------------------------------
  // Positions
  // ------------------------------------------------------------------

  // The leaf at l is to the left of the place for child x of the bitmap at q.
  ghost predicate Before(q: Path, x: nat, l: Path) {
    (|q| < |l| && q <= l && l[|q|] < x) || SymLess(l, q)
  }

  ghost function KeyOf(n: Nodes, l: Loc): Path {
    if l in n && n[l].body.Leaf? then Symbols(n[l].body.kv.key) else []
  }

  // The place for child x of the bitmap at q separates the keys below t from the
  // others.
  ghost predicate Cut(n: Nodes, s: Shape, q: Path, x: nat, t: Path) {
    forall l: Path :: IsLeaf(n, s, l) ==> (Before(q, x, l) <==> SymLess(KeyOf(n, s.at[l]), t))
  }

  lemma {:induction false} Part(a: Path, b: Path) returns (i: nat)
    requires !(a <= b) && !(b <= a)
    ensures i < |a| && i < |b| && a[..i] == b[..i] && a[i] != b[i]
    decreases |a|
  {
    var m := if |a| < |b| then |a| else |b|;
    assert a[..|a|] == a && b[..|b|] == b;
    i := 0;
    while i < m && a[i] == b[i]
      invariant i <= m && a[..i] == b[..i]
    {
      assert a[..i + 1] == a[..i] + [a[i]] && b[..i + 1] == b[..i] + [b[i]];
      i := i + 1;
    }
  }

  // Which way two sequences part decides their order.
  lemma {:induction false} PartDecides(a: Path, b: Path, i: nat)
    requires i < |a| && i < |b| && a[..i] == b[..i] && a[i] != b[i]
    ensures SymLess(a, b) <==> a[i] < b[i]
  {
    assert forall k | 0 <= k < i :: a[..i][k] == a[k] && b[..i][k] == b[k];
    if a[i] < b[i] {
      assert LessAt(a, b, i);
    }
    forall j: nat | LessAt(a, b, j)
      ensures j == i
    {
      assert forall k | 0 <= k < j :: a[..j][k] == a[k] && b[..j][k] == b[k];
    }
  }

  lemma {:induction false} PartExtends(a: Path, b: Path, a': Path, b': Path, i: nat)
    requires i < |a| && i < |b| && a[..i] == b[..i] && a[i] != b[i] && a <= a' && b <= b'
    ensures a'[..i] == b'[..i] && a'[i] == a[i] && b'[i] == b[i]
  {
    assert a'[..i] == a[..i] && b'[..i] == b[..i];
  }

  lemma {:induction false} LessExtends(a: Path, b: Path, a': Path, b': Path)
    requires SymLess(a, b) && a <= a' && b <= b'
    ensures SymLess(a', b')
  {
    var i: nat :| LessAt(a, b, i);
    assert a'[..i] == a[..i] && b'[..i] == b[..i];
    assert LessAt(a', b', i);
  }

  lemma {:induction false} LeafHasNoChild(g: Geometry, n: Nodes, s: Shape, base: Path, l: Path, p: Path)
    requires Subtree(g, n, s, base) && IsLeaf(n, s, l) && p in s.at && l <= p
    ensures l == p
  {
    if l != p {
      var c := Toward(g, n, s, base, l, p);
    }
  }

  // If all leaves below q + [x] are on one side of t, which starts with q + [x], the
  // place before or after that child separates the keys below t from the others.
  lemma {:induction false} CutAround(g: Geometry, n: Nodes, s: Shape, q: Path, x: Symbol, t: Path, left: bool)
    requires Tree(g, n, s) && q in s.at && BodyAt(n, s, q).Bitmap? && q + [x] <= t
    requires forall l: Path :: IsLeaf(n, s, l) && q + [x] <= l ==> (SymLess(KeyOf(n, s.at[l]), t) <==> left)
    ensures Cut(n, s, q, if left then x + 1 else x, t)
  {
    forall l | IsLeaf(n, s, l)
      ensures Before(q, if left then x + 1 else x, l) <==> SymLess(KeyOf(n, s.at[l]), t)
    {
      assert NodeOk(n, s, l);
      if q <= l {
        CutUnder(q, x, t, left, l, KeyOf(n, s.at[l]));
      } else {
        CutBeside(g, n, s, q, x, t, l);
      }
    }
  }

  lemma {:induction false} CutUnder(q: Path, x: Symbol, t: Path, left: bool, l: Path, k: Path)
    requires q + [x] <= t && q <= l && l != q && l <= k
    requires q + [x] <= l ==> (SymLess(k, t) <==> left)
    ensures Before(q, if left then x + 1 else x, l) <==> SymLess(k, t)
  {
    PrefixNotLess(q, l);
    if l[|q|] == x {
      assert q + [x] <= l;
    } else {
      PartAtChild(q, x, t, l, k);
    }
  }

  lemma {:induction false} PartAtChild(q: Path, x: Symbol, t: Path, l: Path, k: Path)
    requires q + [x] <= t && q <= l && |q| < |l| && l <= k && l[|q|] != x
    ensures SymLess(k, t) <==> l[|q|] < x
  {
    assert t[|q|] == (q + [x])[|q|] == x && k[|q|] == l[|q|];
    assert t[..|q|] == (q + [x])[..|q|] == q == l[..|q|] == k[..|q|];
    PartDecides(k, t, |q|);
  }

  lemma {:induction false} CutBeside(g: Geometry, n: Nodes, s: Shape, q: Path, x: Symbol, t: Path, l: Path)
    requires Tree(g, n, s) && q in s.at && BodyAt(n, s, q).Bitmap? && q + [x] <= t
    requires IsLeaf(n, s, l) && !(q <= l) && l <= KeyOf(n, s.at[l])
    ensures Before(q, x, l) <==> SymLess(KeyOf(n, s.at[l]), t)
    ensures Before(q, x + 1, l) <==> SymLess(KeyOf(n, s.at[l]), t)
  {
    if l <= q {
      LeafHasNoChild(g, n, s, [], l, q);
      assert false;
    }
    var i := Part(l, q);
    assert q <= q + [x] <= t;
    PartDecides(l, q, i);
    PartExtends(l, q, KeyOf(n, s.at[l]), t, i);
    PartDecides(KeyOf(n, s.at[l]), t, i);
  }

  // ------------------------------------------------------------------
  // The predecessor
  // ------------------------------------------------------------------

  ghost function Bound(r: Path, q: Path, x: nat): nat
    requires r <= q
  {
    if |r| == |q| then x else q[|r|]
  }

  ghost predicate NoneBelow(children: set<Symbol>, x: nat) {
    forall y :: y in children ==> x <= y
  }

  // No bitmap on the way to q, below the first `top` symbols, has a child to the left.
  ghost predicate NoLeftTurn(n: Nodes, s: Shape, q: Path, x: nat, top: nat) {
    forall r :: r <= q && top <= |r| && Has(n, s, r) && BodyAt(n, s, r).Bitmap? ==>
      NoneBelow(BodyAt(n, s, r).children, Bound(r, q, x))
  }

  // y is the greatest child of the bitmap at r to the left of the way to q, and no
  // bitmap further down has one.
  ghost predicate LeftTurn(n: Nodes, s: Shape, q: Path, x: nat, r: Path, y: Symbol) {
    && r <= q && Has(n, s, r) && BodyAt(n, s, r).Bitmap? && y in BodyAt(n, s, r).children
    && y < Bound(r, q, x)
    && (forall z :: z in BodyAt(n, s, r).children && z < Bound(r, q, x) ==> z <= y)
    && NoLeftTurn(n, s, q, x, |r| + 1)
  }

  // A leaf to the left of the place leaves the way to q at a bitmap, to the left.
  lemma {:induction false} TurnsLeft(g: Geometry, n: Nodes, s: Shape, q: Path, x: nat, l: Path) returns (r: Path)
    requires Tree(g, n, s) && q in s.at && BodyAt(n, s, q).Bitmap? && IsLeaf(n, s, l) && Before(q, x, l)
    ensures r <= q && Has(n, s, r) && BodyAt(n, s, r).Bitmap? && r <= l && |r| < |l|
    ensures l[|r|] in BodyAt(n, s, r).children && l[|r|] < Bound(r, q, x)
  {
    if q <= l {
      PrefixNotLess(q, l);
      r := q;
      var c := Toward(g, n, s, [], q, l);
      assert c[|q|] == l[|q|];
    } else {
      var i: nat :| LessAt(l, q, i);
      Parting(g, n, s, [], [], l, q, i);
      r := l[..i];
      assert r == q[..i];
    }
  }

  lemma {:induction false} NoPredecessor(g: Geometry, n: Nodes, s: Shape, q: Path, x: nat)
    requires Tree(g, n, s) && q in s.at && BodyAt(n, s, q).Bitmap? && NoLeftTurn(n, s, q, x, 0)
    ensures forall l: Path :: IsLeaf(n, s, l) ==> !Before(q, x, l)
  {
    forall l | IsLeaf(n, s, l)
      ensures !Before(q, x, l)
    {
      if Before(q, x, l) {
        var r := TurnsLeft(g, n, s, q, x, l);
      }
    }
  }

  ghost predicate GreatestBefore(n: Nodes, s: Shape, q: Path, x: nat, m: Path) {
    IsLeaf(n, s, m) && Before(q, x, m)
    && forall l: Path :: IsLeaf(n, s, l) && Before(q, x, l) ==> l == m || SymLess(l, m)
  }

  // The rightmost leaf below the child found is the greatest leaf to the left.
  lemma {:induction false} ChildIsThere(n: Nodes, s: Shape, r: Path, y: Symbol)
    requires Has(n, s, r) && NodeOk(n, s, r) && BodyAt(n, s, r).Bitmap? && y in BodyAt(n, s, r).children
    ensures BitmapChildOk(n, s, r, y) && Has(n, s, r + [y])
  {
  }

  lemma {:induction false} PredecessorIsRightmost(g: Geometry, n: Nodes, s: Shape, q: Path, x: nat, r: Path, y: Symbol)
      returns (m: Path)
    requires Tree(g, n, s) && MaxAll(n, s) && q in s.at && BodyAt(n, s, q).Bitmap? && LeftTurn(n, s, q, x, r, y)
    ensures Has(n, s, r + [y]) && GreatestBefore(n, s, q, x, m)
    ensures s.at[m] == MaxLeafOf(s.at[r + [y]], n[s.at[r + [y]]])
  {
    var c := r + [y];
    ChildIsThere(n, s, r, y);
    var bound := Longest(s.at.Keys);
    m := RightmostLeaf(g, n, s, [], c, bound);
    RightmostIsGreatest(g, n, s, q, x, r, y, m);
  }

  lemma {:induction false} RightmostIsGreatest(g: Geometry, n: Nodes, s: Shape, q: Path, x: nat, r: Path, y: Symbol,
                                               m: Path)
    requires Tree(g, n, s) && q in s.at && BodyAt(n, s, q).Bitmap? && LeftTurn(n, s, q, x, r, y)
    requires IsLeaf(n, s, m) && r + [y] <= m && AllLeavesUpTo(n, s, r + [y], m)
    ensures GreatestBefore(n, s, q, x, m)
  {
    UnderIsBefore(q, x, r, y, m);
    forall l: Path | IsLeaf(n, s, l) && Before(q, x, l)
      ensures l == m || SymLess(l, m)
    {
      LeftOfRightmost(g, n, s, q, x, r, y, m, l);
    }
  }

  lemma {:induction false} UnderIsBefore(q: Path, x: nat, r: Path, y: Symbol, m: Path)
    requires r <= q && y < Bound(r, q, x) && r + [y] <= m
    ensures Before(q, x, m)
  {
    assert m[|r|] == (r + [y])[|r|];
    assert r <= r + [y] <= m;
    if |r| < |q| {
      assert m[..|r|] == r == q[..|r|];
      assert LessAt(m, q, |r|);
    }
  }

  lemma {:induction false} LeftOfRightmost(g: Geometry, n: Nodes, s: Shape, q: Path, x: nat, r: Path, y: Symbol,
                                           m: Path, l: Path)
    requires Tree(g, n, s) && q in s.at && BodyAt(n, s, q).Bitmap? && LeftTurn(n, s, q, x, r, y)
    requires r + [y] <= m && AllLeavesUpTo(n, s, r + [y], m) && IsLeaf(n, s, l) && Before(q, x, l)
    ensures l == m || SymLess(l, m)
  {
    var t := TurnsLeft(g, n, s, q, x, l);
    assert |t| <= |r|;
    if |t| == |r| {
      assert t == q[..|r|] == r;
      assert l[|r|] <= y;
      assert r + [l[|r|]] <= l;
      if l[|r|] < y {
        SiblingsLess(r, l[|r|], y, l, m);
      }
    } else {
      LeavesEarlier(q, x, r, y, t, m, l);
    }
  }

  lemma {:induction false} LeavesEarlier(q: Path, x: nat, r: Path, y: Symbol, t: Path, m: Path, l: Path)
    requires t <= q && r <= q && |t| < |r| && t <= l && |t| < |l| && l[|t|] < Bound(t, q, x) && r + [y] <= m
    ensures SymLess(l, m)
  {
    assert m[|t|] == (r + [y])[|t|] == r[|t|] == q[|t|];
    assert m[..|t|] == (r + [y])[..|t|] == r[..|t|] == q[..|t|] == t == l[..|t|];
    assert LessAt(l, m, |t|);
  }

  // ------------------------------------------------------------------
  // The linked list
  // ------------------------------------------------------------------

  function NextAt(order: seq<Loc>, i: nat): Option<Loc> {
    if i < |order| then Some(order[i]) else None
  }

  ghost predicate LeafAt(n: Nodes, l: Loc) {
    l in n && n[l].body.Leaf?
  }

  ghost predicate KeyLess(n: Nodes, a: Loc, b: Loc)
    requires LeafAt(n, a) && LeafAt(n, b)
  {
    SymLess(KeyOf(n, a), KeyOf(n, b))
  }

  // The list that starts at `first` visits every leaf once, in increasing key order.
  ghost predicate ListOk(n: Nodes, order: seq<Loc>, first: Option<Loc>) {
    && first == NextAt(order, 0)
    && (forall i :: 0 <= i < |order| ==> LeafAt(n, order[i]))
    && (forall l :: LeafAt(n, l) ==> l in order)
    && (forall i, j :: 0 <= i < j < |order| ==> KeyLess(n, order[i], order[j]))
    && (forall i :: 0 <= i < |order| ==> n[order[i]].body.next == NextAt(order, i + 1))
  }

  // How many leaves have keys below t.
  ghost predicate IsRank(n: Nodes, order: seq<Loc>, t: Path, k: nat)
    requires forall i :: 0 <= i < |order| ==> LeafAt(n, order[i])
  {
    k <= |order| && forall i :: 0 <= i < |order| ==> (SymLess(KeyOf(n, order[i]), t) <==> i < k)
  }

  lemma {:induction false} Rank(n: Nodes, order: seq<Loc>, first: Option<Loc>, t: Path) returns (k: nat)
    requires ListOk(n, order, first)
    ensures IsRank(n, order, t, k)
  {
    hide SymLess, KeyOf, NextAt, KeyLess;
    k := 0;
    while k < |order| && SymLess(KeyOf(n, order[k]), t)
      invariant k <= |order|
      invariant forall i :: 0 <= i < k ==> SymLess(KeyOf(n, order[i]), t)
    {
      k := k + 1;
    }
    forall i | k <= i < |order|
      ensures !SymLess(KeyOf(n, order[i]), t)
    {
      NoneLater(n, order, first, t, k, i);
    }
  }

  lemma {:induction false} NoneLater(n: Nodes, order: seq<Loc>, first: Option<Loc>, t: Path, k: nat, i: nat)
    requires ListOk(n, order, first) && k <= i < |order| && !SymLess(KeyOf(n, order[k]), t)
    ensures !SymLess(KeyOf(n, order[i]), t)
  {
    if SymLess(KeyOf(n, order[i]), t) && k < i {
      assert KeyLess(n, order[k], order[i]);
      hide SymLess, ListOk;
      SymLessTransitive(KeyOf(n, order[k]), KeyOf(n, order[i]), t);
    }
  }

  lemma {:induction false} GreatestHasGreatestKey(n: Nodes, s: Shape, q: Path, x: nat, m: Path, l: Path)
    requires GreatestBefore(n, s, q, x, m) && IsLeaf(n, s, l) && Before(q, x, l) && l != m
    requires m <= KeyOf(n, s.at[m]) && l <= KeyOf(n, s.at[l])
    ensures SymLess(KeyOf(n, s.at[l]), KeyOf(n, s.at[m]))
  {
    hide Before, SymLess;
    LessExtends(l, m, KeyOf(n, s.at[l]), KeyOf(n, s.at[m]));
  }

  lemma {:induction false} LeafIsPlaced(g: Geometry, n: Nodes, s: Shape, l: Loc)
    requires Tree(g, n, s) && n.Keys == s.of.Keys && LeafAt(n, l)
    ensures l in s.of && IsLeaf(n, s, s.of[l]) && s.at[s.of[l]] == l && s.of[l] <= KeyOf(n, l)
  {
    assert NodeOk(n, s, s.of[l]);
  }

  // The greatest leaf to the left of a cut is the last one of lower rank.
  lemma {:induction false} GreatestIsAtRank(g: Geometry, n: Nodes, s: Shape, order: seq<Loc>, first: Option<Loc>,
                                            q: Path, x: nat, t: Path, k: nat, m: Path)
    requires Tree(g, n, s) && ListOk(n, order, first) && IsRank(n, order, t, k) && Cut(n, s, q, x, t)
    requires n.Keys == s.of.Keys && GreatestBefore(n, s, q, x, m)
    ensures k > 0 && order[k - 1] == s.at[m]
  {
    var l := s.at[m];
    assert LeafAt(n, l) && s.of[l] == m;
    LeafIsPlaced(g, n, s, l);
    hide Before, SymLess, Tree;
    var i :| 0 <= i < |order| && order[i] == l;
    assert i < k;
    if i < k - 1 {
      var l' := order[k - 1];
      LeafIsPlaced(g, n, s, l');
      assert KeyLess(n, l, l');
      hide ListOk, IsRank, Cut, IsLeaf;
      GreatestHasGreatestKey(n, s, q, x, m, s.of[l']);
      hide KeyOf, GreatestBefore;
      NotBothLess(KeyOf(n, l), KeyOf(n, l'));
    }
  }

  lemma {:induction false} NotBothLess(a: Path, b: Path)
    ensures !(SymLess(a, b) && SymLess(b, a))
  {
    hide SymLess;
    if SymLess(a, b) && SymLess(b, a) {
      SymLessTransitive(a, b, a);
      SymLessIrreflexive(a);
    }
  }

  lemma {:induction false} NoneIsRankZero(g: Geometry, n: Nodes, s: Shape, order: seq<Loc>, first: Option<Loc>,
                                          q: Path, x: nat, t: Path, k: nat)
    requires Tree(g, n, s) && ListOk(n, order, first) && IsRank(n, order, t, k) && Cut(n, s, q, x, t)
    requires n.Keys == s.of.Keys && forall l: Path :: IsLeaf(n, s, l) ==> !Before(q, x, l)
    ensures k == 0
  {
    if k > 0 {
      assert LeafAt(n, order[0]);
      assert IsLeaf(n, s, s.of[order[0]]);
    }
  }

  // ------------------------------------------------------------------
  // Changing the list
  // ------------------------------------------------------------------

  function Spliced(order: seq<Loc>, k: nat, m: nat, mid: seq<Loc>): seq<Loc>
    requires k + m <= |order|
  {
    order[..k] + mid + order[k + m..]
  }

  function ChainNext(order: seq<Loc>, rest: nat, mid: seq<Loc>, j: nat): Option<Loc> {
    if j < |mid| then Some(mid[j]) else NextAt(order, rest)
  }

  // The leaves `mid` are chained, sorted, and fit between positions k and k + m.
  ghost predicate Fits(n: Nodes, order: seq<Loc>, k: nat, m: nat, mid: seq<Loc>, n': Nodes)
    requires k + m <= |order|
  {
    && |mid| > 0
    && (forall j :: 0 <= j < |mid| ==> LeafAt(n', mid[j]))
    && (forall j :: 0 <= j < |mid| ==> n'[mid[j]].body.next == ChainNext(order, k + m, mid, j + 1))
    && (forall i, j :: 0 <= i < j < |mid| ==> SymLess(KeyOf(n', mid[i]), KeyOf(n', mid[j])))
    && (forall i, j :: 0 <= i < k && 0 <= j < |mid| ==> SymLess(KeyOf(n, order[i]), KeyOf(n', mid[j])))
    && (forall i, j :: k + m <= i < |order| && 0 <= j < |mid| ==> SymLess(KeyOf(n', mid[j]), KeyOf(n, order[i])))
  }

  // The other leaves stay, and only the one before position k points elsewhere.
  ghost predicate OthersStay(n: Nodes, order: seq<Loc>, k: nat, m: nat, first: Loc, n': Nodes)
    requires k + m <= |order| && forall i :: 0 <= i < |order| ==> LeafAt(n, order[i])
  {
    forall i :: 0 <= i < |order| && !(k <= i < k + m) ==>
      && LeafAt(n', order[i]) && KeyOf(n', order[i]) == KeyOf(n, order[i])
      && n'[order[i]].body.next == if i == k - 1 then Some(first) else n[order[i]].body.next
  }

  lemma {:induction false} SpliceList(n: Nodes, order: seq<Loc>, first: Option<Loc>, k: nat, m: nat, mid: seq<Loc>,
                                      n': Nodes)
    requires ListOk(n, order, first) && k + m <= |order| && Fits(n, order, k, m, mid, n')
    requires OthersStay(n, order, k, m, mid[0], n')
    requires forall l :: LeafAt(n', l) ==> l in Spliced(order, k, m, mid)
    ensures ListOk(n', Spliced(order, k, m, mid), if k == 0 then Some(mid[0]) else first)
  {
    var order' := Spliced(order, k, m, mid);
    forall i | 0 <= i < |order'|
      ensures LeafAt(n', order'[i]) && n'[order'[i]].body.next == NextAt(order', i + 1)
    {
      SplicedAt(n, order, first, k, m, mid, n', i);
    }
    forall i, j | 0 <= i < j < |order'|
      ensures KeyLess(n', order'[i], order'[j])
    {
      SplicedSorted(n, order, first, k, m, mid, n', i, j);
    }
  }

  lemma {:induction false} SplicedAt(n: Nodes, order: seq<Loc>, first: Option<Loc>, k: nat, m: nat, mid: seq<Loc>,
                                     n': Nodes, i: nat)
    requires ListOk(n, order, first) && k + m <= |order| && Fits(n, order, k, m, mid, n')
    requires OthersStay(n, order, k, m, mid[0], n') && i < |Spliced(order, k, m, mid)|
    ensures var order' := Spliced(order, k, m, mid);
            LeafAt(n', order'[i]) && n'[order'[i]].body.next == NextAt(order', i + 1)
  {
    if i < k {
      SplicedBefore(n, order, first, k, m, mid, n', i);
    } else if i < k + |mid| {
      SplicedInside(n, order, k, m, mid, n', i);
    } else {
      SplicedAfter(n, order, first, k, m, mid, n', i);
    }
  }

  lemma {:induction false} ListedAt(n: Nodes, order: seq<Loc>, first: Option<Loc>, i: nat)
    requires ListOk(n, order, first) && i < |order|
    ensures LeafAt(n, order[i]) && n[order[i]].body.next == NextAt(order, i + 1)
  {
  }

  lemma {:induction false} OtherAt(n: Nodes, order: seq<Loc>, k: nat, m: nat, first: Loc, n': Nodes, i: nat)
    requires k + m <= |order| && (forall j :: 0 <= j < |order| ==> LeafAt(n, order[j]))
    requires OthersStay(n, order, k, m, first, n') && i < |order| && !(k <= i < k + m)
    ensures LeafAt(n', order[i]) && LeafAt(n, order[i])
    ensures n'[order[i]].body.next == if i == k - 1 then Some(first) else n[order[i]].body.next
  {
  }

  lemma {:induction false} SplicedBefore(n: Nodes, order: seq<Loc>, first: Option<Loc>, k: nat, m: nat, mid: seq<Loc>,
                                         n': Nodes, i: nat)
    requires ListOk(n, order, first) && k + m <= |order| && Fits(n, order, k, m, mid, n')
    requires OthersStay(n, order, k, m, mid[0], n') && i < k && i < |Spliced(order, k, m, mid)|
    ensures var order' := Spliced(order, k, m, mid);
            LeafAt(n', order'[i]) && n'[order'[i]].body.next == NextAt(order', i + 1)
  {
    ListedAt(n, order, first, i);
    OtherAt(n, order, k, m, mid[0], n', i);
    assert k - 1 == i ==> ChainNext(order, k + m, mid, 0) == Some(mid[0]);
    hide ListOk, Fits, OthersStay, Spliced, ChainNext;
    SpliceIndex(order, k, m, mid, i);
    SplicedNext(order, k, m, mid, i);
  }

  lemma {:induction false} SplicedInside(n: Nodes, order: seq<Loc>, k: nat, m: nat, mid: seq<Loc>, n': Nodes, i: nat)
    requires k + m <= |order| && Fits(n, order, k, m, mid, n')
    requires k <= i < k + |mid| && i < |Spliced(order, k, m, mid)|
    ensures var order' := Spliced(order, k, m, mid);
            LeafAt(n', order'[i]) && n'[order'[i]].body.next == NextAt(order', i + 1)
  {
    hide Spliced, SymLess, KeyOf;
    SpliceIndex(order, k, m, mid, i);
    SplicedNext(order, k, m, mid, i);
    assert n'[mid[i - k]].body.next == ChainNext(order, k + m, mid, i - k + 1);
  }

  lemma {:induction false} SplicedAfter(n: Nodes, order: seq<Loc>, first: Option<Loc>, k: nat, m: nat, mid: seq<Loc>,
                                        n': Nodes, i: nat)
    requires ListOk(n, order, first) && k + m <= |order| && Fits(n, order, k, m, mid, n')
    requires OthersStay(n, order, k, m, mid[0], n') && k + |mid| <= i < |Spliced(order, k, m, mid)|
    ensures var order' := Spliced(order, k, m, mid);
            LeafAt(n', order'[i]) && n'[order'[i]].body.next == NextAt(order', i + 1)
  {
    ListedAt(n, order, first, i - |mid| + m);
    OtherAt(n, order, k, m, mid[0], n', i - |mid| + m);
    hide ListOk, Fits, OthersStay, Spliced, ChainNext;
    SpliceIndex(order, k, m, mid, i);
    SplicedNext(order, k, m, mid, i);
  }

  lemma {:induction false} SplicedNext(order: seq<Loc>, k: nat, m: nat, mid: seq<Loc>, i: nat)
    requires k + m <= |order| && 0 < |mid| && i < |Spliced(order, k, m, mid)|
    ensures NextAt(Spliced(order, k, m, mid), i + 1) ==
            if i + 1 < k then NextAt(order, i + 1)
            else if i + 1 <= k + |mid| then ChainNext(order, k + m, mid, i + 1 - k)
            else NextAt(order, i + 1 - |mid| + m)
  {
    if i + 1 < |Spliced(order, k, m, mid)| {
      SpliceIndex(order, k, m, mid, i + 1);
    }
  }

  // Where the elements of a spliced sequence come from.
  lemma {:induction false} SpliceIndex(order: seq<Loc>, k: nat, m: nat, mid: seq<Loc>, i: nat)
    requires k + m <= |order| && i < |Spliced(order, k, m, mid)|
    ensures i < k ==> Spliced(order, k, m, mid)[i] == order[i]
    ensures k <= i < k + |mid| ==> Spliced(order, k, m, mid)[i] == mid[i - k]
    ensures k + |mid| <= i ==> Spliced(order, k, m, mid)[i] == order[i - |mid| + m]
    ensures |Spliced(order, k, m, mid)| == |order| + |mid| - m
  {
  }

  lemma {:induction false} SplicedSorted(n: Nodes, order: seq<Loc>, first: Option<Loc>, k: nat, m: nat, mid: seq<Loc>,
                                         n': Nodes, i: nat, j: nat)
    requires ListOk(n, order, first) && k + m <= |order| && Fits(n, order, k, m, mid, n')
    requires OthersStay(n, order, k, m, mid[0], n') && i < j < |Spliced(order, k, m, mid)|
    ensures var order' := Spliced(order, k, m, mid); SymLess(KeyOf(n', order'[i]), KeyOf(n', order'[j]))
  {
    SpliceIndex(order, k, m, mid, i);
    SpliceIndex(order, k, m, mid, j);
    if k <= i < k + |mid| {
      if j < k + |mid| {
        assert SymLess(KeyOf(n', mid[i - k]), KeyOf(n', mid[j - k]));
      } else {
        assert SymLess(KeyOf(n', mid[i - k]), KeyOf(n, order[j - |mid| + m]));
      }
    } else {
      var a := if i < k then i else i - |mid| + m;
      if k <= j < k + |mid| {
        assert SymLess(KeyOf(n, order[a]), KeyOf(n', mid[j - k]));
      } else {
        assert KeyLess(n, order[a], order[if j < k then j else j - |mid| + m]);
      }
    }
  }

  // A new key of rank k fits between the leaves on both sides.
  lemma {:induction false} RankSeparates(n: Nodes, order: seq<Loc>, first: Option<Loc>, key: Key, k: nat)
    requires ListOk(n, order, first) && IsRank(n, order, Symbols(key), k)
    requires forall l :: LeafAt(n, l) ==> n[l].body.kv.key != key
    ensures forall i :: 0 <= i < k ==> SymLess(KeyOf(n, order[i]), Symbols(key))
    ensures forall i :: k <= i < |order| ==> SymLess(Symbols(key), KeyOf(n, order[i]))
  {
    forall i | k <= i < |order|
      ensures SymLess(Symbols(key), KeyOf(n, order[i]))
    {
      SymLessTotal(key, n[order[i]].body.kv.key);
    }
  }

  // Changes that touch no leaf's key or next field, and no leaf's kind.
  lemma {:induction false} ListFrame(n: Nodes, order: seq<Loc>, first: Option<Loc>, n': Nodes)
    requires ListOk(n, order, first)
    requires forall l :: LeafAt(n', l) <==> LeafAt(n, l)
    requires forall l :: LeafAt(n, l) ==> KeyOf(n', l) == KeyOf(n, l) && n'[l].body.next == n[l].body.next
    ensures ListOk(n', order, first)
  {
    forall i, j | 0 <= i < j < |order|
      ensures KeyLess(n', order[i], order[j])
    {
      assert KeyLess(n, order[i], order[j]);
    }
  }

  // ------------------------------------------------------------------
  // The dictionary
  // ------------------------------------------------------------------

  type Dict = map<Key, seq<Byte>>

  ghost predicate Stored(n: Nodes, kv: KV) {
    exists l :: LeafAt(n, l) && n[l].body.kv == kv
  }

  predicate Holds(dict: Dict, kv: KV) {
    kv.key in dict && dict[kv.key] == kv.value
  }

  // The leaves hold exactly the pairs of the dictionary.
  ghost predicate DictOk(n: Nodes, dict: Dict) {
    forall kv :: Stored(n, kv) <==> Holds(dict, kv)
  }

  lemma {:induction false} DictSet(n: Nodes, dict: Dict, kv: KV, n': Nodes)
    requires DictOk(n, dict)
    requires forall kv' :: Stored(n', kv') <==> kv' == kv || (Stored(n, kv') && kv'.key != kv.key)
    ensures DictOk(n', dict[kv.key := kv.value])
  {
    forall kv'
      ensures Stored(n', kv') <==> Holds(dict[kv.key := kv.value], kv')
    {
      assert Stored(n, kv') <==> Holds(dict, kv');
    }
  }

  lemma {:induction false} DictFrame(n: Nodes, dict: Dict, n': Nodes)
    requires DictOk(n, dict)
    requires forall l :: LeafAt(n', l) <==> LeafAt(n, l)
    requires forall l :: LeafAt(n, l) && LeafAt(n', l) ==> n'[l].body.kv == n[l].body.kv
    ensures DictOk(n', dict)
  {
    forall kv
      ensures Stored(n', kv) <==> Stored(n, kv)
    {
    }
  }

  // ------------------------------------------------------------------
  // Where a key's descent ends
  // ------------------------------------------------------------------

  // The node at q has no child on the way to t.
  ghost predicate Stuck(n: Nodes, s: Shape, q: Path, t: Path) {
    && Has(n, s, q) && q <= t
    && match BodyAt(n, s, q)
       case Leaf(_, _, _) => true
       case Bitmap(children, _, _) => |q| < |t| && t[|q|] !in children
       case Jump(symbols, _, _) => !(q + symbols <= t)
  }

  // A stored key is found where the descent ends, or nowhere.
  lemma {:induction false} FoundWhereStuck(g: Geometry, n: Nodes, s: Shape, q: Path, key: Key, l: Path)
    requires Tree(g, n, s) && Stuck(n, s, q, Symbols(key)) && IsLeaf(n, s, l) && l <= Symbols(key)
    ensures l == q
  {
    if |l| <= |q| {
      Comparable(l, q, Symbols(key));
      LeafHasNoChild(g, n, s, [], l, q);
    } else {
      Comparable(q, l, Symbols(key));
      var c := Toward(g, n, s, [], q, l);
      NoWayOn(n, s, q, Symbols(key), c);
    }
  }

  lemma {:induction false} NoWayOn(n: Nodes, s: Shape, q: Path, t: Path, c: Path)
    requires Stuck(n, s, q, t) && ChildVia(n, s, q, c) && |c| > |q|
    ensures !(c <= t)
  {
  }

  // What a lookup must answer, given where the descent for the key ended.
  lemma {:induction false} LookupDecides(g: Geometry, n: Nodes, s: Shape, dict: Dict, q: Path, key: Key)
    requires Tree(g, n, s) && NoGarbage(n, s) && DictOk(n, dict) && Stuck(n, s, q, Symbols(key))
    ensures BodyAt(n, s, q).Leaf? && BodyAt(n, s, q).kv.key == key ==> Holds(dict, BodyAt(n, s, q).kv)
    ensures key in dict ==> BodyAt(n, s, q).Leaf? && BodyAt(n, s, q).kv.key == key
  {
    if BodyAt(n, s, q).Leaf? {
      assert LeafAt(n, s.at[q]);
      assert Stored(n, BodyAt(n, s, q).kv);
    }
    if key in dict {
      var kv := KV(key, dict[key]);
      assert Holds(dict, kv);
      assert Stored(n, kv);
      var l :| LeafAt(n, l) && n[l].body.kv == kv;
      var p := s.of[l];
      assert NodeOk(n, s, p);
      FoundWhereStuck(g, n, s, q, key, p);
    }
  }
}
