// Small facts about division, powers of two and set sizes.
module Arithmetic {

  lemma MulBounds(d: nat, k: int)
    ensures k >= 1 ==> d * k >= d
    ensures k <= -1 ==> d * k <= d * -1
  {
  }

  lemma DivideExactly(n: nat, d: nat, q: nat, r: nat)
    requires n == d * q + r && r < d
    ensures n / d == q && n % d == r
  {
    var diff := n / d - q;
    assert d * diff == r - n % d;
    MulBounds(d, diff);
  }

  lemma DivideTwice(a: nat, m: nat, n: nat)
    requires m > 0 && n > 0
    ensures m * n > 0 && a / (m * n) == a / m / n
  {
    var p, rest := a / m, a % m;
    var q, r := p / n, p % n;
    Below(m, n, r, rest);
    assert a == m * p + rest && p == n * q + r;
    Regroup(m, n, q, r);
    DivideExactly(a, m * n, q, m * r + rest);
  }

  lemma Below(m: nat, n: nat, r: nat, rest: nat)
    requires r < n && rest < m
    ensures m * r + rest < m * n
  {
    MulBounds(m, n - r);
    assert m * n == m * r + m * (n - r);
  }

  lemma Regroup(m: nat, n: nat, q: nat, r: nat)
    ensures m * (n * q + r) == m * n * q + m * r
  {
  }

  function PowerOfTwo(n: nat): (r: nat)
    ensures r > 0
  {
    if n == 0 then 1 else 2 * PowerOfTwo(n - 1)
  }

  lemma HalveThenDivide(a: nat, d: nat)
    requires d > 0
    ensures a / (2 * d) == a / 2 / d
  {
    var q, r := a / 2 / d, a / 2 % d;
    assert a / 2 == d * q + r;
    assert a == 2 * d * q + (2 * r + a % 2) by {
      assert 2 * (d * q) == 2 * d * q;
    }
    DivideExactly(a, 2 * d, q, 2 * r + a % 2);
  }

  function CountTrailingZeros(v: nat): nat
    requires v > 0
  {
    if v % 2 == 1 then 0 else 1 + CountTrailingZeros(v / 2)
  }

  ghost function Range(n: nat): (r: set<nat>)
    ensures |r| == n && forall k :: k in r <==> 0 <= k < n
  {
    if n == 0 then {} else Range(n - 1) + {n - 1}
  }

  lemma {:induction false} SubsetCardinality(a: set<nat>, b: set<nat>)
    requires a <= b
    ensures |a| <= |b|
  {
    if a != {} {
      var x :| x in a;
      SubsetCardinality(a - {x}, b - {x});
    }
  }
}
