/** Finite sums over sets, whatever order the elements are visited in. */
module Sums {

  ghost function Sum<K(!new)>(s: set<K>, f: K -> int): int
    decreases |s|
  {
    if s == {} then 0
    else
      var k :| k in s;
      f(k) + Sum(s - {k}, f)
  }

  /** Any element may be taken out first. */
  lemma {:induction false} SumPick<K(!new)>(s: set<K>, f: K -> int, k: K)
    requires k in s
    ensures Sum(s, f) == f(k) + Sum(s - {k}, f)
    decreases |s|
  {
    var j :| j in s && Sum(s, f) == f(j) + Sum(s - {j}, f);
    if j != k {
      SumPick(s - {j}, f, k);
      SumPick(s - {k}, f, j);
      assert s - {j} - {k} == s - {k} - {j};
    }
  }

  lemma SumOfOne<K(!new)>(j: K, f: K -> int)
    ensures Sum({j}, f) == f(j)
  {
    SumPick({j}, f, j);
    assert {j} - {j} == {} && Sum({}, f) == 0;
  }

  lemma SumOfTwo<K(!new)>(j: K, k: K, f: K -> int)
    requires j != k
    ensures Sum({j, k}, f) == f(j) + f(k)
  {
    SumPick({j, k}, f, j);
    assert {j, k} - {j} == {k};
    SumOfOne(k, f);
  }

  lemma {:induction false} SumSame<K(!new)>(s: set<K>, f: K -> int, g: K -> int)
    requires forall k :: k in s ==> f(k) == g(k)
    ensures Sum(s, f) == Sum(s, g)
    decreases |s|
  {
    if s != {} {
      var k :| k in s;
      SumPick(s, f, k);
      SumPick(s, g, k);
      SumSame(s - {k}, f, g);
    }
  }

  /** Elements that contribute nothing may be left out. */
  lemma {:induction false} SumSupport<K(!new)>(s: set<K>, t: set<K>, f: K -> int)
    requires t <= s && forall k :: k in s - t ==> f(k) == 0
    ensures Sum(s, f) == Sum(t, f)
    decreases |s - t|
  {
    if s - t == {} {
      assert s == t;
    } else {
      var k :| k in s - t;
      SumPick(s, f, k);
      assert s - t == (s - {k} - t) + {k};
      SumSupport(s - {k}, t, f);
    }
  }

  /** A sum of natural numbers is zero exactly when each of them is. */
  lemma {:induction false} SumNonNegative<K(!new)>(s: set<K>, f: K -> int)
    requires forall k :: k in s ==> f(k) >= 0
    ensures Sum(s, f) >= 0
    ensures Sum(s, f) == 0 <==> forall k :: k in s ==> f(k) == 0
    decreases |s|
  {
    if s != {} {
      var j :| j in s;
      SumPick(s, f, j);
      SumNonNegative(s - {j}, f);
      assert forall k :: k in s <==> k == j || k in s - {j};
    }
  }

  lemma {:induction false} SumAtMost<K(!new)>(s: set<K>, f: K -> int, g: K -> int)
    requires forall k :: k in s ==> f(k) <= g(k)
    ensures Sum(s, f) <= Sum(s, g)
    decreases |s|
  {
    if s != {} {
      var k :| k in s;
      SumPick(s, f, k);
      SumPick(s, g, k);
      SumAtMost(s - {k}, f, g);
    }
  }

  // ---- sums of reals ----

  ghost function RealSum<K(!new)>(s: set<K>, f: K -> real): real
    decreases |s|
  {
    if s == {} then 0.0
    else
      var k :| k in s;
      f(k) + RealSum(s - {k}, f)
  }

  lemma {:induction false} RealSumPick<K(!new)>(s: set<K>, f: K -> real, k: K)
    requires k in s
    ensures RealSum(s, f) == f(k) + RealSum(s - {k}, f)
    decreases |s|
  {
    var j :| j in s && RealSum(s, f) == f(j) + RealSum(s - {j}, f);
    if j != k {
      RealSumPick(s - {j}, f, k);
      RealSumPick(s - {k}, f, j);
      assert s - {j} - {k} == s - {k} - {j};
    }
  }

  lemma {:induction false} RealSumSame<K(!new)>(s: set<K>, f: K -> real, g: K -> real)
    requires forall k :: k in s ==> f(k) == g(k)
    ensures RealSum(s, f) == RealSum(s, g)
    decreases |s|
  {
    if s != {} {
      var k :| k in s;
      RealSumPick(s, f, k);
      RealSumPick(s, g, k);
      RealSumSame(s - {k}, f, g);
    }
  }

  lemma RealSumAppend<K(!new)>(s: set<K>, f: K -> real, k: K)
    requires k !in s
    ensures RealSum(s + {k}, f) == RealSum(s, f) + f(k)
  {
    RealSumPick(s + {k}, f, k);
    assert s + {k} - {k} == s;
  }

  lemma RealSumOfOne<K(!new)>(j: K, f: K -> real)
    ensures RealSum({j}, f) == f(j)
  {
    RealSumPick({j}, f, j);
    assert {j} - {j} == {} && RealSum({}, f) == 0.0;
  }

  lemma RealSumOfTwo<K(!new)>(j: K, k: K, f: K -> real)
    requires j != k
    ensures RealSum({j, k}, f) == f(j) + f(k)
  {
    RealSumPick({j, k}, f, j);
    assert {j, k} - {j} == {k};
    RealSumOfOne(k, f);
  }

  lemma {:induction false} RealSumPositive<K(!new)>(s: set<K>, f: K -> real)
    requires forall k :: k in s ==> f(k) > 0.0
    ensures RealSum(s, f) >= 0.0 && (s != {} ==> RealSum(s, f) > 0.0)
    decreases |s|
  {
    if s != {} {
      var k :| k in s;
      RealSumPick(s, f, k);
      RealSumPositive(s - {k}, f);
    }
  }

  lemma DivideSum(x: real, y: real, d: real)
    requires d > 0.0
    ensures x / d + y / d == (x + y) / d
  {
    var a, b := x / d, y / d;
    assert (a + b) * d == a * d + b * d;
    assert a * d == x && b * d == y;
  }

  /** Dividing every term divides the sum. */
  lemma {:induction false} RealSumDivided<K(!new)>(s: set<K>, f: K -> real, g: K -> real, d: real)
    requires d > 0.0 && forall k :: k in s ==> g(k) == f(k) / d
    ensures RealSum(s, g) == RealSum(s, f) / d
    decreases |s|
  {
    if s != {} {
      var k :| k in s;
      RealSumPick(s, f, k);
      RealSumPick(s, g, k);
      RealSumDivided(s - {k}, f, g, d);
      DivideSum(f(k), RealSum(s - {k}, f), d);
    }
  }
}
