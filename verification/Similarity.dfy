/** The cosine similarity of lib/tgspam/detector.go over token counts, and why it is a number
    between 0 and 1: the Cauchy-Schwarz inequality with its case of equality. */
module Similarity {
  import opened Sums

  type Tokens = map<string, int>

  /** Reading an absent token yields 0. */
  function CountIn(a: Tokens, token: string): int {
    if token in a then a[token] else 0
  }

  ghost function Products(a: Tokens, b: Tokens): string -> int {
    k => CountIn(a, k) * CountIn(b, k)
  }

  /** The dot product of two token maps. */
  ghost function Dot(a: Tokens, b: Tokens): int {
    Sum(a.Keys, Products(a, b))
  }

  ghost function Norm(a: Tokens): int {
    Dot(a, a)
  }

  /** All counts are positive, as the tokenizer makes them. */
  ghost predicate Counted(a: Tokens) {
    forall k :: k in a ==> a[k] > 0
  }

  /** One map is the other one scaled. */
  ghost predicate Proportional(a: Tokens, b: Tokens) {
    a.Keys == b.Keys && exists p: int, q: int :: Scaled(a, b, p, q)
  }

  ghost predicate Scaled(a: Tokens, b: Tokens, p: int, q: int)
    requires a.Keys == b.Keys
  {
    p > 0 && q > 0 && forall k :: k in a ==> p * a[k] == q * b[k]
  }

  // ---- Cauchy-Schwarz ----

  ghost function Cross(a: Tokens, b: Tokens, x: int, y: int): string -> int {
    k => (CountIn(a, k) * y - CountIn(b, k) * x) * (CountIn(a, k) * y - CountIn(b, k) * x)
  }

  lemma SquareOfDifference(u: int, v: int, x: int, y: int)
    ensures (u * y - v * x) * (u * y - v * x) == (u * u) * (y * y) - 2 * ((u * v) * (x * y)) + (v * v) * (x * x)
  {
    assert (u * y) * (u * y) == (u * u) * (y * y);
    assert (u * y) * (v * x) == (u * v) * (x * y);
    assert (v * x) * (v * x) == (v * v) * (x * x);
  }

  /** Expanding the squares term by term. */
  lemma CrossSum(s: set<string>, a: Tokens, b: Tokens, x: int, y: int)
    ensures Sum(s, Cross(a, b, x, y)) ==
      Sum(s, Products(a, a)) * (y * y) - 2 * (Sum(s, Products(a, b)) * (x * y)) + Sum(s, Products(b, b)) * (x * x)
  {
    forall k
      ensures Cross(a, b, x, y)(k) ==
        Products(a, a)(k) * (y * y) - 2 * (Products(a, b)(k) * (x * y)) + Products(b, b)(k) * (x * x)
    {
      SquareOfDifference(CountIn(a, k), CountIn(b, k), x, y);
    }
    SumCombination(s, Cross(a, b, x, y), Products(a, a), Products(a, b), Products(b, b), y * y, x * y, x * x);
  }

  /** Sums respect linear combinations. */
  lemma {:induction false} SumCombination(
    s: set<string>, h: string -> int, f: string -> int, g: string -> int, e: string -> int, u: int, v: int, w: int)
    requires forall k :: h(k) == f(k) * u - 2 * (g(k) * v) + e(k) * w
    ensures Sum(s, h) == Sum(s, f) * u - 2 * (Sum(s, g) * v) + Sum(s, e) * w
    decreases |s|
  {
    if s != {} {
      var k :| k in s;
      SumCombination(s - {k}, h, f, g, e, u, v, w);
      SumPick(s, h, k);
      SumPick(s, f, k);
      SumPick(s, g, k);
      SumPick(s, e, k);
      Distribute(f(k), Sum(s - {k}, f), u);
      Distribute(g(k), Sum(s - {k}, g), v);
      Distribute(e(k), Sum(s - {k}, e), w);
    }
  }

  lemma Distribute(u: int, v: int, w: int)
    ensures (u + v) * w == u * w + v * w
  {
  }

  /** Both maps point the same way on `s`: every two-by-two minor vanishes. */
  ghost predicate Aligned(s: set<string>, a: Tokens, b: Tokens) {
    forall i, j :: i in s && j in s ==> CountIn(a, i) * CountIn(b, j) == CountIn(a, j) * CountIn(b, i)
  }

  lemma GapStep(A: int, B: int, D: int, x: int, y: int)
    ensures (A + x * x) * (B + y * y) - (D + x * y) * (D + x * y) ==
      (A * B - D * D) + (A * (y * y) - 2 * (D * (x * y)) + B * (x * x))
  {
    assert (A + x * x) * (B + y * y) == A * B + A * (y * y) + (x * x) * B + (x * x) * (y * y);
    assert (D + x * y) * (D + x * y) == D * D + 2 * (D * (x * y)) + (x * y) * (x * y);
    assert (x * y) * (x * y) == (x * x) * (y * y);
  }

  /** One more component keeps the inequality, and keeps equality only when it adds nothing. */
  lemma GapGrows(A: int, B: int, D: int, x: int, y: int, Q: int)
    requires D * D <= A * B && Q >= 0 && Q == A * (y * y) - 2 * (D * (x * y)) + B * (x * x)
    ensures (D + x * y) * (D + x * y) <= (A + x * x) * (B + y * y)
    ensures (D + x * y) * (D + x * y) == (A + x * x) * (B + y * y) <==> D * D == A * B && Q == 0
  {
    GapStep(A, B, D, x, y);
  }

  lemma SquareZero(z: int)
    ensures z * z >= 0 && (z * z == 0 <==> z == 0)
  {
  }

  /** The inequality on any set of tokens, with its case of equality. */
  lemma {:induction false} CauchySchwarzOn(s: set<string>, a: Tokens, b: Tokens)
    ensures var dot, na, nb := Sum(s, Products(a, b)), Sum(s, Products(a, a)), Sum(s, Products(b, b));
      dot * dot <= na * nb && (dot * dot == na * nb <==> Aligned(s, a, b))
    decreases |s|
  {
    if s != {} {
      var k :| k in s;
      CauchySchwarzOn(s - {k}, a, b);
      AlignedStep(s, k, a, b);
      CauchySchwarzStep(s, k, a, b);
    }
  }

  lemma CauchySchwarzStep(s: set<string>, k: string, a: Tokens, b: Tokens)
    requires k in s
    requires var t := s - {k};
      Sum(t, Products(a, b)) * Sum(t, Products(a, b)) <= Sum(t, Products(a, a)) * Sum(t, Products(b, b))
    ensures Sum(s, Products(a, b)) * Sum(s, Products(a, b)) <= Sum(s, Products(a, a)) * Sum(s, Products(b, b))
    ensures Sum(s, Products(a, b)) * Sum(s, Products(a, b)) == Sum(s, Products(a, a)) * Sum(s, Products(b, b)) <==>
      && Sum(s - {k}, Products(a, b)) * Sum(s - {k}, Products(a, b)) ==
        Sum(s - {k}, Products(a, a)) * Sum(s - {k}, Products(b, b))
      && forall j :: j in s - {k} ==> CountIn(a, j) * CountIn(b, k) == CountIn(b, j) * CountIn(a, k)
  {
    var t, x, y := s - {k}, CountIn(a, k), CountIn(b, k);
    SumPick(s, Products(a, a), k);
    SumPick(s, Products(a, b), k);
    SumPick(s, Products(b, b), k);
    CrossSum(t, a, b, x, y);
    CrossTerms(t, a, b, x, y);
    var A, B, D := Sum(t, Products(a, a)), Sum(t, Products(b, b)), Sum(t, Products(a, b));
    GapGrows(A, B, D, x, y, Sum(t, Cross(a, b, x, y)));
    assert Sum(s, Products(a, a)) == A + x * x;
    assert Sum(s, Products(b, b)) == B + y * y;
    assert Sum(s, Products(a, b)) == D + x * y;
  }

  /** The sum of squares vanishes exactly when each cross term does. */
  lemma CrossTerms(t: set<string>, a: Tokens, b: Tokens, x: int, y: int)
    ensures Sum(t, Cross(a, b, x, y)) >= 0
    ensures Sum(t, Cross(a, b, x, y)) == 0 <==> forall j :: j in t ==> CountIn(a, j) * y == CountIn(b, j) * x
  {
    forall j
      ensures Cross(a, b, x, y)(j) >= 0
      ensures Cross(a, b, x, y)(j) == 0 <==> CountIn(a, j) * y == CountIn(b, j) * x
    {
      SquareZero(CountIn(a, j) * y - CountIn(b, j) * x);
    }
    SumNonNegative(t, Cross(a, b, x, y));
  }

  lemma AlignedStep(s: set<string>, k: string, a: Tokens, b: Tokens)
    requires k in s
    ensures Aligned(s, a, b) <==>
      && Aligned(s - {k}, a, b)
      && forall j :: j in s - {k} ==> CountIn(a, j) * CountIn(b, k) == CountIn(b, j) * CountIn(a, k)
  {
    hide CountIn;
    if
      && Aligned(s - {k}, a, b)
      && forall j :: j in s - {k} ==> CountIn(a, j) * CountIn(b, k) == CountIn(b, j) * CountIn(a, k)
    {
      forall i, j | i in s && j in s
        ensures CountIn(a, i) * CountIn(b, j) == CountIn(a, j) * CountIn(b, i)
      {
        if i != k && j != k {
          assert i in s - {k} && j in s - {k};
        } else if i == k && j != k {
          assert j in s - {k};
        } else if j == k && i != k {
          assert i in s - {k};
        }
      }
    }
  }

  // ---- the loops of cosineSimilarity ----

  /** The sums do not depend on which of the two maps is walked. */
  lemma DotOverUnion(a: Tokens, b: Tokens)
    ensures Dot(a, b) == Sum(a.Keys + b.Keys, Products(a, b)) == Dot(b, a)
    ensures Norm(a) == Sum(a.Keys + b.Keys, Products(a, a)) && Norm(b) == Sum(a.Keys + b.Keys, Products(b, b))
  {
    var all := a.Keys + b.Keys;
    SumSupport(all, a.Keys, Products(a, b));
    SumSupport(all, b.Keys, Products(b, a));
    SumSame(all, Products(a, b), Products(b, a));
    SumSupport(all, a.Keys, Products(a, a));
    SumSupport(all, b.Keys, Products(b, b));
  }

  /** Cauchy-Schwarz for token maps, whose product is symmetric. */
  lemma CauchySchwarz(a: Tokens, b: Tokens)
    ensures Dot(a, b) == Dot(b, a)
    ensures Dot(a, b) * Dot(a, b) <= Norm(a) * Norm(b)
  {
    DotOverUnion(a, b);
    CauchySchwarzOn(a.Keys + b.Keys, a, b);
  }

  lemma NormPositive(a: Tokens)
    ensures Norm(a) >= 0
    ensures Counted(a) && a.Keys != {} ==> Norm(a) > 0
  {
    forall k
      ensures Products(a, a)(k) >= 0 && (Products(a, a)(k) == 0 <==> CountIn(a, k) == 0)
    {
      SquareZero(CountIn(a, k));
    }
    SumNonNegative(a.Keys, Products(a, a));
    if Counted(a) && a.Keys != {} {
      var k :| k in a.Keys;
      assert CountIn(a, k) > 0;
    }
  }

  lemma DotNonNegative(a: Tokens, b: Tokens)
    requires Counted(a) && Counted(b)
    ensures Dot(a, b) >= 0
  {
    forall k
      ensures Products(a, b)(k) >= 0
    {
      assert CountIn(a, k) >= 0 && CountIn(b, k) >= 0;
    }
    SumNonNegative(a.Keys, Products(a, b));
  }

  lemma CancelPositive(p: int, q: int, u: int, v: int)
    requires p > 0 && q > 0 && (p * q) * u == (p * q) * v
    ensures u == v
  {
    assert p * q > 0;
    assert (p * q) * (u - v) == 0;
  }

  /** Equality holds exactly for proportional maps. */
  lemma EqualityMeansProportional(a: Tokens, b: Tokens)
    requires Counted(a) && Counted(b) && a.Keys != {} && b.Keys != {}
    ensures Dot(a, b) * Dot(a, b) == Norm(a) * Norm(b) <==> Proportional(a, b)
  {
    var all := a.Keys + b.Keys;
    DotOverUnion(a, b);
    CauchySchwarzOn(all, a, b);
    if Aligned(all, a, b) {
      AlignedIsProportional(a, b);
    }
    if Proportional(a, b) {
      var p, q :| Scaled(a, b, p, q);
      forall i, j | i in all && j in all
        ensures CountIn(a, i) * CountIn(b, j) == CountIn(a, j) * CountIn(b, i)
      {
        ScaledMinor(p, q, a[i], a[j], b[i], b[j]);
      }
    }
  }

  lemma ScaledMinor(p: int, q: int, ai: int, aj: int, bi: int, bj: int)
    requires p > 0 && q > 0 && p * ai == q * bi && p * aj == q * bj
    ensures ai * bj == aj * bi
  {
    assert (p * q) * (ai * bj) == (p * ai) * (q * bj);
    assert (p * q) * (aj * bi) == (p * aj) * (q * bi);
    assert (p * ai) * (q * bj) == (q * bi) * (p * aj);
    CancelPositive(p, q, ai * bj, aj * bi);
  }

  lemma NonZeroFactor(u: int, v: int, w: int, z: int)
    requires u > 0 && v > 0 && u * v == w * z
    ensures z != 0
  {
    assert u * v > 0;
  }

  lemma AlignedAt(all: set<string>, a: Tokens, b: Tokens, j: string, k: string)
    requires Aligned(all, a, b) && j in all && k in all
    ensures CountIn(a, j) * CountIn(b, k) == CountIn(a, k) * CountIn(b, j)
    ensures CountIn(b, j) * CountIn(a, k) == CountIn(b, k) * CountIn(a, j)
  {
  }

  lemma AlignedIsProportional(a: Tokens, b: Tokens)
    requires Counted(a) && Counted(b) && a.Keys != {} && b.Keys != {}
    requires Aligned(a.Keys + b.Keys, a, b)
    ensures Proportional(a, b)
  {
    hide Aligned;
    var i, j :| i in a.Keys && j in b.Keys;
    forall k | k in a
      ensures k in b
    {
      AlignedAt(a.Keys + b.Keys, a, b, k, j);
      NonZeroFactor(CountIn(a, k), CountIn(b, j), CountIn(a, j), CountIn(b, k));
    }
    forall k | k in b
      ensures k in a
    {
      AlignedAt(a.Keys + b.Keys, a, b, k, i);
      NonZeroFactor(CountIn(b, k), CountIn(a, i), CountIn(b, i), CountIn(a, k));
    }
    assert a.Keys == b.Keys;
    forall k | k in a
      ensures b[i] * a[k] == a[i] * b[k]
    {
      AlignedAt(a.Keys + b.Keys, a, b, k, i);
    }
    assert Scaled(a, b, b[i], a[i]);
  }

  // ---- the similarity ----

  ghost predicate IsSquareRoot(sqrt: real -> real) {
    forall x: real :: x >= 0.0 ==> sqrt(x) >= 0.0 && sqrt(x) * sqrt(x) == x
  }

  ghost function Cosine(a: Tokens, b: Tokens, sqrt: real -> real): real
    requires IsSquareRoot(sqrt)
  {
    NormPositive(a);
    NormPositive(b);
    if Norm(a) == 0 || Norm(b) == 0 then 0.0
    else
      RootsPositive(Norm(a), Norm(b), sqrt);
      Dot(a, b) as real / (sqrt(Norm(a) as real) * sqrt(Norm(b) as real))
  }

  lemma RootsPositive(m: int, n: int, sqrt: real -> real)
    requires IsSquareRoot(sqrt) && m > 0 && n > 0
    ensures sqrt(m as real) * sqrt(n as real) > 0.0
    ensures (sqrt(m as real) * sqrt(n as real)) * (sqrt(m as real) * sqrt(n as real)) == (m * n) as real
  {
    var x, y := sqrt(m as real), sqrt(n as real);
    assert x * x == m as real && y * y == n as real;
    assert x > 0.0 && y > 0.0;
    assert (x * y) * (x * y) == (x * x) * (y * y);
  }

  lemma QuotientRange(d: real, r: real)
    requires r > 0.0 && d * d <= r * r
    ensures -1.0 <= d / r <= 1.0
    ensures d >= 0.0 ==> d / r >= 0.0 && (d / r == 1.0 <==> d * d == r * r)
  {
    RealSquareOrder(d, r);
    RealSquareOrder(-d, r);
    assert (-d) * (-d) == d * d;
    RealQuotient(d, r);
  }

  lemma RealSquareOrder(d: real, r: real)
    requires r > 0.0
    ensures d * d <= r * r ==> d <= r
    ensures d >= 0.0 && d * d == r * r ==> d == r
  {
    if d > r {
      RealProductPositive(d - r, d + r);
      assert (d - r) * (d + r) == d * d - r * r;
    } else if 0.0 <= d < r {
      RealProductPositive(r - d, r + d);
      assert (r - d) * (r + d) == r * r - d * d;
    }
  }

  lemma RealProductPositive(u: real, v: real)
    requires u > 0.0 && v > 0.0
    ensures u * v > 0.0
  {
  }

  lemma RealQuotient(d: real, r: real)
    requires r > 0.0 && -r <= d <= r
    ensures -1.0 <= d / r <= 1.0
    ensures d >= 0.0 ==> d / r >= 0.0
    ensures d / r == 1.0 <==> d == r
  {
    var c := d / r;
    assert c * r == d;
    if c > 1.0 {
      RealProductPositive(c - 1.0, r);
    } else if c < -1.0 {
      RealProductPositive(-1.0 - c, r);
    }
    if c < 0.0 {
      RealProductPositive(-c, r);
    }
  }

  lemma CosineMeans(a: Tokens, b: Tokens, sqrt: real -> real)
    requires IsSquareRoot(sqrt)
    ensures Norm(a) == 0 || Norm(b) == 0 ==> Cosine(a, b, sqrt) == 0.0
    ensures Norm(a) > 0 && Norm(b) > 0 ==>
      var roots := sqrt(Norm(a) as real) * sqrt(Norm(b) as real);
      roots > 0.0 && Cosine(a, b, sqrt) == Dot(a, b) as real / roots
  {
    if Norm(a) > 0 && Norm(b) > 0 {
      RootsPositive(Norm(a), Norm(b), sqrt);
    }
  }

  /** The similarity of two token maps is symmetric and lies in [0, 1], and it is 1 exactly for
      non-empty proportional maps. */
  lemma CosineRange(a: Tokens, b: Tokens, sqrt: real -> real)
    requires IsSquareRoot(sqrt) && Counted(a) && Counted(b)
    ensures Cosine(a, b, sqrt) == Cosine(b, a, sqrt)
    ensures 0.0 <= Cosine(a, b, sqrt) <= 1.0
    ensures Cosine(a, b, sqrt) == 1.0 <==> a.Keys != {} && b.Keys != {} && Proportional(a, b)
  {
    hide Norm, Dot, Proportional, Counted, Cosine;
    NormPositive(a);
    NormPositive(b);
    DotOverUnion(a, b);
    CosineMeans(a, b, sqrt);
    CosineMeans(b, a, sqrt);
    EmptyNorm(a);
    EmptyNorm(b);
    if Norm(a) > 0 && Norm(b) > 0 {
      CauchySchwarz(a, b);
      DotNonNegative(a, b);
      EqualityMeansProportional(a, b);
      RootsPositive(Norm(a), Norm(b), sqrt);
      QuotientOfInts(Dot(a, b), Norm(a) * Norm(b), sqrt(Norm(a) as real) * sqrt(Norm(b) as real));
    }
  }

  /** The similarity of maps with counts is the quotient of the textbook: the sum of the products of
      the counts, over the tokens of the one map or the other, by the product of the roots `ra` and `rb`
      of the sums of the squares. */
  lemma CosineExactly(
    a: Tokens, b: Tokens, sqrt: real -> real, ra: real, rb: real, f: string -> int, g: string -> int, h: string -> int)
    requires IsSquareRoot(sqrt) && Counted(a) && Counted(b) && a.Keys != {} && b.Keys != {}
    requires forall k :: k in a ==> f(k) == (if k in b then a[k] * b[k] else 0) && g(k) == a[k] * a[k]
    requires forall k :: k in b ==> h(k) == b[k] * b[k]
    requires ra >= 0.0 && ra * ra == Sum(a.Keys, g) as real && rb >= 0.0 && rb * rb == Sum(b.Keys, h) as real
    ensures ra > 0.0 && rb > 0.0 && Cosine(a, b, sqrt) * (ra * rb) == Sum(a.Keys, f) as real
  {
    hide Sum, Counted, Dot, Norm, Cosine, IsSquareRoot;
    DotIs(a, b, f);
    NormIs(a, g);
    NormIs(b, h);
    NormPositive(a);
    NormPositive(b);
    RootIs(Norm(a), ra, sqrt);
    RootIs(Norm(b), rb, sqrt);
    CosineMeans(a, b, sqrt);
    TimesQuotient(Dot(a, b) as real, ra * rb);
  }

  lemma DotIs(a: Tokens, b: Tokens, f: string -> int)
    requires forall k :: k in a ==> f(k) == if k in b then a[k] * b[k] else 0
    ensures Dot(a, b) == Sum(a.Keys, f)
  {
    hide Sum;
    SumSame(a.Keys, f, Products(a, b));
  }

  lemma NormIs(a: Tokens, g: string -> int)
    requires forall k :: k in a ==> g(k) == a[k] * a[k]
    ensures Norm(a) == Sum(a.Keys, g)
  {
    DotIs(a, a, g);
  }

  lemma TimesQuotient(d: real, r: real)
    requires r > 0.0
    ensures d / r * r == d
  {
  }

  lemma RootIs(n: int, r: real, sqrt: real -> real)
    requires IsSquareRoot(sqrt) && n > 0 && r >= 0.0 && r * r == n as real
    ensures r > 0.0 && sqrt(n as real) == r
  {
    var s := sqrt(n as real);
    assert s * s == n as real;
    assert r > 0.0;
    assert s > 0.0;
    RealSquareOrder(s, r);
    RealSquareOrder(r, s);
  }

  /** "buy buy now" and "buy": two by the root of five. */
  lemma CosineExample(sqrt: real -> real)
    requires IsSquareRoot(sqrt)
    ensures Cosine(map["buy" := 2, "now" := 1], map["buy" := 1], sqrt) * sqrt(5.0) == 2.0
  {
    var a, b: Tokens := map["buy" := 2, "now" := 1], map["buy" := 1];
    var f, g, h := Products(a, b), Products(a, a), Products(b, b);
    assert a.Keys == {"buy", "now"} && b.Keys == {"buy"};
    SumOfTwo("buy", "now", f);
    SumOfTwo("buy", "now", g);
    SumOfOne("buy", h);
    hide Sum, Cosine;
    assert sqrt(5.0) * sqrt(5.0) == 5.0;
    CosineExactly(a, b, sqrt, sqrt(5.0), 1.0, f, g, h);
  }

  lemma QuotientOfInts(d: int, n: int, r: real)
    requires r > 0.0 && d >= 0 && d * d <= n && r * r == n as real
    ensures 0.0 <= d as real / r <= 1.0
    ensures d as real / r == 1.0 <==> d * d == n
  {
    assert d as real * d as real == (d * d) as real;
    QuotientRange(d as real, r);
  }

  lemma EmptyNorm(a: Tokens)
    ensures a.Keys == {} ==> Norm(a) == 0
  {
  }

  lemma PickProduct(keys: set<string>, a: Tokens, b: Tokens, key: string)
    requires key in keys
    ensures Sum(keys, Products(a, b)) == CountIn(a, key) * CountIn(b, key) + Sum(keys - {key}, Products(a, b))
  {
    SumPick(keys, Products(a, b), key);
  }

  lemma NothingToSum(a: Tokens, b: Tokens)
    ensures Sum({}, Products(a, b)) == Sum({}, Products(a, a)) == Sum({}, Products(b, b)) == 0
  {
  }

  /** The first loop of cosineSimilarity. */
  method DotAndNorm(a: Tokens, b: Tokens) returns (dotProduct: int, normA: int)
    ensures dotProduct == Dot(a, b) && normA == Norm(a)
  {
    dotProduct, normA := 0, 0;
    var keys := a.Keys;
    NothingToSum(a, b);
    hide Sum, Products;
    while keys != {}
      invariant keys <= a.Keys
      invariant dotProduct + Sum(keys, Products(a, b)) == Dot(a, b)
      invariant normA + Sum(keys, Products(a, a)) == Norm(a)
    {
      var key :| key in keys;
      PickProduct(keys, a, b, key);
      PickProduct(keys, a, a, key);
      var val := a[key];
      dotProduct := dotProduct + val * CountIn(b, key);
      normA := normA + val * val;
      keys := keys - {key};
    }
  }

  /** The second one. */
  method NormOf(b: Tokens) returns (normB: int)
    ensures normB == Norm(b)
  {
    normB := 0;
    var keys := b.Keys;
    NothingToSum(b, b);
    hide Sum, Products;
    while keys != {}
      invariant keys <= b.Keys
      invariant normB + Sum(keys, Products(b, b)) == Norm(b)
    {
      var key :| key in keys;
      PickProduct(keys, b, b, key);
      var val := b[key];
      normB := normB + val * val;
      keys := keys - {key};
    }
  }

  /** cosineSimilarity: the loops compute the cosine, in whatever order Go walks the maps. */
  method CosineSimilarity(a: Tokens, b: Tokens, sqrt: real -> real) returns (similarity: real)
    requires IsSquareRoot(sqrt)
    ensures similarity == Cosine(a, b, sqrt)
  {
    EmptyNorm(a);
    EmptyNorm(b);
    NormPositive(a);
    NormPositive(b);
    CosineMeans(a, b, sqrt);
    hide Norm, Dot, Cosine;
    if |a| == 0 || |b| == 0 {
      return 0.0;
    }
    var dotProduct, normA := DotAndNorm(a, b);
    var normB := NormOf(b);
    if normA == 0 || normB == 0 {
      return 0.0;
    }
    return dotProduct as real / (sqrt(normA as real) * sqrt(normB as real));
  }

  /** isSpamSimilarityHigh: a message is flagged exactly when some sample reaches the threshold,
      and the similarity reported with a flag is that of the first such sample. */
  method IsSpamSimilarityHigh(message: Tokens, samples: seq<Tokens>, threshold: real, sqrt: real -> real)
    returns (spam: bool, maxSimilarity: real)
    requires IsSquareRoot(sqrt) && threshold > 0.0
    ensures spam <==> exists i :: 0 <= i < |samples| && Cosine(message, samples[i], sqrt) >= threshold
    ensures spam ==> exists i :: (
      && 0 <= i < |samples| && maxSimilarity == Cosine(message, samples[i], sqrt) >= threshold
      && forall j :: 0 <= j < i ==> Cosine(message, samples[j], sqrt) < threshold)
    ensures !spam ==> maxSimilarity < threshold && forall i :: 0 <= i < |samples| ==>
      Cosine(message, samples[i], sqrt) <= maxSimilarity
  {
    hide Cosine;
    maxSimilarity := 0.0;
    for i := 0 to |samples|
      invariant 0.0 <= maxSimilarity < threshold
      invariant forall j :: 0 <= j < i ==> Cosine(message, samples[j], sqrt) <= maxSimilarity
    {
      var similarity := CosineSimilarity(message, samples[i], sqrt);
      if similarity > maxSimilarity {
        maxSimilarity := similarity;
      }
      if similarity >= threshold {
        return true, maxSimilarity;
      }
    }
    return false, maxSimilarity;
  }

  /** Every count multiplied, as when a text is repeated. */
  function Times(a: Tokens, factor: int): Tokens {
    map k | k in a :: factor * a[k]
  }

  /** A copy of a stored sample, or any multiple of it, has similarity 1. */
  lemma CopyHasSimilarityOne(a: Tokens, factor: int, sqrt: real -> real)
    requires IsSquareRoot(sqrt) && Counted(a) && a.Keys != {} && factor > 0
    ensures Cosine(Times(a, factor), a, sqrt) == 1.0 && Cosine(a, a, sqrt) == 1.0
  {
    var b := Times(a, factor);
    assert b.Keys == a.Keys;
    assert Scaled(a, a, 1, 1) && Scaled(b, a, 1, factor);
    CosineRange(a, a, sqrt);
    CosineRange(b, a, sqrt);
  }
}
