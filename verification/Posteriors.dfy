/** Scoring with the tables of lib/tgspam/classifier.go: classify and softmax over reals, with the
    logarithm and the exponential as parameters, and the smoothed estimates that classify uses. */
module Posteriors {
  import opened Seqs
  import opened Sums
  import opened ClassifierSpec
  import opened Classification

  ghost predicate Exponential(exp: real -> real) {
    (forall x :: exp(x) > 0.0) && forall x, y :: x < y ==> exp(x) < exp(y)
  }

  /** The value of a key, 0 for an absent one. */
  function ValueAt<K(==)>(m: map<K, real>, k: K): real {
    if k in m then m[k] else 0.0
  }

  function At<K(==)>(m: map<K, real>): K -> real {
    k => ValueAt(m, k)
  }

  ghost predicate Largest<K(!new)>(m: map<K, real>, value: real) {
    (exists k :: k in m && m[k] == value) && forall k :: k in m ==> m[k] <= value
  }

  function Shifted<K(==)>(m: map<K, real>, shift: real, exp: real -> real): K -> real {
    k => exp(ValueAt(m, k) - shift)
  }

  // ---- softmax ----

  /** Step 1 of softmax: the largest value. */
  method MaxValue<K(==,!new)>(logProbs: map<K, real>) returns (maxVal: real)
    requires logProbs != map[]
    ensures Largest(logProbs, maxVal)
  {
    var cat := AnyOf(logProbs.Keys);
    maxVal := logProbs[cat];
    var rest := logProbs.Keys - {cat};
    while rest != {}
      invariant rest <= logProbs.Keys
      invariant exists k :: k in logProbs && logProbs[k] == maxVal
      invariant forall k :: k in logProbs.Keys - rest ==> logProbs[k] <= maxVal
    {
      cat := AnyOf(rest);
      if logProbs[cat] > maxVal {
        maxVal := logProbs[cat];
      }
      rest := rest - {cat};
    }
  }

  /** The values of a map on part of its keys. */
  ghost predicate Filled<K(!new)>(m: map<K, real>, keys: set<K>, f: K -> real) {
    m.Keys == keys && forall k :: k in keys ==> m[k] == f(k)
  }

  lemma FilledStep<K(!new)>(m: map<K, real>, keys: set<K>, todo: set<K>, f: K -> real, k: K)
    requires Filled(m, keys - todo, f) && todo <= keys && k in todo
    ensures Filled(m[k := f(k)], keys - (todo - {k}), f)
    ensures RealSum(keys - (todo - {k}), f) == RealSum(keys - todo, f) + f(k)
  {
    assert keys - (todo - {k}) == keys - todo + {k};
    RealSumAppend(keys - todo, f, k);
    hide RealSum;
  }

  lemma NothingFilled<K(!new)>(keys: set<K>, f: K -> real)
    ensures Filled(map[], keys - keys, f) && RealSum(keys - keys, f) == 0.0
  {
    assert keys - keys == {};
  }

  lemma AllFilled<K(!new)>(m: map<K, real>, keys: set<K>, f: K -> real)
    ensures Filled(m, keys - {}, f) <==> Filled(m, keys, f)
    ensures RealSum(keys - {}, f) == RealSum(keys, f)
  {
    assert keys - {} == keys;
  }

  lemma ShiftedAt<K>(m: map<K, real>, shift: real, exp: real -> real, k: K)
    requires k in m
    ensures Shifted(m, shift, exp)(k) == exp(m[k] - shift)
  {
  }

  /** Step 2 of softmax: the exponentials and their sum. */
  method Exponentials<K(==,!new)>(logProbs: map<K, real>, maxVal: real, exp: real -> real)
    returns (exps: map<K, real>, expSum: real)
    ensures Filled(exps, logProbs.Keys, Shifted(logProbs, maxVal, exp))
    ensures expSum == RealSum(logProbs.Keys, Shifted(logProbs, maxVal, exp))
  {
    hide RealSum, Filled, Shifted;
    exps, expSum := map[], 0.0;
    var todo := logProbs.Keys;
    ghost var keys, f := logProbs.Keys, Shifted(logProbs, maxVal, exp);
    NothingFilled(keys, f);
    while todo != {}
      invariant todo <= keys
      invariant Filled(exps, keys - todo, f) && expSum == RealSum(keys - todo, f)
    {
      var cat := AnyOf(todo);
      FilledStep(exps, keys, todo, f, cat);
      ShiftedAt(logProbs, maxVal, exp, cat);
      exps := exps[cat := exp(logProbs[cat] - maxVal)];
      expSum := expSum + exps[cat];
      todo := todo - {cat};
    }
    AllFilled(exps, keys, f);
  }

  /** Step 3 of softmax: normalising. */
  method Normalised<K(==,!new)>(exps: map<K, real>, expSum: real) returns (probs: map<K, real>)
    requires expSum > 0.0
    ensures probs.Keys == exps.Keys && forall k :: k in exps ==> probs[k] == exps[k] / expSum
  {
    probs := map[];
    var todo := exps.Keys;
    while todo != {}
      invariant todo <= exps.Keys && probs.Keys == exps.Keys - todo
      invariant forall k :: k in probs ==> probs[k] == exps[k] / expSum
    {
      var cat := AnyOf(todo);
      probs := probs[cat := exps[cat] / expSum];
      todo := todo - {cat};
    }
  }

  /** What softmax computes: the exponentials, relative to the largest score, as shares of their
      sum. */
  ghost predicate IsSoftmax<K(!new)>(logProbs: map<K, real>, probs: map<K, real>, maxVal: real, exp: real -> real) {
    var f := Shifted(logProbs, maxVal, exp);
    && Largest(logProbs, maxVal) && probs.Keys == logProbs.Keys
    && RealSum(logProbs.Keys, f) > 0.0
    && forall k :: k in logProbs ==> probs[k] == f(k) / RealSum(logProbs.Keys, f)
  }

  method Softmax<K(==,!new)>(logProbs: map<K, real>, exp: real -> real) returns (probs: map<K, real>)
    requires Exponential(exp)
    ensures if logProbs == map[] then probs == map[] else exists m :: IsSoftmax(logProbs, probs, m, exp)
  {
    if logProbs == map[] {
      return map[];
    }
    var maxVal := MaxValue(logProbs);
    var exps, expSum := Exponentials(logProbs, maxVal, exp);
    RealSumPositive(logProbs.Keys, Shifted(logProbs, maxVal, exp));
    probs := Normalised(exps, expSum);
    assert IsSoftmax(logProbs, probs, maxVal, exp);
  }

  lemma {:induction false} PeakExists<K(!new)>(m: map<K, real>)
    requires m != map[]
    ensures exists v :: Largest(m, v)
    decreases |m.Keys|
  {
    var k :| k in m.Keys;
    var rest := m - {k};
    if rest == map[] {
      assert forall j :: j in m ==> j == k || j in rest;
      assert Largest(m, m[k]);
    } else {
      assert rest.Keys == m.Keys - {k};
      PeakExists(rest);
      var v :| Largest(rest, v);
      assert forall j :: j in m ==> j == k || (j in rest && rest[j] == m[j]);
      assert Largest(m, if m[k] > v then m[k] else v);
    }
  }

  /** The largest score. */
  ghost function Peak<K(!new)>(m: map<K, real>): (v: real)
    requires m != map[]
    ensures Largest(m, v)
  {
    PeakExists(m);
    var v :| Largest(m, v);
    v
  }

  /** The probability of a key: the exponential of its score as a share of all of them. */
  ghost function Share<K(!new)>(scores: map<K, real>, k: K, exp: real -> real): real
    requires Exponential(exp) && k in scores
  {
    var f := Shifted(scores, Peak(scores), exp);
    RealSumPositive(scores.Keys, f);
    f(k) / RealSum(scores.Keys, f)
  }

  /** There is only one softmax. */
  lemma SoftmaxIsShare<K(!new)>(logProbs: map<K, real>, probs: map<K, real>, m: real, exp: real -> real)
    requires Exponential(exp) && IsSoftmax(logProbs, probs, m, exp)
    ensures forall k :: k in logProbs ==> k in probs && probs[k] == Share(logProbs, k, exp)
  {
    hide RealSum, Exponential;
    forall k | k in logProbs
      ensures k in probs && probs[k] == Share(logProbs, k, exp)
    {
      assert k in probs.Keys;
      assert m == Peak(logProbs);
    }
  }

  /** The share of a key is its exponential `e`, relative to the largest score `m`, divided by all. */
  lemma ShareExactly<K(!new)>(scores: map<K, real>, k: K, m: real, exp: real -> real, e: K -> real)
    requires Exponential(exp) && k in scores && Largest(scores, m)
    requires forall j :: j in scores ==> e(j) == exp(scores[j] - m)
    ensures RealSum(scores.Keys, e) > 0.0
    ensures Share(scores, k, exp) == e(k) / RealSum(scores.Keys, e)
  {
    hide RealSum;
    assert m == Peak(scores);
    var f := Shifted(scores, m, exp);
    RealSumSame(scores.Keys, f, e);
    RealSumPositive(scores.Keys, f);
  }

  /** A class alone has all of it. */
  lemma ShareAlone<K(!new)>(scores: map<K, real>, c: K, exp: real -> real)
    requires Exponential(exp) && scores.Keys == {c}
    ensures Share(scores, c, exp) == 1.0
  {
    hide RealSum, Share, Exponential;
    assert forall j :: j in scores.Keys ==> j == c;
    assert c in scores.Keys;
    var e := Shifted(scores, scores[c], exp);
    ShareExactly(scores, c, scores[c], exp, e);
    RealSumOfOne(c, e);
    QuotientOfSame(e(c));
  }

  lemma QuotientOfSame(x: real)
    requires x > 0.0
    ensures x / x == 1.0
  {
  }

  /** Of two classes each has its exponential by the sum of both. */
  lemma ShareOfTwo<K(!new)>(scores: map<K, real>, c: K, d: K, m: real, exp: real -> real)
    requires Exponential(exp) && c != d && scores.Keys == {c, d} && Largest(scores, m)
    ensures exp(scores[c] - m) + exp(scores[d] - m) > 0.0
    ensures Share(scores, c, exp) == exp(scores[c] - m) / (exp(scores[c] - m) + exp(scores[d] - m))
  {
    hide RealSum, Share, Largest, Exponential;
    var e := Shifted(scores, m, exp);
    ShareExactly(scores, c, m, exp, e);
    RealSumOfTwo(c, d, e);
    assert c in scores.Keys && d in scores.Keys;
  }

  lemma SameOrder(x: real, y: real, total: real, exp: real -> real)
    requires Exponential(exp) && total > 0.0
    ensures exp(x) / total < exp(y) / total <==> x < y
    ensures exp(x) / total > 0.0
  {
    if exp(x) < exp(y) {
      assert exp(x) / total < exp(y) / total;
    } else if exp(x) > exp(y) {
      assert exp(x) / total > exp(y) / total;
    }
  }

  /** The probabilities are ordered like the scores. */
  lemma SoftmaxKeepsOrder<K(!new)>(logProbs: map<K, real>, probs: map<K, real>, m: real, exp: real -> real)
    requires Exponential(exp) && IsSoftmax(logProbs, probs, m, exp)
    ensures forall j, k :: j in logProbs && k in logProbs ==> (probs[j] < probs[k] <==> logProbs[j] < logProbs[k])
    ensures forall k :: k in probs ==> probs[k] > 0.0
  {
    hide Largest, RealSum, Exponential;
    var total := RealSum(logProbs.Keys, Shifted(logProbs, m, exp));
    forall j, k | j in logProbs && k in logProbs
      ensures (probs[j] < probs[k] <==> logProbs[j] < logProbs[k]) && probs[j] > 0.0
    {
      SameOrder(logProbs[j] - m, logProbs[k] - m, total, exp);
      assert probs[j] == exp(logProbs[j] - m) / total && probs[k] == exp(logProbs[k] - m) / total;
    }
  }

  /** The probabilities add up to 1. */
  lemma SoftmaxAddsUp<K(!new)>(logProbs: map<K, real>, probs: map<K, real>, m: real, exp: real -> real)
    requires IsSoftmax(logProbs, probs, m, exp)
    ensures RealSum(probs.Keys, At(probs)) == 1.0
  {
    hide Largest;
    var f := Shifted(logProbs, m, exp);
    var total := RealSum(logProbs.Keys, f);
    hide RealSum;
    assert probs.Keys == logProbs.Keys;
    forall k | k in probs
      ensures At(probs)(k) == f(k) / total
    {
      assert k in logProbs;
    }
    RealSumDivided(probs.Keys, f, At(probs), total);
    assert total / total == 1.0;
  }

  // ---- the best class ----

  /** One key is above all the others. */
  ghost predicate HasWinner<K(!new)>(m: map<K, real>) {
    exists k :: k in m && Winner(m, k)
  }

  ghost predicate Winner<K(!new)>(m: map<K, real>, k: K)
    requires k in m
  {
    forall j :: j in m && j != k ==> m[j] < m[k]
  }

  /** The last loop of classify: whatever the order of the visits, a single maximum is found and
      recognised as such. */
  method FindBest<K(==,!new)>(probabilities: map<K, real>)
    returns (bestClass: Option<K>, highestProb: real, certain: bool)
    requires forall k :: k in probabilities ==> probabilities[k] > 0.0
    ensures bestClass.None? <==> probabilities == map[]
    ensures bestClass.Some? ==> bestClass.value in probabilities && Largest(probabilities, highestProb)
    ensures bestClass.Some? ==> probabilities[bestClass.value] == highestProb
    ensures bestClass.None? ==> highestProb == 0.0
    ensures certain <==> HasWinner(probabilities)
  {
    certain, bestClass, highestProb := false, None, 0.0;
    var rest := probabilities.Keys;
    while rest != {}
      invariant rest <= probabilities.Keys
      invariant bestClass.None? <==> rest == probabilities.Keys
      invariant bestClass.None? ==> highestProb == 0.0 && !certain
      invariant bestClass.Some? ==> bestClass.value in probabilities.Keys - rest
      invariant bestClass.Some? ==> probabilities[bestClass.value] == highestProb > 0.0
      invariant forall k :: k in probabilities.Keys - rest ==> probabilities[k] <= highestProb
      invariant bestClass.Some? && certain ==>
        forall k :: k in probabilities.Keys - rest && k != bestClass.value ==> probabilities[k] < highestProb
      invariant bestClass.Some? && !certain ==>
        exists k :: k in probabilities.Keys - rest && k != bestClass.value && probabilities[k] == highestProb
    {
      var candidate := AnyOf(rest);
      var prob := probabilities[candidate];
      if highestProb == 0.0 || prob > highestProb {
        certain, bestClass, highestProb := true, Some(candidate), prob;
      } else if prob == highestProb {
        certain := false;
      }
      rest := rest - {candidate};
    }
    if bestClass.Some? && certain {
      assert Winner(probabilities, bestClass.value);
    }
  }

  // ---- the scores ----

  /** No logarithm of classify divides by zero. */
  ghost predicate Scorable<T(!new)>(t: Tables<T>) {
    && (forall c :: c in t.prior ==> t.prior[c].den > 0)
    && (forall c :: c in t.freq ==> t.freq[c] + |t.tok| > 0)
  }

  /** The smoothed estimate for a token in a class. */
  function Estimate<T(==)>(t: Tables<T>, token: T, c: SpamClass): real
    requires Read(t.freq, c) + |t.tok| > 0
  {
    (ReadToken(t.tok, token, c) + 1) as real / (Read(t.freq, c) + |t.tok|) as real
  }

  function Prior<T>(t: Tables<T>, c: SpamClass): real
    requires c in t.prior && t.prior[c].den > 0
  {
    t.prior[c].num as real / t.prior[c].den as real
  }

  function LogEstimates<T(==)>(t: Tables<T>, c: SpamClass, log: real -> real): T -> real
    requires Read(t.freq, c) + |t.tok| > 0
  {
    (k: T) => log(Estimate(t, k, c))
  }

  /** The score of a class for a set of tokens. */
  ghost function Score<T(!new)>(t: Tables<T>, tokens: set<T>, c: SpamClass, log: real -> real): real
    requires Scorable(t)
  {
    (if c in t.prior then log(Prior(t, c)) else 0.0) +
    (if c in t.freq then RealSum(tokens, LogEstimates(t, c, log)) else 0.0)
  }

  /** The classes that get a score. */
  function Scored<T>(t: Tables<T>, tokens: seq<T>): set<SpamClass> {
    t.prior.Keys + if tokens == [] then {} else t.freq.Keys
  }

  lemma NextEstimate<T(!new)>(tokens: seq<T>, f: T -> real, j: nat)
    requires NoDup(tokens) && j < |tokens|
    ensures RealSum(Elements(tokens[..j + 1]), f) == RealSum(Elements(tokens[..j]), f) + f(tokens[j])
  {
    NextElement(tokens, j);
    RealSumAppend(Elements(tokens[..j]), f, tokens[j]);
    hide RealSum, Elements, NoDup;
  }

  lemma NoEstimate<T(!new)>(tokens: seq<T>, f: T -> real)
    ensures RealSum(Elements(tokens[..0]), f) == 0.0
  {
    assert Elements(tokens[..0]) == {};
  }

  /** The inner loop of classify for one class. */
  method AddEstimates<T(==,!new)>(t: Tables<T>, tokens: seq<T>, c: SpamClass, start: real, log: real -> real)
    returns (score: real)
    requires Read(t.freq, c) + |t.tok| > 0 && NoDup(tokens)
    ensures score == start + RealSum(Elements(tokens), LogEstimates(t, c, log))
  {
    hide RealSum, Elements, Estimate, NoDup;
    ghost var f := LogEstimates(t, c, log);
    score := start;
    NoEstimate(tokens, f);
    for j := 0 to |tokens|
      invariant score == start + RealSum(Elements(tokens[..j]), f)
    {
      NextEstimate(tokens, f, j);
      score := score + log(Estimate(t, tokens[j], c));
    }
    assert tokens[..|tokens|] == tokens;
  }

  /** The score of a class while the classes in `todo` wait for their tokens. */
  ghost function Awaited<T(!new)>(
    t: Tables<T>, tokens: seq<T>, todo: set<SpamClass>, c: SpamClass, log: real -> real): Option<real>
    requires Scorable(t)
  {
    if tokens != [] && c in t.freq && c !in todo then Some(Score(t, Elements(tokens), c, log))
    else if c in t.prior then Some(log(Prior(t, c)))
    else None
  }

  function Lookup(m: map<SpamClass, real>, c: SpamClass): Option<real> {
    if c in m then Some(m[c]) else None
  }

  /** The first half of classify (lines 138-148): the log scores of the classes. */
  method PosteriorProbabilities<T(==,!new)>(t: Tables<T>, tokens: seq<T>, log: real -> real)
    returns (posterior: map<SpamClass, real>)
    requires Scorable(t)
    ensures posterior == Scores(t, tokens, log)
  {
    posterior := map c | c in t.prior :: log(Prior(t, c));
    var distinct := RemoveDuplicate(tokens);
    SameMembers(distinct, tokens);
    hide RealSum, Scorable, Prior;
    var todo := t.freq.Keys;
    while todo != {}
      invariant todo <= t.freq.Keys
      invariant forall c :: Lookup(posterior, c) == Awaited(t, tokens, todo, c, log)
    {
      var c := AnyOf(todo);
      ghost var start := posterior;
      if distinct != [] {
        var score := AddEstimates(t, distinct, c, if c in posterior then posterior[c] else 0.0, log);
        posterior := posterior[c := score];
        assert Lookup(start, c) == Awaited(t, tokens, todo, c, log);
        AwaitedStep(t, tokens, todo, c, log, score);
      }
      forall d
        ensures Lookup(posterior, d) == Awaited(t, tokens, todo - {c}, d, log)
      {
        assert Lookup(start, d) == Awaited(t, tokens, todo, d, log);
      }
      todo := todo - {c};
    }
    AllScored(t, tokens, posterior, log);
  }

  lemma AwaitedStep<T(!new)>(
    t: Tables<T>, tokens: seq<T>, todo: set<SpamClass>, c: SpamClass, log: real -> real, score: real)
    requires Scorable(t) && tokens != [] && c in todo && c in t.freq
    requires var start := Awaited(t, tokens, todo, c, log);
      score == (if start.Some? then start.value else 0.0) + RealSum(Elements(tokens), LogEstimates(t, c, log))
    ensures Awaited(t, tokens, todo - {c}, c, log) == Some(score)
  {
    hide RealSum;
  }

  /** The scores of all the classes that get one. */
  ghost function Scores<T(!new)>(t: Tables<T>, tokens: seq<T>, log: real -> real): map<SpamClass, real>
    requires Scorable(t)
  {
    map c | c in Scored(t, tokens) :: Score(t, Elements(tokens), c, log)
  }

  lemma AllScored<T(!new)>(t: Tables<T>, tokens: seq<T>, posterior: map<SpamClass, real>, log: real -> real)
    requires Scorable(t)
    requires forall c :: Lookup(posterior, c) == Awaited(t, tokens, {}, c, log)
    ensures posterior == Scores(t, tokens, log)
  {
    forall c
      ensures c in posterior <==> c in Scored(t, tokens)
      ensures c in posterior ==> posterior[c] == Score(t, Elements(tokens), c, log)
    {
      assert Lookup(posterior, c) == Awaited(t, tokens, {}, c, log);
      if tokens == [] {
        assert Elements(tokens) == {};
      }
    }
  }

  lemma SameMembers<T(!new)>(a: seq<T>, b: seq<T>)
    requires forall t :: t in a <==> t in b
    ensures Elements(a) == Elements(b) && (a == [] <==> b == [])
  {
    assert a != [] ==> a[0] in b;
    assert b != [] ==> b[0] in a;
  }

  // ---- classify ----

  ghost predicate SameOrders<K(!new)>(a: map<K, real>, b: map<K, real>) {
    a.Keys == b.Keys && forall j, k :: j in a && k in a ==> (a[j] < a[k] <==> b[j] < b[k])
  }

  lemma OneWinner<K(!new)>(a: map<K, real>, b: map<K, real>, k: K)
    requires SameOrders(a, b) && k in a && k in b && Winner(a, k)
    ensures Winner(b, k)
  {
    forall j | j in b && j != k
      ensures b[j] < b[k]
    {
      assert a[j] < a[k];
    }
  }

  lemma OrdersAreSymmetric<K(!new)>(a: map<K, real>, b: map<K, real>)
    requires SameOrders(a, b)
    ensures a.Keys == b.Keys && SameOrders(b, a)
  {
  }

  lemma WinnerMoves<K(!new)>(a: map<K, real>, b: map<K, real>)
    requires SameOrders(a, b) && HasWinner(a)
    ensures HasWinner(b)
  {
    OrdersAreSymmetric(a, b);
    hide Winner, SameOrders;
    var k :| k in a && Winner(a, k);
    assert k in a.Keys;
    OneWinner(a, b, k);
  }

  lemma WinnersAgree<K(!new)>(a: map<K, real>, b: map<K, real>)
    requires SameOrders(a, b)
    ensures HasWinner(a) <==> HasWinner(b)
  {
    OrdersAreSymmetric(a, b);
    hide SameOrders, HasWinner;
    if HasWinner(a) {
      WinnerMoves(a, b);
    }
    if HasWinner(b) {
      WinnerMoves(b, a);
    }
  }

  lemma LargestAgrees<K(!new)>(a: map<K, real>, b: map<K, real>, k: K)
    requires SameOrders(a, b) && k in a && k in b && Largest(a, a[k])
    ensures Largest(b, b[k])
  {
    forall j | j in b
      ensures b[j] <= b[k]
    {
      assert a[j] <= a[k];
    }
  }

  lemma AtMostOne<K(!new)>(probs: map<K, real>, k: K)
    requires k in probs && (forall j :: j in probs ==> probs[j] > 0.0) && RealSum(probs.Keys, At(probs)) == 1.0
    ensures probs[k] <= 1.0
  {
    RealSumPick(probs.Keys, At(probs), k);
    RealSumPositive(probs.Keys - {k}, At(probs));
  }

  /** What classify needs to know about softmax. */
  ghost predicate ProbabilitiesOf<K(!new)>(logProbs: map<K, real>, probs: map<K, real>) {
    && SameOrders(probs, logProbs)
    && (forall k :: k in probs ==> 0.0 < probs[k] <= 1.0)
    && (probs != map[] ==> RealSum(probs.Keys, At(probs)) == 1.0)
  }

  /** The values of softmax are probabilities, ordered like the scores. */
  lemma SoftmaxIsDistribution<K(!new)>(logProbs: map<K, real>, probs: map<K, real>, m: real, exp: real -> real)
    requires Exponential(exp) && IsSoftmax(logProbs, probs, m, exp)
    ensures ProbabilitiesOf(logProbs, probs)
  {
    SoftmaxKeepsOrder(logProbs, probs, m, exp);
    SoftmaxAddsUp(logProbs, probs, m, exp);
    assert probs.Keys == logProbs.Keys;
    hide IsSoftmax, RealSum, Exponential;
    forall k | k in probs
      ensures probs[k] <= 1.0
    {
      AtMostOne(probs, k);
    }
  }

  lemma NoProbabilities<K(!new)>(logProbs: map<K, real>)
    requires logProbs == map[]
    ensures ProbabilitiesOf(logProbs, logProbs)
  {
  }

  /** classify: a class with the highest score, and whether it is the only one. */
  method Classify<T(==,!new)>(t: Tables<T>, tokens: seq<T>, log: real -> real, exp: real -> real)
    returns (bestClass: Option<SpamClass>, percent: real, certain: bool)
    requires Scorable(t) && Exponential(exp)
    ensures bestClass.None? <==> Scores(t, tokens, log) == map[]
    ensures bestClass.Some? ==> bestClass.value in Scores(t, tokens, log)
    ensures bestClass.Some? ==> Largest(Scores(t, tokens, log), Scores(t, tokens, log)[bestClass.value])
    ensures certain <==> HasWinner(Scores(t, tokens, log))
    ensures bestClass.Some? ==> 0.0 < percent <= 100.0
    ensures percent == if bestClass.Some? then Share(Scores(t, tokens, log), bestClass.value, exp) * 100.0 else 0.0
  {
    hide Scores, Exponential, RealSum, Scorable, IsSoftmax, HasWinner, Largest, SameOrders, Share;
    var posterior := PosteriorProbabilities(t, tokens, log);
    var probabilities := Softmax(posterior, exp);
    if posterior == map[] {
      NoProbabilities(posterior);
    } else {
      ghost var m :| IsSoftmax(posterior, probabilities, m, exp);
      SoftmaxIsDistribution(posterior, probabilities, m, exp);
      SoftmaxIsShare(posterior, probabilities, m, exp);
    }
    var highestProb: real;
    bestClass, highestProb, certain := FindBest(probabilities);
    SameKeys(probabilities, posterior);
    WinnersAgree(probabilities, posterior);
    if bestClass.Some? {
      LargestAgrees(probabilities, posterior, bestClass.value);
    }
    percent := highestProb * 100.0;
  }

  lemma SameKeys<K(!new)>(a: map<K, real>, b: map<K, real>)
    requires SameOrders(a, b)
    ensures a.Keys == b.Keys && (a == map[] <==> b == map[])
  {
    assert a == map[] <==> a.Keys == {};
    assert b == map[] <==> b.Keys == {};
  }

  /** isSpamClassified: spam exactly when it outscores ham and its own share is large enough. */
  method IsSpamClassified<T(==,!new)>(
    t: Tables<T>, tokens: seq<T>, minSpamProbability: real, log: real -> real, exp: real -> real)
    returns (isSpam: bool, prob: real)
    requires Scorable(t) && Exponential(exp)
    ensures isSpam <==>
      && ClassSpam in Scores(t, tokens, log)
      && (ClassHam in Scores(t, tokens, log) ==> Scores(t, tokens, log)[ClassHam] < Scores(t, tokens, log)[ClassSpam])
      && (minSpamProbability == 0.0 || Share(Scores(t, tokens, log), ClassSpam, exp) * 100.0 >= minSpamProbability)
    ensures isSpam ==> prob == Share(Scores(t, tokens, log), ClassSpam, exp) * 100.0
    ensures var scores := Scores(t, tokens, log);
      if scores == map[] then prob == 0.0
      else exists c :: c in scores && Largest(scores, scores[c]) && prob == Share(scores, c, exp) * 100.0
  {
    hide Scores, Scorable, Exponential, Share;
    var bestClass, percent, certain := Classify(t, tokens, log, exp);
    isSpam := bestClass == Some(ClassSpam) && certain && (minSpamProbability == 0.0 || percent >= minSpamProbability);
    prob := percent;
    SpamWins(Scores(t, tokens, log), bestClass, certain);
  }

  lemma SpamWins(m: map<SpamClass, real>, bestClass: Option<SpamClass>, certain: bool)
    requires bestClass.None? <==> m == map[]
    requires bestClass.Some? ==> bestClass.value in m && Largest(m, m[bestClass.value])
    requires certain <==> HasWinner(m)
    ensures bestClass == Some(ClassSpam) && certain <==>
      ClassSpam in m && (ClassHam in m ==> m[ClassHam] < m[ClassSpam])
  {
    if ClassSpam in m && (ClassHam in m ==> m[ClassHam] < m[ClassSpam]) {
      forall j | j in m && j != ClassSpam
        ensures m[j] < m[ClassSpam]
      {
        assert j == ClassHam;
      }
      assert Winner(m, ClassSpam);
      assert m[bestClass.value] >= m[ClassSpam];
    }
    if certain {
      var c :| c in m && Winner(m, c);
      assert m[bestClass.value] >= m[c];
    }
  }

  // ---- the smoothed estimates ----

  /** Every token of the documents is in `vocabulary`. */
  ghost predicate Covers<T(!new)>(vocabulary: set<T>, docs: seq<Document<T>>) {
    docs != [] ==> TokenSet(Last(docs)) <= vocabulary && Covers(vocabulary, Init(docs))
  }

  lemma {:induction false} VocabularyCovers<T(!new)>(vocabulary: set<T>, docs: seq<Document<T>>)
    requires forall k, c :: TokenCount(docs, k, c) > 0 ==> k in vocabulary
    ensures Covers(vocabulary, docs)
  {
    if docs != [] {
      forall k, c | TokenCount(Init(docs), k, c) > 0
        ensures k in vocabulary
      {
        assert TokenCount(docs, k, c) > 0;
      }
      VocabularyCovers(vocabulary, Init(docs));
      forall k | k in TokenSet(Last(docs))
        ensures k in vocabulary
      {
        assert TokenCount(docs, k, Last(docs).spamClass) > 0;
      }
    }
  }

  ghost function Occurrences<T(!new)>(docs: seq<Document<T>>, c: SpamClass): T -> int {
    k => TokenCount(docs, k, c)
  }

  ghost function OneIf<T(!new)>(s: set<T>): T -> int {
    k => if k in s then 1 else 0
  }

  lemma {:induction false} SumOfOnes<T(!new)>(s: set<T>)
    ensures Sum(s, OneIf(s)) == |s|
    decreases |s|
  {
    if s != {} {
      var k :| k in s;
      SumPick(s, OneIf(s), k);
      SumOfOnes(s - {k});
      SumSame(s - {k}, OneIf(s), OneIf(s - {k}));
    }
  }

  lemma {:induction false} SumOfSums<T(!new)>(s: set<T>, f: T -> int, g: T -> int, h: T -> int)
    requires forall k :: k in s ==> h(k) == f(k) + g(k)
    ensures Sum(s, h) == Sum(s, f) + Sum(s, g)
    decreases |s|
  {
    if s != {} {
      var k :| k in s;
      SumPick(s, f, k);
      SumPick(s, g, k);
      SumPick(s, h, k);
      SumOfSums(s - {k}, f, g, h);
    }
  }

  /** Counting the documents of a token, over all tokens, is counting the tokens of a document,
      over all documents. */
  lemma {:induction false} CountedTwice<T(!new)>(vocabulary: set<T>, docs: seq<Document<T>>, c: SpamClass)
    requires Covers(vocabulary, docs)
    ensures Sum(vocabulary, Occurrences(docs, c)) == FreqCount(docs, c)
  {
    if docs == [] {
      SumNonNegative(vocabulary, Occurrences(docs, c));
    } else {
      CountedTwice(vocabulary, Init(docs), c);
      var own := if Last(docs).spamClass == c then TokenSet(Last(docs)) else {};
      SumOfSums(vocabulary, Occurrences(Init(docs), c), OneIf(own), Occurrences(docs, c));
      SumSupport(vocabulary, own, OneIf(own));
      SumOfOnes(own);
    }
  }

  ghost function Smoothed<T(!new)>(t: Tables<T>, c: SpamClass): T -> int {
    k => ReadToken(t.tok, k, c) + 1
  }

  /** Over the vocabulary, the smoothed counts of a class add up to the common denominator of its
      estimates: the estimates form a distribution. */
  lemma SmoothedSum<T(!new)>(t: Tables<T>, docs: seq<Document<T>>, c: SpamClass)
    requires Represents(t, docs)
    ensures Sum(t.tok.Keys, Smoothed(t, c)) == Read(t.freq, c) + |t.tok|
  {
    var vocabulary := t.tok.Keys;
    forall k, d | TokenCount(docs, k, d) > 0
      ensures k in vocabulary
    {
      assert ReadToken(t.tok, k, d) > 0;
    }
    VocabularyCovers(vocabulary, docs);
    CountedTwice(vocabulary, docs, c);
    SumOfOnes(vocabulary);
    SumOfSums(vocabulary, Occurrences(docs, c), OneIf(vocabulary), Smoothed(t, c));
    assert |t.tok| == |vocabulary|;
  }

  /** With a vocabulary, the estimate of any token, known or not, is in (0,1]; without one, the
      denominators are zero. */
  lemma EstimatesInUnit<T(!new)>(t: Tables<T>, docs: seq<Document<T>>, c: SpamClass)
    requires Represents(t, docs)
    ensures Read(t.freq, c) + |t.tok| > 0 <==> t.tok != map[]
    ensures t.tok != map[] ==> forall k :: 0 < ReadToken(t.tok, k, c) + 1 <= Read(t.freq, c) + |t.tok|
  {
    SmoothedSum(t, docs, c);
    SumNonNegative(t.tok.Keys, Smoothed(t, c));
    if t.tok == map[] {
      assert t.tok.Keys == {};
    } else {
      forall k
        ensures 0 < ReadToken(t.tok, k, c) + 1 <= Read(t.freq, c) + |t.tok|
      {
        assert ReadToken(t.tok, k, c) == TokenCount(docs, k, c);
        if k in t.tok {
          SumPick(t.tok.Keys, Smoothed(t, c), k);
          SumNonNegative(t.tok.Keys - {k}, Smoothed(t, c));
        }
      }
    }
  }

  /** Tables without negative counts can be scored exactly when no prior divides by zero and there is
      a vocabulary, or else no frequency of 0; tables that represent documents, when there is a
      vocabulary, or else no frequency at all. */
  lemma ScorableExactly<T(!new)>(t: Tables<T>)
    requires NonNegative(t)
    ensures Scorable(t) <==> PriorsDefined(t) && (t.tok != map[] || forall c :: c in t.freq ==> t.freq[c] > 0)
    ensures forall docs :: Represents(t, docs) ==>
      (Scorable(t) <==> PriorsDefined(t) && (t.tok != map[] || t.freq == map[]))
  {
    hide ReadToken;
    forall c | c in t.freq
      ensures t.freq[c] >= 0
    {
      assert Read(t.freq, c) >= 0;
    }
    forall docs | Represents(t, docs)
      ensures t.tok != map[] || forall c :: c in t.freq ==> t.freq[c] == 0
    {
      if t.tok == map[] {
        forall c | c in t.freq
          ensures t.freq[c] == 0
        {
          NoFrequency(t, docs, c);
        }
      }
    }
  }

  lemma NoFrequency<T(!new)>(t: Tables<T>, docs: seq<Document<T>>, c: SpamClass)
    requires Represents(t, docs) && t.tok == map[] && c in t.freq
    ensures t.freq[c] == 0
  {
    EstimatesInUnit(t, docs, c);
    assert t.freq[c] == Read(t.freq, c) >= 0;
  }

  // ---- the scores, read off the documents ----

  /** The different tokens of the documents. */
  ghost function Vocabulary<T(!new)>(docs: seq<Document<T>>): set<T> {
    set i: nat, k | i < |docs| && k in docs[i].tokens :: k
  }

  lemma VocabularyKnown<T(!new)>(t: Tables<T>, docs: seq<Document<T>>)
    requires Represents(t, docs)
    ensures t.tok.Keys == Vocabulary(docs) && |t.tok| == |Vocabulary(docs)|
  {
    forall k
      ensures k in t.tok <==> k in Vocabulary(docs)
    {
      if k in t.tok {
        TokenSeen(t, docs, k);
      }
      if k in Vocabulary(docs) {
        var i: nat :| i < |docs| && k in docs[i].tokens;
        TokenKnown(t, docs, i, k);
      }
    }
    assert |t.tok| == |t.tok.Keys|;
  }

  lemma TokenSeen<T(!new)>(t: Tables<T>, docs: seq<Document<T>>, k: T)
    requires Represents(t, docs) && k in t.tok
    ensures k in Vocabulary(docs)
  {
    var c :| c in t.tok[k];
    assert ReadToken(t.tok, k, c) == TokenCount(docs, k, c) > 0;
    hide TokenCount, Represents;
    DocumentsCounted(docs, k, c);
    var at := set i: nat | i < |docs| && docs[i].spamClass == c && k in docs[i].tokens;
    var i :| i in at;
  }

  lemma TokenKnown<T(!new)>(t: Tables<T>, docs: seq<Document<T>>, i: nat, k: T)
    requires Represents(t, docs) && i < |docs| && k in docs[i].tokens
    ensures k in t.tok
  {
    var c := docs[i].spamClass;
    DocumentsCounted(docs, k, c);
    var at := set j: nat | j < |docs| && docs[j].spamClass == c && k in docs[j].tokens;
    assert i in at;
    assert ReadToken(t.tok, k, c) == TokenCount(docs, k, c) > 0;
  }

  /** With fresh priors the scores are those of the textbook. A class that has documents, and no
      other, gets the logarithm of its share of the documents; if it has an entry for its frequency,
      as it has when it has tokens, it also gets, for each different token, the logarithm `f` of that
      token's smoothed share of the class. */
  lemma ScoresExactly<T(!new)>(
    t: Tables<T>, docs: seq<Document<T>>, tokens: seq<T>, c: SpamClass, log: real -> real, f: T -> real)
    requires Represents(t, docs) && PriorsFresh(t) && Scorable(t)
    requires var size := FreqCount(docs, c) + |Vocabulary(docs)|;
      size > 0 ==> forall k :: k in tokens ==> f(k) == log((TokenCount(docs, k, c) + 1) as real / size as real)
    ensures FreqCount(docs, c) > 0 ==> c in t.freq
    ensures c in t.freq ==> FreqCount(docs, c) + |Vocabulary(docs)| > 0
    ensures c in Scores(t, tokens, log) <==> DocCount(docs, c) > 0
    ensures DocCount(docs, c) > 0 ==>
      Scores(t, tokens, log)[c] ==
        log(DocCount(docs, c) as real / |docs| as real) + if c in t.freq then RealSum((set k | k in tokens), f) else 0.0
  {
    hide Represents, DocCount, TokenCount, FreqCount, Vocabulary, RealSum, PriorsFresh, ReadToken;
    VocabularyKnown(t, docs);
    ClassKnown(t, docs, c);
    assert Elements(tokens) == (set k | k in tokens);
    if c in t.freq {
      EstimatesAre(t, docs, tokens, c, log, f);
    }
  }

  lemma EstimatesAre<T(!new)>(
    t: Tables<T>, docs: seq<Document<T>>, tokens: seq<T>, c: SpamClass, log: real -> real, f: T -> real)
    requires Read(t.freq, c) + |t.tok| > 0 && Read(t.freq, c) == FreqCount(docs, c) && |t.tok| == |Vocabulary(docs)|
    requires forall k :: ReadToken(t.tok, k, c) == TokenCount(docs, k, c)
    requires var size := FreqCount(docs, c) + |Vocabulary(docs)|;
      size > 0 ==> forall k :: k in tokens ==> f(k) == log((TokenCount(docs, k, c) + 1) as real / size as real)
    ensures RealSum(Elements(tokens), LogEstimates(t, c, log)) == RealSum(Elements(tokens), f)
  {
    hide DocCount, TokenCount, FreqCount, Vocabulary, RealSum, ReadToken, Read;
    forall k | k in Elements(tokens)
      ensures LogEstimates(t, c, log)(k) == f(k)
    {
      assert k in tokens && ReadToken(t.tok, k, c) == TokenCount(docs, k, c);
      assert LogEstimates(t, c, log)(k) == log(Estimate(t, k, c));
    }
    RealSumSame(Elements(tokens), LogEstimates(t, c, log), f);
  }

  /** What the tables hold of a class. */
  lemma ClassKnown<T(!new)>(t: Tables<T>, docs: seq<Document<T>>, c: SpamClass)
    requires Represents(t, docs) && PriorsFresh(t)
    ensures Read(t.freq, c) == FreqCount(docs, c) && forall k :: ReadToken(t.tok, k, c) == TokenCount(docs, k, c)
    ensures FreqCount(docs, c) > 0 ==> c in t.freq
    ensures c in t.prior <==> DocCount(docs, c) > 0
    ensures c in t.freq ==> c in t.prior
    ensures c in t.prior ==> t.prior[c] == Ratio(DocCount(docs, c), |docs|)
  {
    hide DocCount, TokenCount, FreqCount, ReadToken;
    assert Read(t.doc, c) == DocCount(docs, c);
    assert c in t.prior <==> c in t.prior.Keys;
  }

  /** Learning and a successful unlearning keep the priors defined, whatever documents they are. */
  lemma PriorsStayDefined<T(!new)>(before: Tables<T>, after: Tables<T>, docs: seq<Document<T>>)
    requires Canonical(after) && Balanced(before)
    requires
      || (Added(before, after, docs) && PriorsFresh(after))
      || (Removed(before, after, docs) && PriorsTouched(before, after, docs) && PriorsDefined(before))
    ensures PriorsDefined(after)
  {
    StaysBalanced(before, after, docs);
    hide Balanced, Added, Removed, DocCount, Canonical;
    forall c | c in after.prior
      ensures after.prior[c].den > 0
    {
      assert !PriorsFresh(after) ==> PriorTouched(before, after, docs, c);
      PriorIsKnown(after, c);
      ClassWithinAll(after, c);
    }
  }

  lemma PriorIsKnown<T(!new)>(t: Tables<T>, c: SpamClass)
    requires Canonical(t) && c in t.prior
    ensures c in t.doc
  {
    assert c in t.prior.Keys;
  }
}
