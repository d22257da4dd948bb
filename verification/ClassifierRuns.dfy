/** Runs of the classifier that reach the states in which it does not do what one expects of it. */
module ClassifierRuns {
  import opened Seqs
  import opened Sums
  import opened ClassifierSpec
  import opened Classification
  import opened Posteriors
  import opened Samples

  function Ham(tokens: seq<int>): Document<int> {
    Document(ClassHam, tokens)
  }

  function Spam(tokens: seq<int>): Document<int> {
    Document(ClassSpam, tokens)
  }

  // ---- a run that does what one expects ----

  /** A larger argument has a larger logarithm. */
  ghost predicate Logarithm(log: real -> real) {
    forall x, y :: 0.0 < x < y ==> log(x) < log(y)
  }

  /** What one spam and one ham, each with a token of its own, count. */
  lemma OneOfEach()
    ensures var docs := [Spam([0]), Ham([1])];
      && DocCount(docs, ClassSpam) == DocCount(docs, ClassHam) == 1
      && FreqCount(docs, ClassSpam) == FreqCount(docs, ClassHam) == 1
      && TokenCount(docs, 0, ClassSpam) == 1 && TokenCount(docs, 0, ClassHam) == 0
      && Vocabulary(docs) == {0, 1}
  {
    var docs := [Spam([0]), Ham([1])];
    OneDocument(Spam([0]));
    assert Init(docs) == [Spam([0])] && TokenSet(Spam([0])) == {0} && TokenSet(Ham([1])) == {1};
    forall f: Document<int> -> nat
      ensures Tally(docs, f) == f(Spam([0])) + f(Ham([1]))
    {
      assert Tally(docs, f) == Tally(Init(docs), f) + f(Last(docs));
    }
    assert 0 in docs[0].tokens && 1 in docs[1].tokens;
  }

  /** The scores of the spam's token: two of three against one of three. */
  lemma BuyScores(t: Tables<int>, log: real -> real)
    requires Represents(t, [Spam([0]), Ham([1])]) && PriorsFresh(t) && Scorable(t)
    ensures Scores(t, [0], log) ==
      map[ClassSpam := log(1.0 / 2.0) + log(2.0 / 3.0), ClassHam := log(1.0 / 2.0) + log(1.0 / 3.0)]
  {
    hide Represents, PriorsFresh, Scorable, Scores, DocCount, FreqCount, TokenCount, Vocabulary, RealSum;
    OneOfEach();
    BuyScore(t, ClassSpam, log, 2.0 / 3.0);
    BuyScore(t, ClassHam, log, 1.0 / 3.0);
    forall c | c in Scores(t, [0], log)
      ensures c == ClassSpam || c == ClassHam
    {
    }
  }

  lemma BuyScore(t: Tables<int>, c: SpamClass, log: real -> real, x: real)
    requires Represents(t, [Spam([0]), Ham([1])]) && PriorsFresh(t) && Scorable(t)
    requires x == (TokenCount([Spam([0]), Ham([1])], 0, c) + 1) as real / 3.0
    ensures c in Scores(t, [0], log) && Scores(t, [0], log)[c] == log(1.0 / 2.0) + log(x)
  {
    hide Represents, PriorsFresh, Scorable, Scores, DocCount, FreqCount, TokenCount, Vocabulary, RealSum;
    var f := (k: int) => log(x);
    OneOfEach();
    ScoresExactly(t, [Spam([0]), Ham([1])], [0], c, log, f);
    assert (set k | k in [0]) == {0};
    RealSumOfOne(0, f);
  }

  lemma LearnedIsScorable(t: Tables<int>)
    requires Represents(t, [Spam([0]), Ham([1])]) && PriorsFresh(t)
    ensures Scorable(t)
  {
    var docs := [Spam([0]), Ham([1])];
    OneOfEach();
    RepresentsMeans(t, docs);
    VocabularyKnown(t, docs);
    ClassKnown(t, docs, ClassSpam);
    ClassKnown(t, docs, ClassHam);
    hide Represents, PriorsFresh, DocCount, FreqCount, TokenCount, Vocabulary;
    assert 0 in t.tok.Keys;
    ScorableExactly(t);
  }

  /** The class with the larger score wins, with its share. */
  lemma LargerWins(scores: map<SpamClass, real>, exp: real -> real)
    requires Exponential(exp) && scores.Keys == {ClassSpam, ClassHam} && scores[ClassHam] < scores[ClassSpam]
    ensures HasWinner(scores) && forall c :: c in scores && Largest(scores, scores[c]) ==> c == ClassSpam
    ensures var e := exp(scores[ClassHam] - scores[ClassSpam]);
      exp(0.0) + e > 0.0 && Share(scores, ClassSpam, exp) == exp(0.0) / (exp(0.0) + e)
  {
    hide Share, RealSum, Exponential;
    assert ClassSpam in scores.Keys && ClassHam in scores.Keys;
    assert Winner(scores, ClassSpam);
    assert Largest(scores, scores[ClassSpam]);
    ShareOfTwo(scores, ClassSpam, ClassHam, scores[ClassSpam], exp);
  }

  /** The spam 0 and the ham 1 learned, and 0 checked: spam for certain, and with a probability that
      only the two scores determine. */
  method BuyIsSpamRun(log: real -> real, exp: real -> real)
    returns (bestClass: Option<SpamClass>, percent: real, certain: bool, isSpam: bool, prob: real)
    requires Logarithm(log) && Exponential(exp)
    ensures bestClass == Some(ClassSpam) && certain && isSpam && prob == percent
    ensures var e := exp(log(1.0 / 3.0) - log(2.0 / 3.0));
      exp(0.0) + e > 0.0 && percent == exp(0.0) / (exp(0.0) + e) * 100.0
  {
    hide Represents, PriorsFresh, Scorable, Scores, Share, NonNegative, EntriesOnlyWhenLearned, Exponential;
    hide HasWinner, Largest, Logarithm;
    var cls := Learned([Spam([0]), Ham([1])]);
    LearnedIsScorable(cls.Snapshot());
    BuyScores(cls.Snapshot(), log);
    LogRises(log);
    LargerWins(Scores(cls.Snapshot(), [0], log), exp);
    bestClass, percent, certain := Classify(cls.Snapshot(), [0], log, exp);
    isSpam, prob := IsSpamClassified(cls.Snapshot(), [0], 0.0, log, exp);
  }

  lemma LogRises(log: real -> real)
    requires Logarithm(log)
    ensures log(1.0 / 3.0) < log(2.0 / 3.0)
  {
    assert 0.0 < 1.0 / 3.0 < 2.0 / 3.0;
  }

  // ---- runs that do not ----

  /** No frequency has an entry of 0, as long as nothing was unlearned. */
  ghost predicate EntriesOnlyWhenLearned(t: Tables<int>) {
    forall c :: c in t.freq ==> t.freq[c] > 0
  }

  lemma LearnedEntries(before: Tables<int>, after: Tables<int>, docs: seq<Document<int>>)
    requires Added(before, after, docs) && before.freq == map[]
    ensures EntriesOnlyWhenLearned(after)
  {
    forall c | c in after.freq
      ensures after.freq[c] > 0
    {
      assert Read(after.freq, c) == FreqCount(docs, c);
    }
  }

  /** A classifier that has just learned these documents. */
  method Learned(docs: seq<Document<int>>) returns (cls: Classifier<int>)
    ensures fresh(cls) && Represents(cls.Snapshot(), docs) && PriorsFresh(cls.Snapshot())
    ensures NonNegative(cls.Snapshot()) && EntriesOnlyWhenLearned(cls.Snapshot())
  {
    cls := new Classifier();
    ghost var before := cls.Snapshot();
    RepresentsMeans(before, []);
    assert before.freq == map[];
    hide Represents, Added, Canonical, PriorsFresh, NonNegative;
    cls.Learn(docs);
    LearnRemembers(before, cls.Snapshot(), docs);
    LearnedEntries(before, cls.Snapshot(), docs);
    assert [] + docs == docs;
  }

  /** One ham and one spam learned, the ham unlearned: the prior of spam is still 1/2. */
  method StalePriorsRun() returns (cls: Classifier<int>)
    ensures Represents(cls.Snapshot(), [Spam([1])]) && !PriorsFresh(cls.Snapshot())
    ensures ClassSpam in cls.priorProbabilities && cls.priorProbabilities[ClassSpam] == Ratio(1, 2)
  {
    var ham, spam := Ham([0]), Spam([1]);
    cls := Learned([ham, spam]);
    ghost var before := cls.Snapshot();
    assert multiset([spam]) + multiset([ham]) == multiset([ham, spam]);
    LearnedCanBeUnlearned(before, [ham, spam], [ham], [spam]);
    var err := cls.Unlearn([ham]);
    ghost var after := cls.Snapshot();
    UnlearnRepresents(before, after, [ham, spam], [ham], [spam]);
    OneDocument(ham);
    OneDocument(spam);
    PartsAddUp([ham, spam], [ham], [spam]);
    StalePriors(before, after, [ham]);
    assert DocCount([ham], ClassSpam) == 0 && DocCount([spam], ClassSpam) == 1;
    assert Read(after.doc, ClassSpam) == 1 && Read(before.doc, ClassSpam) == 1;
    assert PriorTouched(before, after, [ham], ClassSpam);
  }

  /** A ham learned, another one with a different token unlearned: that fails, but the ham learned
      has lost its document, and the tables stand for no documents at all. */
  method FailedUnlearnRun() returns (cls: Classifier<int>, err: Option<Error<int>>)
    ensures err.Some? && err != Some(TooManyDocuments)
    ensures cls.nAllDocument == 0 && Read(cls.nDocumentByClass, ClassHam) == 0
    ensures ReadToken(cls.learningResults, 0, ClassHam) == 1
    ensures forall docs :: !Represents(cls.Snapshot(), docs)
  {
    var ham, other := Ham([0]), Ham([1]);
    cls := Learned([ham]);
    ghost var before := cls.Snapshot();
    OneDocument(ham);
    OneDocument(other);
    assert TokenCount([ham], 1, ClassHam) == 0 && TokenCount([other], 1, ClassHam) == 1;
    assert TokenCount([ham], 0, ClassHam) == 1 && DocCount([ham], ClassHam) == 1;
    err := cls.Unlearn([other]);
    assert err != Some(TooManyDocuments);
    forall docs
      ensures !Represents(cls.Snapshot(), docs)
    {
      if Represents(cls.Snapshot(), docs) {
      }
    }
  }

  /** A ham with two tokens learned, one with the first of them unlearned: that succeeds, and the
      second token stays behind in tables of no documents. */
  method CoincidenceRun() returns (cls: Classifier<int>, err: Option<Error<int>>)
    ensures err == None && cls.nAllDocument == 0 && ReadToken(cls.learningResults, 1, ClassHam) == 1
  {
    var ham, part := Ham([0, 1]), Ham([0]);
    cls := Learned([ham]);
    ghost var before := cls.Snapshot();
    UnlearnedByCoincidence(before);
    OneDocument(ham);
    OneDocument(part);
    assert TokenCount([ham], 1, ClassHam) == 1 && TokenCount([part], 1, ClassHam) == 0;
    err := cls.Unlearn([part]);
  }

  /** Two hams learned, and two unlearned, the second one in vain: the first one of them has left the
      prior log(1/0), and the tables, with a vocabulary, cannot be scored. */
  method InfinitePriorRun() returns (cls: Classifier<int>, err: Option<Error<int>>)
    ensures err.Some? && cls.learningResults != map[] && !Scorable(cls.Snapshot())
    ensures ClassHam in cls.priorProbabilities && cls.priorProbabilities[ClassHam] == Ratio(1, 0)
  {
    var known, docs := [Ham([0]), Ham([1])], [Ham([0]), Ham([2])];
    cls := Learned(known);
    ghost var before := cls.Snapshot();
    TwoHams(0, 1);
    TwoHams(0, 2);
    TwoHamsHave(before);
    hide Represents, Canonical, PriorsFresh, NonNegative, CanUnlearn, FailedAt, Scorable, PriorsTouched;
    RepresentsMeans(before, known);
    err := cls.Unlearn(docs);
    assert before.n == 2;
    FirstHamGone(before, cls.Snapshot());
  }

  /** What two hams with one token each count. */
  lemma TwoHams(j: int, k: int)
    requires j != k
    ensures var docs := [Ham([j]), Ham([k])];
      && DocCount(docs, ClassHam) == FreqCount(docs, ClassHam) == 2
      && TokenCount(docs, j, ClassHam) == TokenCount(docs, k, ClassHam) == 1
      && forall i :: i != j && i != k ==> TokenCount(docs, i, ClassHam) == 0
  {
    var docs := [Ham([j]), Ham([k])];
    OneDocument(Ham([j]));
    assert Init(docs) == [Ham([j])] && TokenSet(Ham([j])) == {j} && TokenSet(Ham([k])) == {k};
    forall f: Document<int> -> nat
      ensures Tally(docs, f) == f(Ham([j])) + f(Ham([k]))
    {
      assert Tally(docs, f) == Tally(Init(docs), f) + f(Last(docs));
    }
  }

  /** The tables of the hams with the tokens 0 and 1 can spare the first, but not one with 2. */
  lemma TwoHamsHave(t: Tables<int>)
    requires Represents(t, [Ham([0]), Ham([1])])
    ensures t.n == 2 && Read(t.doc, ClassHam) == 2 && Read(t.freq, ClassHam) == 2
    ensures ReadToken(t.tok, 0, ClassHam) == ReadToken(t.tok, 1, ClassHam) == 1
    ensures CanUnlearnOne(t, Ham([0])) && !CanUnlearn(t, [Ham([0]), Ham([2])])
  {
    TwoHams(0, 1);
    TwoHams(0, 2);
    hide Tally;
    assert TokenSet(Ham([0])) == {0};
    assert ReadToken(t.tok, 2, ClassHam) == 0;
  }

  /** What can be unlearned from the start is what the first round takes away. */
  lemma FirstRoundCan(before: Tables<int>, t: Tables<int>, docs: seq<Document<int>>)
    requires docs != [] && Underway(before, t, docs, 0) && CanUnlearnOne(before, docs[0])
    ensures CanUnlearnOne(t, docs[0])
  {
    assert docs[..0] == [];
    assert forall c :: DocCount<int>([], c) == FreqCount<int>([], c) == 0;
    assert forall k, c :: TokenCount<int>([], k, c) == 0;
    hide NonNegative, CanUnlearn, PriorsTouched, CountsCanonical, Canonical, DocCount, FreqCount, TokenCount;
  }

  /** So another round is the one that fails. */
  lemma LaterRoundFails(before: Tables<int>, t: Tables<int>, docs: seq<Document<int>>, i: nat)
    requires i < |docs| && Underway(before, t, docs, i) && !CanUnlearnOne(t, docs[i])
    ensures CanUnlearnOne(before, docs[0]) ==> i != 0
  {
    hide Underway, CanUnlearnOne;
    if CanUnlearnOne(before, docs[0]) && i == 0 {
      FirstRoundCan(before, t, docs);
    }
  }

  /** The tables after the first round, if they had two hams, one of them with the token 1. */
  lemma AfterFirstRound(before: Tables<int>, t: Tables<int>, docs: seq<Document<int>>)
    requires |docs| == 2 && docs[0] == Ham([0]) && Underway(before, t, docs, 1) && Canonical(before) && before.n == 2
    requires Read(before.doc, ClassHam) == 2 && ReadToken(before.tok, 1, ClassHam) == 1
    ensures ClassHam in t.prior && t.prior[ClassHam] == Ratio(1, 0)
    ensures Read(t.doc, ClassHam) == 1 && ReadToken(t.tok, 1, ClassHam) == 1
  {
    assert docs[..1] == [Ham([0])];
    OneDocument(Ham([0]));
    assert DocCount([Ham([0])], ClassHam) == 1 && TokenCount([Ham([0])], 1, ClassHam) == 0;
    hide NonNegative, CanUnlearn, CountsCanonical, Canonical, DocCount, FreqCount, TokenCount, ReadToken;
    assert PriorTouched(before, t, [Ham([0])], ClassHam);
  }

  /** The failure cannot have been that of the first ham. */
  lemma FirstHamGone(before: Tables<int>, after: Tables<int>)
    requires FailedAt(before, after, [Ham([0]), Ham([2])]) && Canonical(before) && before.n == 2
    requires CanUnlearnOne(before, Ham([0])) && Read(before.doc, ClassHam) == 2
    requires ReadToken(before.tok, 1, ClassHam) == 1
    ensures ClassHam in after.prior && after.prior[ClassHam] == Ratio(1, 0)
    ensures after.tok != map[] && !Scorable(after)
  {
    hide Canonical, Underway, CanUnlearnOne, PartlyUncounted, Read, ReadToken;
    var docs := [Ham([0]), Ham([2])];
    var i: nat, t: Tables<int> :|
      i < |docs| && Underway(before, t, docs, i) && !CanUnlearnOne(t, docs[i]) && FailedOne(t, after, docs[i]);
    LaterRoundFails(before, t, docs, i);
    AfterFirstRound(before, t, docs);
    OtherTokenStays(t, after);
    assert after.prior[ClassHam].den == 0;
  }

  lemma OtherTokenStays(t: Tables<int>, after: Tables<int>)
    requires PartlyUncounted(t, after, Ham([2])) && ReadToken(t.tok, 1, ClassHam) == 1
    ensures after.tok != map[]
  {
    hide TokCanonical, FreqChanged;
    var done: set<int>, taken: nat :| UncountedBut(t, after, Ham([2]), done, taken);
    assert TokenSet(Ham([2])) == {2} && 1 !in done;
    assert ReadToken(after.tok, 1, ClassHam) == 1;
  }

  /** A ham without tokens learned, then another one learned and unlearned: the class keeps a
      frequency entry of 0 that was not there before, there is no vocabulary, and classify would
      divide by zero. */
  method ZeroDenominatorRun() returns (cls: Classifier<int>, start: map<SpamClass, int>)
    ensures start == map[] && cls.nFrequencyByClass == map[ClassHam := 0]
    ensures Represents(cls.Snapshot(), [Ham([])]) && !Scorable(cls.Snapshot())
  {
    var ham, empty := Ham([0]), Ham([]);
    cls := Learned([empty]);
    start := cls.nFrequencyByClass;
    ghost var t0 := cls.Snapshot();
    cls.Learn([ham]);
    ghost var t1 := cls.Snapshot();
    hide Canonical, Added, Removed, CanUnlearn, PriorsFresh, PriorsTouched, NonNegative, Scorable;
    hide EntriesOnlyWhenLearned;
    LearnRepresents(t0, t1, [empty], [ham]);
    assert [empty] + [ham] == [empty, ham];
    assert multiset([empty]) + multiset([ham]) == multiset([empty, ham]);
    LearnedCanBeUnlearned(t1, [empty, ham], [ham], [empty]);
    var err := cls.Unlearn([ham]);
    ghost var t2 := cls.Snapshot();
    UnlearnRepresents(t1, t2, [empty, ham], [ham], [empty]);
    ZeroEntry(t0, t1, t2);
    NoVocabulary(t2, empty);
    NotScorable(t2);
  }

  lemma NotScorable(t: Tables<int>)
    requires t.freq == map[ClassHam := 0] && t.tok == map[]
    ensures !Scorable(t)
  {
    assert ClassHam in t.freq && t.freq[ClassHam] + |t.tok| == 0;
  }

  /** What one ham with a token, and one without, count for a class. */
  lemma HamCounts(c: SpamClass)
    ensures FreqCount([Ham([0])], c) == DocCount([Ham([0])], c) == if c == ClassHam then 1 else 0
    ensures FreqCount([Ham([])], c) == 0 && DocCount([Ham([])], c) == if c == ClassHam then 1 else 0
  {
    OneDocument(Ham([0]));
    OneDocument(Ham([]));
    assert TokenSet(Ham([0])) == {0} && TokenSet(Ham([])) == {};
  }

  lemma ZeroEntryOf(t0: Tables<int>, t1: Tables<int>, t2: Tables<int>, c: SpamClass)
    requires Represents(t0, [Ham([])]) && Added(t0, t1, [Ham([0])]) && Removed(t1, t2, [Ham([0])])
    requires EntriesOnlyWhenLearned(t0)
    ensures c !in t0.freq && (c in t2.freq <==> c == ClassHam) && Read(t2.freq, c) == 0
  {
    HamCounts(c);
    hide FreqCount, DocCount, TokenCount, ReadToken, Canonical;
    assert Read(t0.freq, c) == 0 && Read(t1.doc, c) == Read(t0.doc, c) + DocCount([Ham([0])], c);
  }

  lemma ZeroEntry(t0: Tables<int>, t1: Tables<int>, t2: Tables<int>)
    requires Represents(t0, [Ham([])]) && Added(t0, t1, [Ham([0])]) && Removed(t1, t2, [Ham([0])])
    requires EntriesOnlyWhenLearned(t0)
    ensures t0.freq == map[] && t2.freq == map[ClassHam := 0]
  {
    hide Represents, Added, Removed, EntriesOnlyWhenLearned;
    forall c
      ensures c !in t0.freq && (c in t2.freq <==> c == ClassHam) && Read(t2.freq, c) == 0
    {
      ZeroEntryOf(t0, t1, t2, c);
    }
  }

  lemma SomeToken(t: Tables<int>, k: int) returns (c: SpamClass)
    requires Canonical(t) && k in t.tok
    ensures ReadToken(t.tok, k, c) > 0
  {
    c :| c in t.tok[k];
  }

  lemma NoVocabulary(t: Tables<int>, empty: Document<int>)
    requires Represents(t, [empty]) && empty == Ham([])
    ensures t.tok == map[]
  {
    OneDocument(empty);
    assert forall k, c :: TokenCount([empty], k, c) == 0;
    forall k
      ensures k !in t.tok
    {
      if k in t.tok {
        var c := SomeToken(t, k);
      }
    }
  }
}
