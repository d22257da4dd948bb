/** The sample operations of lib/tgspam/detector.go (updateSample, removeSample and LoadSamples),
    which keep the classifier and the sample stores in step. What a store answers is a parameter. */
module Samples {
  import opened Seqs
  import opened Sums
  import opened ClassifierSpec
  import opened Classification
  import opened Posteriors

  datatype Outcome<T> =
    | Done
    | NoStore
    | StoreFailed
    | CannotUnlearn(error: Error<T>)

  /** What buildDocs makes of the tokenized lines of a message. */
  function Docs<T(==)>(lines: seq<seq<T>>, sc: SpamClass): (docs: seq<Document<T>>)
    ensures |docs| == |lines|
  {
    seq(|lines|, i requires 0 <= i < |lines| => Document(sc, lines[i]))
  }

  method BuildDocs<T(==,!new)>(lines: seq<seq<T>>, sc: SpamClass) returns (docs: seq<Document<T>>)
    ensures docs == Docs(lines, sc)
  {
    docs := [];
    for i := 0 to |lines|
      invariant |docs| == i && forall j :: 0 <= j < i ==> docs[j] == Document(sc, lines[j])
    {
      docs := docs + [Document(sc, lines[i])];
    }
  }

  /** `docs` are among the documents that `t` represents, `rest` being the others. */
  ghost predicate Among<T(!new)>(
    t: Tables<T>, known: seq<Document<T>>, docs: seq<Document<T>>, rest: seq<Document<T>>) {
    Represents(t, known) && multiset(rest) + multiset(docs) == multiset(known)
  }

  /** `after` has the documents of `before` less `docs`, whatever these were. */
  ghost predicate Forgotten<T(!new)>(before: Tables<T>, after: Tables<T>, docs: seq<Document<T>>) {
    forall known, rest :: Among(before, known, docs, rest) ==> Represents(after, rest)
  }

  /** `after` has the documents of `before` and `docs`. */
  ghost predicate Remembered<T(!new)>(before: Tables<T>, after: Tables<T>, docs: seq<Document<T>>) {
    forall known :: Represents(before, known) ==> Represents(after, known + docs)
  }

  /** Whatever documents `before` represents with `docs` among them, `after` represents, too, and
      with the same counts. */
  ghost predicate Restored<T(!new)>(before: Tables<T>, after: Tables<T>, docs: seq<Document<T>>) {
    forall known, rest :: Among(before, known, docs, rest) ==> SameCounts(before, after) && Represents(after, known)
  }

  /** Frequency would be lost with the last documents of some class. */
  ghost predicate LosesFrequency<T(!new)>(t: Tables<T>, docs: seq<Document<T>>) {
    exists c :: Emptied(t, docs, c) && Read(t.freq, c) != FreqCount(docs, c)
  }

  lemma LearnRemembers<T(!new)>(before: Tables<T>, after: Tables<T>, docs: seq<Document<T>>)
    requires Added(before, after, docs) && (Canonical(before) ==> Canonical(after))
    ensures Remembered(before, after, docs)
  {
    forall known | Represents(before, known)
      ensures Represents(after, known + docs)
    {
      LearnRepresents(before, after, known, docs);
    }
  }

  lemma UnlearnForgets<T(!new)>(before: Tables<T>, after: Tables<T>, docs: seq<Document<T>>)
    requires Removed(before, after, docs) && (Canonical(before) ==> Canonical(after))
    ensures Forgotten(before, after, docs)
  {
    forall known, rest | Among(before, known, docs, rest)
      ensures Represents(after, rest)
    {
      UnlearnRepresents(before, after, known, docs, rest);
    }
  }

  lemma SameCountsRepresent<T(!new)>(a: Tables<T>, b: Tables<T>, known: seq<Document<T>>)
    requires Represents(a, known) && SameCounts(a, b) && Canonical(b)
    ensures Represents(b, known)
  {
  }

  /** Relearning after a failed removal restores the tables for documents that were really
      learned. */
  lemma RelearnRestores<T(!new)>(before: Tables<T>, between: Tables<T>, after: Tables<T>, docs: seq<Document<T>>)
    requires Removed(before, between, docs) && Added(between, after, docs)
    requires Canonical(before) ==> Canonical(between) && Canonical(after)
    ensures Restored(before, after, docs)
    ensures Canonical(before) ==> (SameCounts(before, after) <==> !LosesFrequency(before, docs))
  {
    hide Canonical, Added, Removed, SameCounts, Emptied, FreqCount;
    if Canonical(before) {
      RemoveThenAdd(before, between, after, docs);
    }
    forall known, rest | Among(before, known, docs, rest)
      ensures SameCounts(before, after) && Represents(after, known)
    {
      forall c
        ensures Emptied(before, docs, c) ==> Read(before.freq, c) == FreqCount(docs, c)
      {
        RemoveThenAddLearned(before, known, docs, rest, c);
      }
      SameCountsRepresent(before, after, known);
    }
  }

  /** No documents can always be unlearned. */
  lemma NothingIsUnlearned<T(!new)>(t: Tables<T>, docs: seq<Document<T>>)
    requires NonNegative(t) && !CanUnlearn(t, docs)
    ensures docs != []
  {
    NothingDone(t);
    hide CanUnlearn;
  }

  /** The lines of a reader, tokenized without the excluded tokens. */
  function Tokenized<T(==)>(
    lines: seq<string>, excluded: set<string>, tokenize: (string, set<string>) -> seq<T>): (r: seq<seq<T>>)
    ensures |r| == |lines|
  {
    seq(|lines|, i requires 0 <= i < |lines| => tokenize(lines[i], excluded))
  }

  /** The excluded tokens of a reader, in lower case. */
  function Lowered(lines: seq<string>, lower: string -> string): set<string> {
    set i | 0 <= i < |lines| :: lower(lines[i])
  }

  datatype LoadResult = LoadResult(excludedTokens: int, spamSamples: int, hamSamples: int)

  method TokenizeAll<T(==,!new)>(lines: seq<string>, excluded: set<string>, tokenize: (string, set<string>) -> seq<T>)
    returns (all: seq<seq<T>>)
    ensures all == Tokenized(lines, excluded, tokenize)
  {
    all := [];
    for i := 0 to |lines|
      invariant |all| == i && forall j :: 0 <= j < i ==> all[j] == tokenize(lines[j], excluded)
    {
      all := all + [tokenize(lines[i], excluded)];
    }
  }

  /** The samples that several detectors share. A reader is the sequence of its lines, trimmed and
      not empty; the tokenizer and the lower case of Unicode are parameters. */
  class SamplesModel<T(==,!new)> {
    const cls: Classifier<T>
    const tokenize: (string, set<string>) -> seq<T>
    const lower: string -> string
    var tokSpam: seq<seq<T>>
    var excluded: set<string>

    /** NewSamplesModel */
    constructor (tokenize: (string, set<string>) -> seq<T>, lower: string -> string)
      ensures fresh(cls) && Represents(cls.Snapshot(), []) && tokSpam == [] && excluded == {}
      ensures this.tokenize == tokenize && this.lower == lower
    {
      cls := new Classifier();
      this.tokenize, this.lower, tokSpam, excluded := tokenize, lower, [], {};
    }

    /** LoadSamples: whatever was there before, the classifier then holds the loaded samples,
        tokenized without the loaded exclusions. */
    method LoadSamples(exclLines: seq<string>, spamLines: seq<string>, hamLines: seq<string>) returns (lr: LoadResult)
      modifies this, cls
      ensures excluded == set i | 0 <= i < |exclLines| :: lower(exclLines[i])
      ensures tokSpam == Tokenized(spamLines, excluded, tokenize)
      ensures Represents(cls.Snapshot(),
        Docs(tokSpam, ClassSpam) + Docs(Tokenized(hamLines, excluded, tokenize), ClassHam))
      ensures PriorsFresh(cls.Snapshot())
      ensures lr == LoadResult(|Lowered(exclLines, lower)|, |spamLines|, |hamLines|)
    {
      tokSpam, excluded := [], {};
      cls.Reset();
      ghost var before := cls.Snapshot();
      for i := 0 to |exclLines|
        invariant excluded == Lowered(exclLines[..i], lower) && cls.Snapshot() == before
      {
        excluded := excluded + {lower(exclLines[i])};
      }
      assert exclLines[..|exclLines|] == exclLines;
      tokSpam := TokenizeAll(spamLines, excluded, tokenize);
      var spamDocs := BuildDocs(tokSpam, ClassSpam);
      var tokHam := TokenizeAll(hamLines, excluded, tokenize);
      var hamDocs := BuildDocs(tokHam, ClassHam);
      hide Represents, Docs, Added, PriorsFresh;
      assert Canonical(before) by { RepresentsMeans(before, []); }
      hide Canonical;
      cls.Learn(spamDocs + hamDocs);
      LearnRemembers(before, cls.Snapshot(), spamDocs + hamDocs);
      assert [] + (spamDocs + hamDocs) == spamDocs + hamDocs;
      lr := LoadResult(|excluded|, |spamDocs|, |hamDocs|);
    }

    /** updateSample for a message with the given lines, `whole` being all of it. */
    method UpdateSample(lines: seq<string>, whole: string, sc: SpamClass, hasStore: bool, appends: bool)
      returns (outcome: Outcome<T>)
      modifies this, cls
      ensures excluded == old(excluded)
      ensures outcome == if !hasStore then NoStore else if !appends then StoreFailed else Done
      ensures outcome != Done ==> cls.Snapshot() == old(cls.Snapshot()) && tokSpam == old(tokSpam)
      ensures var docs := Docs(Tokenized(lines, excluded, tokenize), sc);
        outcome == Done ==>
          && Added(old(cls.Snapshot()), cls.Snapshot(), docs) && Remembered(old(cls.Snapshot()), cls.Snapshot(), docs)
          && tokSpam == old(tokSpam) + if sc == ClassSpam then [tokenize(whole, excluded)] else []
      ensures old(NonNegative(cls.Snapshot())) ==> NonNegative(cls.Snapshot())
    {
      hide Added, Remembered, Docs, Tokenized, NonNegative, Canonical, PriorsFresh;
      if !hasStore {
        return NoStore;
      }
      if !appends {
        return StoreFailed;
      }
      var tokens := TokenizeAll(lines, excluded, tokenize);
      var docs := BuildDocs(tokens, sc);
      cls.Learn(docs);
      LearnRemembers(old(cls.Snapshot()), cls.Snapshot(), docs);
      if sc == ClassSpam {
        tokSpam := tokSpam + [tokenize(whole, excluded)];
      }
      return Done;
    }

    /** The documents of a message under the current exclusions. */
    function DocsOf(lines: seq<string>, sc: SpamClass): seq<Document<T>>
      reads this`excluded
    {
      Docs(Tokenized(lines, excluded, tokenize), sc)
    }

    /** removeSample: unlearn first, relearn when the store then fails. The samples kept for the
        similarity check stay as they are. */
    method RemoveSample(lines: seq<string>, sc: SpamClass, hasStore: bool, removes: bool) returns (outcome: Outcome<T>)
      requires NonNegative(cls.Snapshot())
      modifies cls
      ensures NonNegative(cls.Snapshot())
      ensures outcome == NoStore <==> !hasStore
      ensures outcome.CannotUnlearn? <==> hasStore && !old(CanUnlearn(cls.Snapshot(), DocsOf(lines, sc)))
      ensures outcome.CannotUnlearn? ==> (outcome.error == TooManyDocuments <==> |lines| > old(cls.nAllDocument))
      ensures outcome.CannotUnlearn? ==> (cls.Snapshot() == old(cls.Snapshot()) <==> |lines| > old(cls.nAllDocument))
      ensures outcome.CannotUnlearn? && |lines| <= old(cls.nAllDocument) ==>
        && cls.nAllDocument == old(cls.nAllDocument) - |lines|
        && FailedAt(old(cls.Snapshot()), cls.Snapshot(), DocsOf(lines, sc))
      ensures outcome == StoreFailed ==> !removes
      ensures outcome == Done ==> removes
      ensures outcome == NoStore ==> cls.Snapshot() == old(cls.Snapshot())
      ensures outcome == Done ==> Removed(old(cls.Snapshot()), cls.Snapshot(), DocsOf(lines, sc))
      ensures outcome == Done ==> Forgotten(old(cls.Snapshot()), cls.Snapshot(), DocsOf(lines, sc))
      ensures outcome == StoreFailed ==> Restored(old(cls.Snapshot()), cls.Snapshot(), DocsOf(lines, sc))
      ensures outcome == StoreFailed && old(Canonical(cls.Snapshot())) ==>
        && Canonical(cls.Snapshot()) && PriorsFresh(cls.Snapshot())
        && (SameCounts(old(cls.Snapshot()), cls.Snapshot()) <==>
          !old(LosesFrequency(cls.Snapshot(), DocsOf(lines, sc))))
    {
      hide Added, Removed, Docs, Tokenized, NonNegative, Canonical, PriorsFresh, SameCounts, LosesFrequency, CanUnlearn;
      hide PriorsTouched, Restored, Forgotten, FailedAt;
      if !hasStore {
        return NoStore;
      }
      var tokens := TokenizeAll(lines, excluded, tokenize);
      var docs := BuildDocs(tokens, sc);
      var err := cls.Unlearn(docs);
      if err.Some? {
        NothingIsUnlearned(old(cls.Snapshot()), docs);
        return CannotUnlearn(err.value);
      }
      ghost var between := cls.Snapshot();
      if !removes {
        cls.Learn(docs);
        RelearnRestores(old(cls.Snapshot()), between, cls.Snapshot(), docs);
        return StoreFailed;
      }
      UnlearnForgets(old(cls.Snapshot()), between, docs);
      return Done;
    }
  }

  lemma RepresentsMeans<T(!new)>(t: Tables<T>, docs: seq<Document<T>>)
    requires Represents(t, docs)
    ensures Canonical(t) && NonNegative(t)
  {
    hide Canonical;
    assert forall c :: Read(t.doc, c) == DocCount(docs, c) && Read(t.freq, c) == FreqCount(docs, c);
  }

  // ---- what was loaded ----

  lemma {:induction false} DocsOfClass<T(!new)>(lines: seq<seq<T>>, sc: SpamClass, c: SpamClass)
    ensures DocCount(Docs(lines, sc), c) == if c == sc then |lines| else 0
  {
    if lines != [] {
      DocsOfClass(Init(lines), sc, c);
      assert Init(Docs(lines, sc)) == Docs(Init(lines), sc);
      assert Last(Docs(lines, sc)) == Document(sc, Last(lines));
    }
  }

  lemma DocsCounted<T(!new)>(lines: seq<seq<T>>, sc: SpamClass, k: T, c: SpamClass)
    ensures DocCount(Docs(lines, sc), c) == if c == sc then |lines| else 0
    ensures TokenCount(Docs(lines, sc), k, c) == if c == sc then |set i: nat | i < |lines| && k in lines[i]| else 0
  {
    hide DocCount, TokenCount;
    var docs := Docs(lines, sc);
    DocsOfClass(lines, sc, c);
    DocumentsCounted(docs, k, c);
    var withToken := set i: nat | i < |docs| && docs[i].spamClass == c && k in docs[i].tokens;
    assert forall i: nat :: i < |docs| ==> docs[i] == Document(sc, lines[i]);
    assert withToken == if c == sc then set i: nat | i < |lines| && k in lines[i] else {};
  }

  /** After loading, the classifier has one document for each line of a class, and for each token as
      many of them as there are lines with that token, the loaded exclusions left out. */
  lemma LoadedCounts<T(!new)>(
    t: Tables<T>, spam: seq<string>, ham: seq<string>, excluded: set<string>,
    tokenize: (string, set<string>) -> seq<T>, k: T)
    requires Represents(t,
      Docs(Tokenized(spam, excluded, tokenize), ClassSpam) + Docs(Tokenized(ham, excluded, tokenize), ClassHam))
    ensures t.n == |spam| + |ham| && Read(t.doc, ClassSpam) == |spam| && Read(t.doc, ClassHam) == |ham|
    ensures ReadToken(t.tok, k, ClassSpam) == |set i: nat | i < |spam| && k in tokenize(spam[i], excluded)|
    ensures ReadToken(t.tok, k, ClassHam) == |set i: nat | i < |ham| && k in tokenize(ham[i], excluded)|
  {
    hide Docs, ReadToken;
    var spamLines, hamLines := Tokenized(spam, excluded, tokenize), Tokenized(ham, excluded, tokenize);
    forall c
      ensures var all := Docs(spamLines, ClassSpam) + Docs(hamLines, ClassHam);
        && DocCount(all, c) == (if c == ClassSpam then |spam| else |ham|)
        && TokenCount(all, k, c) ==
             if c == ClassSpam then |set i: nat | i < |spamLines| && k in spamLines[i]|
             else |set i: nat | i < |hamLines| && k in hamLines[i]|
    {
      TallyConcat(Docs(spamLines, ClassSpam), Docs(hamLines, ClassHam), IsOf(c));
      TallyConcat(Docs(spamLines, ClassSpam), Docs(hamLines, ClassHam), HasToken(k, c));
      DocsCounted(spamLines, ClassSpam, k, c);
      DocsCounted(hamLines, ClassHam, k, c);
    }
    assert (set i: nat | i < |spamLines| && k in spamLines[i]) ==
           (set i: nat | i < |spam| && k in tokenize(spam[i], excluded));
    assert (set i: nat | i < |hamLines| && k in hamLines[i]) ==
           (set i: nat | i < |ham| && k in tokenize(ham[i], excluded));
  }

  // ---- what can be unlearned ----

  /** A count is positive exactly when some document contributes to it. */
  lemma {:induction false} TallyPositive<T(!new)>(docs: seq<Document<T>>, f: Document<T> -> nat)
    ensures Tally(docs, f) > 0 <==> exists d :: d in docs && f(d) > 0
  {
    if docs != [] {
      TallyPositive(Init(docs), f);
      assert forall d :: d in docs <==> d in Init(docs) || d == Last(docs);
    }
  }

  lemma OneDocument<T(!new)>(doc: Document<T>)
    ensures forall f: Document<T> -> nat :: Tally([doc], f) == f(doc)
  {
    assert Init([doc]) == [];
    forall f: Document<T> -> nat
      ensures Tally([doc], f) == f(doc)
    {
      assert Tally([doc], f) == Tally(Init([doc]), f) + f(doc);
    }
  }

  /** Documents whose token counts are among those of other documents have no more frequency. */
  lemma FrequencyWithin<T(!new)>(known: seq<Document<T>>, docs: seq<Document<T>>, vocabulary: set<T>, c: SpamClass)
    requires Covers(vocabulary, known) && Covers(vocabulary, docs)
    requires forall k :: TokenCount(docs, k, c) <= TokenCount(known, k, c)
    ensures FreqCount(docs, c) <= FreqCount(known, c)
  {
    CountedTwice(vocabulary, known, c);
    CountedTwice(vocabulary, docs, c);
    hide Covers, FreqCount, TokenCount;
    SumAtMost(vocabulary, Occurrences(docs, c), Occurrences(known, c));
  }

  lemma KnownTokens<T(!new)>(t: Tables<T>, known: seq<Document<T>>)
    requires Represents(t, known)
    ensures forall k, c :: TokenCount(known, k, c) > 0 ==> k in t.tok.Keys
  {
    hide TokenCount, DocCount, FreqCount, Canonical;
    forall k, c | TokenCount(known, k, c) > 0
      ensures k in t.tok.Keys
    {
      assert ReadToken(t.tok, k, c) > 0;
    }
  }

  /** From tables of known documents, unlearning succeeds exactly when no class is asked for more
      documents, and no token of a class for more occurrences, than the known documents have: the
      frequencies and the number of all documents never stand in the way. */
  lemma UnlearnableExactly<T(!new)>(t: Tables<T>, known: seq<Document<T>>, docs: seq<Document<T>>)
    requires Represents(t, known)
    ensures CanUnlearn(t, docs) <==>
      && (forall c :: DocCount(docs, c) <= DocCount(known, c))
      && (forall k, c :: TokenCount(docs, k, c) <= TokenCount(known, k, c))
  {
    ClassesAddUp(docs);
    ClassesAddUp(known);
    KnownTokens(t, known);
    hide TokenCount, DocCount, FreqCount, Canonical, Covers;
    if forall k, c :: TokenCount(docs, k, c) <= TokenCount(known, k, c) {
      VocabularyCovers(t.tok.Keys, known);
      VocabularyCovers(t.tok.Keys, docs);
      forall c
        ensures FreqCount(docs, c) <= FreqCount(known, c)
      {
        FrequencyWithin(known, docs, t.tok.Keys, c);
      }
    }
    if CanUnlearn(t, docs) {
      forall c
        ensures DocCount(docs, c) <= DocCount(known, c)
      {
        assert DocCount(docs, c) <= Read(t.doc, c) == DocCount(known, c);
      }
      forall k, c
        ensures TokenCount(docs, k, c) <= TokenCount(known, k, c)
      {
        assert TokenCount(docs, k, c) <= ReadToken(t.tok, k, c) == TokenCount(known, k, c);
      }
    }
  }

  /** A known document of class `c` that has this token. */
  predicate Seen<T(==)>(known: seq<Document<T>>, token: T, c: SpamClass) {
    exists d :: d in known && d.spamClass == c && token in d.tokens
  }

  lemma ClassWithin<T(!new)>(known: seq<Document<T>>, doc: Document<T>)
    ensures (forall b :: DocCount([doc], b) <= DocCount(known, b)) <==>
      exists d :: d in known && d.spamClass == doc.spamClass
  {
    var c := doc.spamClass;
    OneDocument(doc);
    TallyPositive(known, IsOf(c));
    hide Tally;
    assert DocCount([doc], c) == 1;
    assert DocCount(known, c) > 0 <==> exists d :: d in known && d.spamClass == c by {
      assert forall d: Document<T> :: IsOf(c)(d) > 0 <==> d.spamClass == c;
    }
    forall b | b != c
      ensures DocCount([doc], b) == 0
    {
      assert IsOf(b)(doc) == 0;
    }
  }

  lemma TokenWithin<T(!new)>(known: seq<Document<T>>, doc: Document<T>, k: T)
    ensures (forall b :: TokenCount([doc], k, b) <= TokenCount(known, k, b)) <==>
      (k in doc.tokens ==> Seen(known, k, doc.spamClass))
  {
    var c := doc.spamClass;
    OneDocument(doc);
    TallyPositive(known, HasToken(k, c));
    hide Tally;
    assert TokenCount([doc], k, c) == if k in doc.tokens then 1 else 0;
    assert TokenCount(known, k, c) > 0 <==> Seen(known, k, c) by {
      assert forall d: Document<T> :: HasToken(k, c)(d) > 0 <==> d.spamClass == c && k in d.tokens;
    }
    forall b | b != c
      ensures TokenCount([doc], k, b) == 0
    {
      assert HasToken(k, b)(doc) == 0;
    }
  }

  /** A single document can be unlearned exactly when its class is known, and each of its tokens
      occurs in some known document of that class, together or not. */
  lemma UnlearnableDocument<T(!new)>(t: Tables<T>, known: seq<Document<T>>, doc: Document<T>)
    requires Represents(t, known)
    ensures CanUnlearn(t, [doc]) <==>
      && (exists d :: d in known && d.spamClass == doc.spamClass)
      && (forall k :: k in doc.tokens ==> Seen(known, k, doc.spamClass))
  {
    UnlearnableExactly(t, known, [doc]);
    hide Represents, CanUnlearn, Seen, DocCount, TokenCount;
    ClassWithin(known, doc);
    if forall k, b :: TokenCount([doc], k, b) <= TokenCount(known, k, b) {
      forall k | k in doc.tokens
        ensures Seen(known, k, doc.spamClass)
      {
        TokenWithin(known, doc, k);
      }
    }
    if forall k :: k in doc.tokens ==> Seen(known, k, doc.spamClass) {
      forall k, b
        ensures TokenCount([doc], k, b) <= TokenCount(known, k, b)
      {
        TokenWithin(known, doc, k);
      }
    }
  }

  /** A message that was never learned can pass for one that was: {0} when only {0, 1} was. Then
      the frequency of the other token is lost, and relearning does not bring it back. */
  lemma UnlearnedByCoincidence(t: Tables<int>)
    requires Represents(t, [Document(ClassHam, [0, 1])])
    ensures CanUnlearn(t, [Document(ClassHam, [0])]) && LosesFrequency(t, [Document(ClassHam, [0])])
  {
    var learned, other := [Document(ClassHam, [0, 1])], [Document(ClassHam, [0])];
    OneDocument(learned[0]);
    OneDocument(other[0]);
    assert TokenSet(learned[0]) == {0, 1} && TokenSet(other[0]) == {0};
    assert Emptied(t, other, ClassHam);
  }
}
