/** The classifier of lib/tgspam/classifier.go with its nested count maps, updated in place. */
module Classification {
  import opened Seqs
  import opened ClassifierSpec

  datatype Error<T> =
    | TooManyDocuments
    | NoDocumentsOfClass(c: SpamClass)
    | NoTokensOfClass(c: SpamClass)
    | TokenNotFound(token: T, c: SpamClass)

  type TokenTable<T> = map<T, map<SpamClass, int>>

  /** removeDuplicate: the different tokens, in the order of a map iteration. */
  method RemoveDuplicate<T(==,!new)>(tokens: seq<T>) returns (newTokens: seq<T>)
    ensures NoDup(newTokens) && forall t :: t in newTokens <==> t in tokens
    ensures |newTokens| == |set t | t in tokens|
  {
    var mapTokens: set<T> := set t | t in tokens;
    newTokens := [];
    while mapTokens != {}
      invariant NoDup(newTokens) && forall t :: t in tokens <==> t in newTokens || t in mapTokens
      invariant forall t :: t in newTokens ==> t !in mapTokens
      invariant |newTokens| + |mapTokens| == |set t | t in tokens|
    {
      var key :| key in mapTokens;
      mapTokens := mapTokens - {key};
      newTokens := newTokens + [key];
    }
  }

  // ---- single entries ----

  function Inner<T>(tok: TokenTable<T>, token: T): map<SpamClass, int> {
    if token in tok then tok[token] else map[]
  }

  /** No empty inner map and no count that is not positive. */
  ghost predicate TokCanonical<T(!new)>(tok: TokenTable<T>) {
    forall k :: k in tok ==> tok[k] != map[] && forall c :: c in tok[k] ==> tok[k][c] > 0
  }

  /** The token counts of class `c` changed by `delta` for the tokens in `done`, and no others;
      no empty or zero entry was left behind. */
  ghost predicate TokChanged<T(!new)>(
    before: TokenTable<T>, now: TokenTable<T>, c: SpamClass, done: set<T>, delta: int) {
    && (forall k, d :: ReadToken(now, k, d) == ReadToken(before, k, d) + if d == c && k in done then delta else 0)
    && (TokCanonical(before) ==> TokCanonical(now))
  }

  /** The frequency of class `c` changed by `delta`, and has an entry if that is not 0. */
  ghost predicate FreqChanged(before: map<SpamClass, int>, now: map<SpamClass, int>, c: SpamClass, delta: int) {
    && (forall d :: Read(now, d) == Read(before, d) + if d == c then delta else 0)
    && (forall d :: d in now <==> d in before || (d == c && delta != 0))
  }

  function Elements<T(==,!new)>(s: seq<T>): set<T> {
    set t | t in s
  }

  lemma NextElement<T(!new)>(s: seq<T>, j: nat)
    requires NoDup(s) && j < |s|
    ensures Elements(s[..j + 1]) == Elements(s[..j]) + {s[j]} && s[j] !in Elements(s[..j])
  {
    assert s[..j + 1] == s[..j] + [s[j]];
  }

  lemma SameElements<T(!new)>(tokens: seq<T>, doc: Document<T>)
    requires forall t :: t in tokens <==> t in doc.tokens
    ensures Elements(tokens[..|tokens|]) == TokenSet(doc) && Elements(tokens[..0]) == {}
  {
    assert tokens[..|tokens|] == tokens;
  }

  /** What learn does to one token count (lines 64-68). */
  function TokIncremented<T(==)>(tok: TokenTable<T>, token: T, c: SpamClass): TokenTable<T> {
    tok[token := Inner(tok, token)[c := Read(Inner(tok, token), c) + 1]]
  }

  lemma TokIncrement<T(!new)>(before: TokenTable<T>, now: TokenTable<T>, c: SpamClass, done: set<T>, k: T)
    requires TokChanged(before, now, c, done, 1) && k !in done
    ensures TokChanged(before, TokIncremented(now, k, c), c, done + {k}, 1)
  {
    var after := TokIncremented(now, k, c);
    forall j, d
      ensures ReadToken(after, j, d) == ReadToken(before, j, d) + if d == c && j in done + {k} then 1 else 0
    {
      assert ReadToken(now, j, d) == ReadToken(before, j, d) + if d == c && j in done then 1 else 0;
    }
    if TokCanonical(before) {
      assert c in after[k] && forall d :: d in Inner(now, k) ==> Inner(now, k)[d] > 0;
    }
  }

  /** What unlearn does to one token count (lines 102-110). */
  function TokDecremented<T(==)>(tok: TokenTable<T>, token: T, c: SpamClass): TokenTable<T>
    requires token in tok && c in tok[token]
  {
    var inner := if tok[token][c] == 1 then tok[token] - {c} else tok[token][c := tok[token][c] - 1];
    if |inner| == 0 then tok - {token} else tok[token := inner]
  }

  lemma DecrementSteps<T(!new)>(tok: TokenTable<T>, token: T, c: SpamClass)
    requires token in tok && c in tok[token]
    ensures var one := tok[token := tok[token][c := tok[token][c] - 1]];
      var two := if one[token][c] == 0 then one[token := one[token] - {c}] else one;
      (if |two[token]| == 0 then two - {token} else two) == TokDecremented(tok, token, c)
  {
    var one := tok[token := tok[token][c := tok[token][c] - 1]];
    assert one[token] - {c} == tok[token] - {c};
  }

  lemma TokDecrement<T(!new)>(before: TokenTable<T>, now: TokenTable<T>, c: SpamClass, done: set<T>, k: T)
    requires TokChanged(before, now, c, done, -1) && k !in done
    requires k in now && c in now[k]
    ensures TokChanged(before, TokDecremented(now, k, c), c, done + {k}, -1)
  {
    var after := TokDecremented(now, k, c);
    var inner := if now[k][c] == 1 then now[k] - {c} else now[k][c := now[k][c] - 1];
    assert |inner| == 0 ==> inner == map[];
    forall j, d
      ensures ReadToken(after, j, d) == ReadToken(before, j, d) - if d == c && j in done + {k} then 1 else 0
    {
      assert ReadToken(now, j, d) == ReadToken(before, j, d) + if d == c && j in done then -1 else 0;
      if j == k {
        assert Read(inner, d) == Read(now[k], d) - if d == c then 1 else 0;
      }
    }
  }

  lemma FreqStep(before: map<SpamClass, int>, now: map<SpamClass, int>, c: SpamClass, delta: int, step: int)
    requires FreqChanged(before, now, c, delta) && delta + step != 0
    ensures FreqChanged(before, now[c := Read(now, c) + step], c, delta + step)
  {
  }

  lemma NothingChanged<T(!new)>(tok: TokenTable<T>, freq: map<SpamClass, int>, c: SpamClass, delta: int)
    ensures TokChanged(tok, tok, c, {}, delta) && FreqChanged(freq, freq, c, 0)
  {
  }

  // ---- single documents ----

  /** `after` has the counts of `before` and of one more document. */
  ghost predicate AddedOne<T(!new)>(before: Tables<T>, after: Tables<T>, doc: Document<T>) {
    && after.n == before.n && after.prior == before.prior
    && (forall c :: Read(after.doc, c) == Read(before.doc, c) + IsOf(c)(doc))
    && (forall k, c :: ReadToken(after.tok, k, c) == ReadToken(before.tok, k, c) + HasToken(k, c)(doc))
    && (forall c :: Read(after.freq, c) == Read(before.freq, c) + Width(c)(doc))
    && (forall c :: c in after.freq <==> c in before.freq || Width(c)(doc) > 0)
  }

  /** `after` has the counts of `before` without one document; a class that runs out of
      documents loses its frequency. */
  ghost predicate RemovedOne<T(!new)>(before: Tables<T>, after: Tables<T>, doc: Document<T>) {
    && after.n == before.n
    && (forall c :: Read(after.doc, c) == Read(before.doc, c) - IsOf(c)(doc))
    && (forall k, c :: ReadToken(after.tok, k, c) == ReadToken(before.tok, k, c) - HasToken(k, c)(doc))
    && (forall c :: Read(after.freq, c) ==
         if doc.spamClass == c && Read(before.doc, c) == 1 then 0 else Read(before.freq, c) - Width(c)(doc))
    && (forall c :: c in after.freq <==> c in before.freq && !(doc.spamClass == c && Read(before.doc, c) == 1))
  }

  /** The counts of one document are there to be taken away. */
  ghost predicate CanUnlearnOne<T(!new)>(t: Tables<T>, doc: Document<T>) {
    && Read(t.doc, doc.spamClass) >= 1
    && Read(t.freq, doc.spamClass) >= |TokenSet(doc)|
    && forall k :: k in doc.tokens ==> ReadToken(t.tok, k, doc.spamClass) >= 1
  }

  /** Canonical, but for the priors. */
  ghost predicate CountsCanonical<T(!new)>(t: Tables<T>) {
    && (forall c :: c in t.doc ==> t.doc[c] > 0)
    && TokCanonical(t.tok)
    && (forall c :: c in t.freq ==> c in t.doc && t.freq[c] >= 0)
  }

  lemma LearnOneComplete<T(!new)>(before: Tables<T>, after: Tables<T>, doc: Document<T>)
    requires after.n == before.n && after.prior == before.prior
    requires after.doc == before.doc[doc.spamClass := Read(before.doc, doc.spamClass) + 1]
    requires FreqChanged(before.freq, after.freq, doc.spamClass, |TokenSet(doc)|)
    requires TokChanged(before.tok, after.tok, doc.spamClass, TokenSet(doc), 1)
    ensures AddedOne(before, after, doc) && (CountsCanonical(before) ==> CountsCanonical(after))
  {
    if CountsCanonical(before) {
      forall c | c in after.freq
        ensures after.freq[c] >= 0
      {
        assert Read(after.freq, c) == after.freq[c];
      }
    }
  }

  /** learn's loop over the tokens of a document, after `j` of them. */
  ghost predicate CountedTo<T(!new)>(before: Tables<T>, now: Tables<T>, c: SpamClass, tokens: seq<T>, j: nat)
    requires j <= |tokens|
  {
    FreqChanged(before.freq, now.freq, c, j) && TokChanged(before.tok, now.tok, c, Elements(tokens[..j]), 1)
  }

  lemma NothingCounted<T(!new)>(before: Tables<T>, now: Tables<T>, c: SpamClass, tokens: seq<T>)
    requires now.freq == before.freq && now.tok == before.tok
    ensures CountedTo(before, now, c, tokens, 0)
  {
    NothingChanged(before.tok, before.freq, c, 1);
    assert Elements(tokens[..0]) == {};
  }

  lemma CountedNext<T(!new)>(before: Tables<T>, now: Tables<T>, c: SpamClass, tokens: seq<T>, j: nat)
    requires NoDup(tokens) && j < |tokens| && CountedTo(before, now, c, tokens, j)
    ensures forall next: Tables<T> ::
      next.freq == now.freq[c := Read(now.freq, c) + 1] && next.tok == TokIncremented(now.tok, tokens[j], c) ==>
        CountedTo(before, next, c, tokens, j + 1)
  {
    NextElement(tokens, j);
    hide TokChanged, FreqChanged, TokIncremented, Elements, NoDup;
    TokIncrement(before.tok, now.tok, c, Elements(tokens[..j]), tokens[j]);
    FreqStep(before.freq, now.freq, c, j, 1);
  }

  lemma CountedMeans<T(!new)>(before: Tables<T>, now: Tables<T>, c: SpamClass, tokens: seq<T>, j: nat)
    requires j <= |tokens| && CountedTo(before, now, c, tokens, j)
    ensures FreqChanged(before.freq, now.freq, c, j) && TokChanged(before.tok, now.tok, c, Elements(tokens[..j]), 1)
  {
  }

  lemma AllCounted<T(!new)>(tokens: seq<T>, doc: Document<T>)
    requires |tokens| == |set t | t in doc.tokens| && forall t :: t in tokens <==> t in doc.tokens
    ensures Elements(tokens[..|tokens|]) == TokenSet(doc) && |tokens| == |TokenSet(doc)|
  {
    SameElements(tokens, doc);
  }

  /** unlearn's clean-up of the class entries (lines 113-121). */
  function CleanedUp<T(==)>(t: Tables<T>, c: SpamClass): Tables<T>
    requires c in t.doc
  {
    if t.doc[c] == 0 then t.(doc := t.doc - {c}, freq := t.freq - {c}, prior := t.prior - {c})
    else t.(prior := t.prior[c := Ratio(t.doc[c], t.n)])
  }

  /** A token loop of unlearn that stopped: some tokens are taken out, and as many are taken off
      the frequency, or one more. */
  ghost predicate PartlyUncounted<T(!new)>(before: Tables<T>, now: Tables<T>, doc: Document<T>) {
    exists done: set<T>, taken: nat :: UncountedBut(before, now, doc, done, taken)
  }

  ghost predicate UncountedBut<T(!new)>(before: Tables<T>, now: Tables<T>, doc: Document<T>, done: set<T>, taken: nat) {
    && done < TokenSet(doc) && |done| <= taken <= |done| + 1
    && TokChanged(before.tok, now.tok, doc.spamClass, done, -1)
    && FreqChanged(before.freq, now.freq, doc.spamClass, 0 - taken)
  }

  /** A round of unlearn that failed: nothing happened when no document of the class was left, and
      otherwise one is gone, with some of its tokens. */
  ghost predicate FailedOne<T(!new)>(before: Tables<T>, now: Tables<T>, doc: Document<T>) {
    if Read(before.doc, doc.spamClass) <= 0 then now == before
    else
      && now.n == before.n && now.prior == before.prior
      && now.doc == before.doc[doc.spamClass := before.doc[doc.spamClass] - 1]
      && PartlyUncounted(before, now, doc)
  }

  /** The tables between the token loop of unlearn and its clean-up. */
  ghost predicate Uncounted<T(!new)>(before: Tables<T>, now: Tables<T>, doc: Document<T>) {
    && Read(before.doc, doc.spamClass) >= 1 && Read(before.freq, doc.spamClass) >= |TokenSet(doc)|
    && now.n == before.n && now.prior == before.prior
    && now.doc == before.doc[doc.spamClass := before.doc[doc.spamClass] - 1]
    && FreqChanged(before.freq, now.freq, doc.spamClass, -|TokenSet(doc)|)
    && TokChanged(before.tok, now.tok, doc.spamClass, TokenSet(doc), -1)
  }

  lemma UnlearnOneRemoves<T(!new)>(before: Tables<T>, now: Tables<T>, doc: Document<T>)
    requires Uncounted(before, now, doc)
    ensures RemovedOne(before, CleanedUp(now, doc.spamClass), doc)
  {
    var after := CleanedUp(now, doc.spamClass);
    forall d
      ensures Read(after.doc, d) == Read(before.doc, d) - IsOf(d)(doc)
      ensures Read(after.freq, d) ==
        if doc.spamClass == d && Read(before.doc, d) == 1 then 0 else Read(before.freq, d) - Width(d)(doc)
      ensures d in after.freq <==> d in before.freq && !(doc.spamClass == d && Read(before.doc, d) == 1)
    {
    }
    hide TokCanonical, Read, FreqChanged;
  }

  lemma UnlearnOneCanonical<T(!new)>(before: Tables<T>, now: Tables<T>, doc: Document<T>)
    requires Uncounted(before, now, doc) && CountsCanonical(before)
    ensures CountsCanonical(CleanedUp(now, doc.spamClass))
  {
    hide TokCanonical, ReadToken;
    var after := CleanedUp(now, doc.spamClass);
    forall c | c in after.freq
      ensures c in after.doc && after.freq[c] >= 0
    {
      assert Read(now.freq, c) == after.freq[c];
    }
  }

  // ---- sequences of documents ----

  /** No count is negative: true of every state, even after a failed unlearn. */
  ghost predicate NonNegative<T(!new)>(t: Tables<T>) {
    && t.n >= 0
    && (forall c :: Read(t.doc, c) >= 0 && Read(t.freq, c) >= 0)
    && (forall k, c :: ReadToken(t.tok, k, c) >= 0)
  }

  lemma NothingDone<T(!new)>(t: Tables<T>)
    ensures Added(t, t, []) && Removed(t, t, []) && (NonNegative(t) ==> CanUnlearn(t, []))
  {
  }

  lemma CountsAppend<T(!new)>(docs: seq<Document<T>>, doc: Document<T>)
    ensures forall c :: DocCount(docs + [doc], c) == DocCount(docs, c) + IsOf(c)(doc)
    ensures forall c :: FreqCount(docs + [doc], c) == FreqCount(docs, c) + Width(c)(doc)
    ensures forall k, c :: TokenCount(docs + [doc], k, c) == TokenCount(docs, k, c) + HasToken(k, c)(doc)
  {
    hide Tally;
    forall f: Document<T> -> nat
      ensures Tally(docs + [doc], f) == Tally(docs, f) + f(doc)
    {
      TallyAppend(docs, doc, f);
    }
  }

  lemma AddStep<T(!new)>(before: Tables<T>, now: Tables<T>, after: Tables<T>, docs: seq<Document<T>>, doc: Document<T>)
    requires Added(before, now.(n := before.n + |docs|), docs) && AddedOne(now, after, doc)
    ensures Added(before, after.(n := before.n + |docs + [doc]|), docs + [doc])
  {
    hide Tally;
    CountsAppend(docs, doc);
    hide DocCount, FreqCount, TokenCount;
  }

  lemma RemoveStepOf<T(!new)>(
    before: Tables<T>, now: Tables<T>, after: Tables<T>, docs: seq<Document<T>>, doc: Document<T>, c: SpamClass)
    requires Removed(before, now.(n := before.n - |docs|), docs)
    requires RemovedOne(now, after, doc) && CanUnlearnOne(now, doc)
    ensures var more := docs + [doc];
      && Read(after.doc, c) == Read(before.doc, c) - DocCount(more, c)
      && (Read(after.freq, c) == if Emptied(before, more, c) then 0 else Read(before.freq, c) - FreqCount(more, c))
      && (c in after.freq <==> c in before.freq && !Emptied(before, more, c))
  {
    hide Tally, ReadToken, TokenCount, DocCount, FreqCount;
    CountsAppend(docs, doc);
    assert Read(now.doc, c) == Read(before.doc, c) - DocCount(docs, c);
    assert DocCount(docs + [doc], c) == DocCount(docs, c) + IsOf(c)(doc);
  }

  lemma RemoveStep<T(!new)>(
    before: Tables<T>, now: Tables<T>, after: Tables<T>, docs: seq<Document<T>>, doc: Document<T>)
    requires Removed(before, now.(n := before.n - |docs|), docs)
    requires RemovedOne(now, after, doc) && CanUnlearnOne(now, doc)
    ensures Removed(before, after.(n := before.n - |docs + [doc]|), docs + [doc])
  {
    hide Tally;
    CountsAppend(docs, doc);
    hide DocCount, FreqCount, TokenCount, Emptied, CanUnlearnOne;
    var more := docs + [doc];
    forall c
      ensures Read(after.doc, c) == Read(before.doc, c) - DocCount(more, c)
      ensures Read(after.freq, c) == if Emptied(before, more, c) then 0 else Read(before.freq, c) - FreqCount(more, c)
      ensures c in after.freq <==> c in before.freq && !Emptied(before, more, c)
    {
      RemoveStepOf(before, now, after, docs, doc, c);
    }
  }

  /** Unlearning goes on exactly as long as the counts last. */
  lemma CanUnlearnStep<T(!new)>(before: Tables<T>, now: Tables<T>, docs: seq<Document<T>>, doc: Document<T>)
    requires Removed(before, now.(n := before.n - |docs|), docs) && CanUnlearn(before, docs) && |docs| + 1 <= before.n
    ensures CanUnlearn(before, docs + [doc]) <==> CanUnlearnOne(now, doc)
  {
    hide Tally;
    CountsAppend(docs, doc);
    hide DocCount, FreqCount, TokenCount;
    var c := doc.spamClass;
    if CanUnlearn(before, docs + [doc]) {
      assert IsOf(c)(doc) == 1;
      assert !Emptied(before, docs, c);
      assert Width(c)(doc) == |TokenSet(doc)|;
      forall k | k in doc.tokens
        ensures ReadToken(now.tok, k, c) >= 1
      {
        assert HasToken(k, c)(doc) == 1;
      }
    }
  }

  lemma CanUnlearnPrefix<T(!new)>(t: Tables<T>, docs: seq<Document<T>>, i: nat)
    requires i <= |docs| && CanUnlearn(t, docs)
    ensures CanUnlearn(t, docs[..i])
  {
    hide Tally;
    forall f: Document<T> -> nat
      ensures Tally(docs[..i], f) <= Tally(docs, f)
    {
      TallyPrefix(docs, i, f);
    }
  }

  lemma LearnComplete<T(!new)>(before: Tables<T>, now: Tables<T>, after: Tables<T>, docs: seq<Document<T>>)
    requires Added(before, now, docs) && now.prior == before.prior
    requires CountsCanonical(before) ==> CountsCanonical(now)
    requires after == now.(prior := after.prior) && after.prior.Keys == before.prior.Keys + now.doc.Keys
    requires forall c :: c in now.doc ==> after.prior[c] == Ratio(now.doc[c], now.n)
    ensures Added(before, after, docs)
    ensures Canonical(before) ==> Canonical(after) && PriorsFresh(after)
    ensures NonNegative(before) ==> NonNegative(after)
  {
    hide DocCount, FreqCount, TokenCount;
    if Canonical(before) {
      assert before.prior.Keys <= now.doc.Keys by {
        forall c | c in before.doc
          ensures c in now.doc
        {
          assert Read(now.doc, c) > 0;
        }
      }
    }
  }

  /** How learn and unlearn leave the priors: fresh for the classes of `docs`, as they were for
      the others. */
  ghost predicate PriorsTouched<T(!new)>(before: Tables<T>, now: Tables<T>, docs: seq<Document<T>>) {
    forall c :: PriorTouched(before, now, docs, c)
  }

  predicate PriorTouched<T(==,!new)>(before: Tables<T>, now: Tables<T>, docs: seq<Document<T>>, c: SpamClass) {
    && (c in now.prior <==> c in now.doc)
    && (c in now.prior && DocCount(docs, c) > 0 ==> now.prior[c] == Ratio(now.doc[c], now.n))
    && (c in now.prior && DocCount(docs, c) == 0 ==> c in before.prior && now.prior[c] == before.prior[c])
  }

  lemma DocCountAppend<T(!new)>(docs: seq<Document<T>>, doc: Document<T>, c: SpamClass)
    ensures DocCount(docs + [doc], c) == DocCount(docs, c) + if c == doc.spamClass then 1 else 0
  {
    hide Tally;
    TallyAppend(docs, doc, IsOf(c));
  }

  /** One more step of unlearn leaves the priors as they should be. */
  lemma PriorsStep<T(!new)>(
    before: Tables<T>, now: Tables<T>, uncounted: Tables<T>, docs: seq<Document<T>>, doc: Document<T>)
    requires PriorsTouched(before, now, docs)
    requires DocumentUncounted(now, uncounted, doc)
    ensures PriorsTouched(before, CleanedUp(uncounted, doc.spamClass), docs + [doc])
  {
    hide DocCount;
    forall c
      ensures PriorTouched(before, CleanedUp(uncounted, doc.spamClass), docs + [doc], c)
    {
      assert PriorTouched(before, now, docs, c);
      DocCountAppend(docs, doc, c);
    }
  }

  ghost predicate DocumentUncounted<T(!new)>(before: Tables<T>, t: Tables<T>, doc: Document<T>) {
    && t.n == before.n && t.prior == before.prior && doc.spamClass in before.doc
    && t.doc == before.doc[doc.spamClass := before.doc[doc.spamClass] - 1]
  }

  /** One round of unlearn, priors included. */
  ghost predicate UnlearnedOne<T(!new)>(before: Tables<T>, after: Tables<T>, doc: Document<T>) {
    && RemovedOne(before, after, doc)
    && (CountsCanonical(before) ==> CountsCanonical(after))
    && exists t: Tables<T> :: DocumentUncounted(before, t, doc) && after == CleanedUp(t, doc.spamClass)
  }

  /** The state of unlearn after `i` documents. */
  ghost predicate Underway<T(!new)>(before: Tables<T>, now: Tables<T>, docs: seq<Document<T>>, i: nat)
    requires i <= |docs|
  {
    && now.n == before.n - |docs| >= 0 && NonNegative(now)
    && CanUnlearn(before, docs[..i]) && Removed(before, now.(n := before.n - i), docs[..i])
    && (Canonical(before) ==> CountsCanonical(now) && PriorsTouched(before, now, docs[..i]))
  }

  lemma CannotUnlearnMore<T(!new)>(t: Tables<T>, docs: seq<Document<T>>)
    requires |docs| > t.n
    ensures !CanUnlearn(t, docs)
  {
  }

  lemma UnderwayStarts<T(!new)>(before: Tables<T>, now: Tables<T>, docs: seq<Document<T>>)
    requires NonNegative(before) && |docs| <= before.n && now == before.(n := before.n - |docs|)
    ensures Underway(before, now, docs, 0)
  {
    NothingDone(before);
    assert docs[..0] == [] && now.(n := before.n) == before;
    assert forall c :: DocCount<T>([], c) == 0;
    hide CanUnlearn, Removed;
  }

  lemma UnderwayGoesOn<T(!new)>(
    before: Tables<T>, now: Tables<T>, after: Tables<T>, docs: seq<Document<T>>, i: nat, ok: bool)
    requires i < |docs| && Underway(before, now, docs, i)
    requires ok <==> CanUnlearnOne(now, docs[i])
    requires ok ==> UnlearnedOne(now, after, docs[i]) && after.n == now.n && NonNegative(after)
    ensures if ok then Underway(before, after, docs, i + 1) else !CanUnlearn(before, docs)
  {
    hide NonNegative, CanUnlearn, CanUnlearnOne, Removed, RemovedOne, Canonical, CountsCanonical;
    hide PriorsTouched, CleanedUp;
    var doc := docs[i];
    assert docs[..i + 1] == docs[..i] + [doc];
    CanUnlearnStep(before, now, docs[..i], doc);
    if ok {
      RemoveStep(before, now, after, docs[..i], doc);
      if Canonical(before) {
        var t: Tables<T> :| DocumentUncounted(now, t, doc) && after == CleanedUp(t, doc.spamClass);
        PriorsStep(before, now, t, docs[..i], doc);
      }
    } else if CanUnlearn(before, docs) {
      CanUnlearnPrefix(before, docs, i + 1);
    }
  }

  /** The counts of the tokens of a document are there to be taken away. */
  ghost predicate TokensLast<T(!new)>(t: Tables<T>, doc: Document<T>) {
    && Read(t.freq, doc.spamClass) >= |TokenSet(doc)|
    && forall k :: k in doc.tokens ==> ReadToken(t.tok, k, doc.spamClass) >= 1
  }

  /** The state of the token loop of unlearn before its `j`-th round. */
  ghost predicate LoopAt<T(!new)>(before: Tables<T>, now: Tables<T>, doc: Document<T>, tokens: seq<T>, j: nat) {
    var c := doc.spamClass;
    && j <= |tokens| == |TokenSet(doc)| && NoDup(tokens) && (forall t :: t in tokens <==> t in doc.tokens)
    && NonNegative(before) && now == before.(tok := now.tok, freq := now.freq)
    && FreqChanged(before.freq, now.freq, c, 0 - j) && Read(before.freq, c) >= j
    && TokChanged(before.tok, now.tok, c, Elements(tokens[..j]), -1)
    && forall k :: k in Elements(tokens[..j]) ==> ReadToken(before.tok, k, c) >= 1
  }

  lemma LoopStarts<T(!new)>(before: Tables<T>, doc: Document<T>, tokens: seq<T>)
    requires NonNegative(before) && NoDup(tokens) && |tokens| == |set t | t in doc.tokens|
    requires forall t :: t in tokens <==> t in doc.tokens
    ensures LoopAt(before, before, doc, tokens, 0)
  {
    NonNegativeMeans(before, doc.spamClass);
    NothingChanged(before.tok, before.freq, doc.spamClass, -1);
    SameElements(tokens, doc);
    assert TokenSet(doc) == set t | t in doc.tokens;
    hide NonNegative, TokChanged, FreqChanged;
  }

  lemma LoopGoesOn<T(!new)>(
    before: Tables<T>, now: Tables<T>, after: Tables<T>, doc: Document<T>, tokens: seq<T>, j: nat)
    requires j < |tokens| && LoopAt(before, now, doc, tokens, j)
    requires Read(now.freq, doc.spamClass) > 0 && ReadToken(now.tok, tokens[j], doc.spamClass) > 0
    requires tokens[j] in now.tok && doc.spamClass in now.tok[tokens[j]]
    requires after == now.(
      freq := now.freq[doc.spamClass := Read(now.freq, doc.spamClass) - 1],
      tok := TokDecremented(now.tok, tokens[j], doc.spamClass))
    ensures LoopAt(before, after, doc, tokens, j + 1)
  {
    hide NonNegative, TokChanged, FreqChanged, TokDecremented;
    var c := doc.spamClass;
    NextElement(tokens, j);
    RoundMeans(before, now, c, tokens, j);
    FreqStep(before.freq, now.freq, c, 0 - j, -1);
    TokDecrement(before.tok, now.tok, c, Elements(tokens[..j]), tokens[j]);
  }

  lemma LoopFails<T(!new)>(
    before: Tables<T>, now: Tables<T>, after: Tables<T>, doc: Document<T>, tokens: seq<T>, j: nat, e: Error<T>)
    requires j < |tokens| && LoopAt(before, now, doc, tokens, j)
    requires !(Read(now.freq, doc.spamClass) > 0 && ReadToken(now.tok, tokens[j], doc.spamClass) > 0)
    requires e ==
      if Read(now.freq, doc.spamClass) <= 0 then NoTokensOfClass(doc.spamClass)
      else TokenNotFound(tokens[j], doc.spamClass)
    requires after == now.(freq :=
      if e == NoTokensOfClass(doc.spamClass) then now.freq
      else now.freq[doc.spamClass := Read(now.freq, doc.spamClass) - 1])
    ensures !TokensLast(before, doc) && PartlyUncounted(before, after, doc) && NonNegative(after)
    ensures e.NoTokensOfClass? || e.TokenNotFound?
  {
    hide NonNegative, TokChanged, FreqChanged;
    var c := doc.spamClass;
    RoundMeans(before, now, c, tokens, j);
    FreqStep(before.freq, now.freq, c, 0 - j, -1);
    NonNegativeMeans(before, c);
    var taken: nat := if e.NoTokensOfClass? then j else j + 1;
    PartsMean(before, after, doc, tokens, j, taken);
    PartialNonNegative(before, after, c, Elements(tokens[..j]), 0 - taken);
    assert tokens[j] in doc.tokens;
  }

  lemma LoopEnds<T(!new)>(before: Tables<T>, now: Tables<T>, doc: Document<T>, tokens: seq<T>)
    requires LoopAt(before, now, doc, tokens, |tokens|)
    ensures TokensLast(before, doc) && NonNegative(now)
    ensures FreqChanged(before.freq, now.freq, doc.spamClass, -|TokenSet(doc)|)
    ensures TokChanged(before.tok, now.tok, doc.spamClass, TokenSet(doc), -1)
  {
    hide NonNegative, TokChanged, FreqChanged;
    SameElements(tokens, doc);
    NonNegativeMeans(before, doc.spamClass);
    PartialNonNegative(before, now, doc.spamClass, TokenSet(doc), 0 - |tokens|);
  }

  /** An unlearning that failed: the documents before some one are gone, and the round of that one
      failed. */
  ghost predicate FailedAt<T(!new)>(before: Tables<T>, after: Tables<T>, docs: seq<Document<T>>) {
    exists i: nat, t: Tables<T> ::
      i < |docs| && Underway(before, t, docs, i) && !CanUnlearnOne(t, docs[i]) && FailedOne(t, after, docs[i])
  }

  lemma FailsHere<T(!new)>(before: Tables<T>, t: Tables<T>, after: Tables<T>, docs: seq<Document<T>>, i: nat)
    requires i < |docs| && Underway(before, t, docs, i) && !CanUnlearnOne(t, docs[i]) && FailedOne(t, after, docs[i])
    ensures FailedAt(before, after, docs)
  {
    hide Underway, CanUnlearnOne, FailedOne;
  }

  lemma PartsMean<T(!new)>(before: Tables<T>, now: Tables<T>, doc: Document<T>, tokens: seq<T>, j: nat, taken: nat)
    requires NoDup(tokens) && j < |tokens| && j <= taken <= j + 1
    requires forall t :: t in tokens <==> t in doc.tokens
    requires TokChanged(before.tok, now.tok, doc.spamClass, Elements(tokens[..j]), -1)
    requires FreqChanged(before.freq, now.freq, doc.spamClass, 0 - taken)
    ensures PartlyUncounted(before, now, doc)
  {
    hide TokChanged, FreqChanged;
    NextElement(tokens, j);
    ElementsSize(tokens, j);
    var done := Elements(tokens[..j]);
    assert tokens[j] in TokenSet(doc) && tokens[j] !in done;
    assert done <= TokenSet(doc);
    assert UncountedBut(before, now, doc, done, taken);
  }

  lemma {:induction false} ElementsSize<T(!new)>(s: seq<T>, j: nat)
    requires NoDup(s) && j <= |s|
    ensures |Elements(s[..j])| == j
  {
    if j == 0 {
      assert Elements(s[..0]) == {};
    } else {
      ElementsSize(s, j - 1);
      NextElement(s, j - 1);
    }
  }

  lemma UnderwayMeans<T(!new)>(before: Tables<T>, now: Tables<T>, docs: seq<Document<T>>, i: nat)
    requires i <= |docs| && Underway(before, now, docs, i)
    ensures now.n == before.n - |docs| && NonNegative(now)
  {
  }

  lemma UnderwayEnds<T(!new)>(before: Tables<T>, now: Tables<T>, docs: seq<Document<T>>)
    requires Underway(before, now, docs, |docs|)
    ensures CanUnlearn(before, docs) && Removed(before, now, docs)
    ensures Canonical(before) ==> Canonical(now) && PriorsTouched(before, now, docs)
  {
    assert docs[..|docs|] == docs && now.(n := now.n) == now;
    hide CanUnlearn, Removed, Canonical, DocCount;
    if Canonical(before) {
      forall c
        ensures c in now.prior <==> c in now.doc
      {
        assert PriorTouched(before, now, docs, c);
      }
    }
  }

  /** The failed token loop, seen from before the document was taken off. */
  lemma SamePart<T(!new)>(before: Tables<T>, now: Tables<T>, doc: Document<T>)
    requires Read(before.doc, doc.spamClass) > 0
    requires now.n == before.n && now.prior == before.prior
    requires now.doc == before.doc[doc.spamClass := before.doc[doc.spamClass] - 1]
    requires PartlyUncounted(before.(doc := now.doc), now, doc)
    ensures FailedOne(before, now, doc)
  {
    hide TokChanged, FreqChanged;
    var done: set<T>, taken: nat :| UncountedBut(before.(doc := now.doc), now, doc, done, taken);
    assert UncountedBut(before, now, doc, done, taken);
  }

  lemma DocumentLess<T(!new)>(before: Tables<T>, now: Tables<T>, c: SpamClass)
    requires NonNegative(before) && Read(before.doc, c) > 0
    requires now == before.(doc := before.doc[c := before.doc[c] - 1])
    ensures NonNegative(now)
  {
    hide ReadToken;
    forall d
      ensures Read(now.doc, d) >= 0
    {
      assert Read(before.doc, d) >= 0;
    }
  }

  lemma CleanedUpNonNegative<T(!new)>(t: Tables<T>, c: SpamClass)
    requires NonNegative(t) && c in t.doc
    ensures NonNegative(CleanedUp(t, c))
  {
    hide ReadToken;
    forall d
      ensures Read(CleanedUp(t, c).doc, d) >= 0 && Read(CleanedUp(t, c).freq, d) >= 0
    {
      assert Read(t.doc, d) >= 0 && Read(t.freq, d) >= 0;
    }
  }

  lemma NonNegativeMeans<T(!new)>(t: Tables<T>, c: SpamClass)
    requires NonNegative(t)
    ensures t.n >= 0 && Read(t.freq, c) >= 0 && forall d :: Read(t.doc, d) >= 0
  {
  }

  /** What the rounds before the `j`-th leave of the counts that it looks at. */
  lemma RoundMeans<T(!new)>(before: Tables<T>, now: Tables<T>, c: SpamClass, tokens: seq<T>, j: nat)
    requires NoDup(tokens) && j < |tokens|
    requires FreqChanged(before.freq, now.freq, c, 0 - j)
      && TokChanged(before.tok, now.tok, c, Elements(tokens[..j]), -1)
    ensures Read(now.freq, c) == Read(before.freq, c) - j
    ensures ReadToken(now.tok, tokens[j], c) == ReadToken(before.tok, tokens[j], c)
  {
    hide TokCanonical;
    NextElement(tokens, j);
  }

  /** A failed round of unlearn leaves no negative count. */
  lemma PartialNonNegative<T(!new)>(before: Tables<T>, now: Tables<T>, c: SpamClass, done: set<T>, delta: int)
    requires NonNegative(before) && now.n == before.n
    requires forall d :: Read(now.doc, d) >= 0
    requires FreqChanged(before.freq, now.freq, c, delta) && Read(before.freq, c) + delta >= 0
    requires TokChanged(before.tok, now.tok, c, done, -1) && forall k :: k in done ==> ReadToken(before.tok, k, c) >= 1
    ensures NonNegative(now)
  {
    hide TokCanonical;
  }

  /** unlearn leaves the priors stale unless every class that remains was touched. */
  lemma StalePriors<T(!new)>(before: Tables<T>, after: Tables<T>, docs: seq<Document<T>>)
    requires Canonical(before) && Canonical(after) && PriorsFresh(before) && docs != []
    requires Removed(before, after, docs) && PriorsTouched(before, after, docs)
    ensures PriorsFresh(after) <==> forall c :: c in after.doc ==> DocCount(docs, c) > 0
  {
    hide DocCount, FreqCount, TokenCount, ReadToken;
    forall c | c in after.doc
      ensures after.prior[c] == Ratio(after.doc[c], after.n) <==> DocCount(docs, c) > 0
    {
      assert PriorTouched(before, after, docs, c);
      assert Read(after.doc, c) == Read(before.doc, c) - DocCount(docs, c);
    }
    if PriorsFresh(after) {
      forall c | c in after.doc
        ensures DocCount(docs, c) > 0
      {
        assert after.prior[c] == Ratio(after.doc[c], after.n);
      }
    }
  }

  class Classifier<T(==,!new)> {
    var learningResults: TokenTable<T>
    var priorProbabilities: map<SpamClass, Ratio>
    var nDocumentByClass: map<SpamClass, int>
    var nFrequencyByClass: map<SpamClass, int>
    var nAllDocument: int

    /** newClassifier */
    constructor ()
      ensures Represents(Snapshot(), []) && nFrequencyByClass == map[]
    {
      learningResults, priorProbabilities := map[], map[];
      nDocumentByClass, nFrequencyByClass, nAllDocument := map[], map[], 0;
    }

    function Snapshot(): Tables<T>
      reads this
    {
      Tables(nAllDocument, nDocumentByClass, nFrequencyByClass, learningResults, priorProbabilities)
    }

    /** reset */
    method Reset()
      modifies this
      ensures Represents(Snapshot(), []) && nFrequencyByClass == map[]
    {
      learningResults, priorProbabilities := map[], map[];
      nDocumentByClass, nFrequencyByClass, nAllDocument := map[], map[], 0;
    }

    /** The round of learn for one token (lines 62-68). */
    method CountToken(token: T, c: SpamClass)
      modifies this`learningResults, this`nFrequencyByClass
      ensures nFrequencyByClass == old(nFrequencyByClass[c := Read(nFrequencyByClass, c) + 1])
      ensures learningResults == old(TokIncremented(learningResults, token, c))
    {
      nFrequencyByClass := nFrequencyByClass[c := Read(nFrequencyByClass, c) + 1];
      if token !in learningResults {
        learningResults := learningResults[token := map[]];
      }
      learningResults := learningResults[token := learningResults[token][c := Read(learningResults[token], c) + 1]];
    }

    /** The round of learn for one document (lines 57-69). */
    method LearnOne(doc: Document<T>)
      modifies this`learningResults, this`nDocumentByClass, this`nFrequencyByClass
      ensures AddedOne(old(Snapshot()), Snapshot(), doc)
      ensures CountsCanonical(old(Snapshot())) ==> CountsCanonical(Snapshot())
    {
      hide ReadToken, TokChanged, TokCanonical, FreqChanged, AddedOne, TokIncremented, CountedTo, Elements, NoDup;
      hide CountsCanonical, TokenSet;
      ghost var before := Snapshot();
      var c := doc.spamClass;
      nDocumentByClass := nDocumentByClass[c := Read(nDocumentByClass, c) + 1];
      var tokens := RemoveDuplicate(doc.tokens);
      NothingCounted(before, Snapshot(), c, tokens);
      AllCounted(tokens, doc);
      for j := 0 to |tokens|
        invariant nDocumentByClass == before.doc[c := Read(before.doc, c) + 1]
        invariant CountedTo(before, Snapshot(), c, tokens, j)
      {
        CountedNext(before, Snapshot(), c, tokens, j);
        CountToken(tokens[j], c);
      }
      CountedMeans(before, Snapshot(), c, tokens, |tokens|);
      LearnOneComplete(before, Snapshot(), doc);
    }

    /** The last loop of learn (lines 72-74): a prior for every known class. */
    method RefreshPriors()
      modifies this`priorProbabilities
      ensures priorProbabilities.Keys == old(priorProbabilities.Keys) + nDocumentByClass.Keys
      ensures forall c :: c in nDocumentByClass ==> priorProbabilities[c] == Ratio(nDocumentByClass[c], nAllDocument)
    {
      var classes := nDocumentByClass.Keys;
      while classes != {}
        invariant classes <= nDocumentByClass.Keys
        invariant priorProbabilities.Keys == old(priorProbabilities.Keys) + (nDocumentByClass.Keys - classes)
        invariant forall c :: c in nDocumentByClass.Keys - classes ==>
          priorProbabilities[c] == Ratio(nDocumentByClass[c], nAllDocument)
      {
        var c := AnyOf(classes);
        priorProbabilities := priorProbabilities[c := Ratio(nDocumentByClass[c], nAllDocument)];
        classes := classes - {c};
      }
    }

    /** learn */
    method Learn(docs: seq<Document<T>>)
      modifies this
      ensures Added(old(Snapshot()), Snapshot(), docs)
      ensures forall c :: c in nDocumentByClass ==>
        c in priorProbabilities && priorProbabilities[c] == Ratio(nDocumentByClass[c], nAllDocument)
      ensures old(Canonical(Snapshot())) ==> Canonical(Snapshot()) && PriorsFresh(Snapshot())
      ensures old(NonNegative(Snapshot())) ==> NonNegative(Snapshot())
    {
      hide Added, AddedOne, TokCanonical, Canonical, NonNegative, PriorsFresh;
      ghost var before := Snapshot();
      nAllDocument := nAllDocument + |docs|;
      NothingDone(before);
      assert docs[..0] == [] && Snapshot().(n := before.n) == before;
      for i := 0 to |docs|
        invariant nAllDocument == before.n + |docs| && priorProbabilities == before.prior
        invariant Added(before, Snapshot().(n := before.n + i), docs[..i])
        invariant CountsCanonical(before) ==> CountsCanonical(Snapshot())
      {
        ghost var now := Snapshot();
        assert docs[..i + 1] == docs[..i] + [docs[i]];
        LearnOne(docs[i]);
        AddStep(before, now, Snapshot(), docs[..i], docs[i]);
      }
      assert docs[..|docs|] == docs;
      ghost var now := Snapshot();
      RefreshPriors();
      LearnComplete(before, now, Snapshot(), docs);
    }

    /** The round of unlearn for one token (lines 94-110). */
    method UncountToken(token: T, c: SpamClass) returns (err: Option<Error<T>>)
      modifies this`learningResults, this`nFrequencyByClass
      ensures err.None? <==> old(Read(nFrequencyByClass, c) > 0 && ReadToken(learningResults, token, c) > 0)
      ensures err.None? ==> old(token in learningResults && c in learningResults[token])
      ensures err.None? ==> learningResults == old(TokDecremented(learningResults, token, c))
      ensures err.Some? ==> learningResults == old(learningResults)
      ensures nFrequencyByClass == if err == Some(NoTokensOfClass(c)) then old(nFrequencyByClass)
        else old(nFrequencyByClass[c := Read(nFrequencyByClass, c) - 1])
      ensures err.Some? ==>
        err.value == if old(Read(nFrequencyByClass, c) <= 0) then NoTokensOfClass(c) else TokenNotFound(token, c)
    {
      if Read(nFrequencyByClass, c) <= 0 {
        return Some(NoTokensOfClass(c));
      }
      nFrequencyByClass := nFrequencyByClass[c := nFrequencyByClass[c] - 1];
      if ReadToken(learningResults, token, c) <= 0 {
        return Some(TokenNotFound(token, c));
      }
      DecrementSteps(learningResults, token, c);
      learningResults := learningResults[token := learningResults[token][c := learningResults[token][c] - 1]];
      if learningResults[token][c] == 0 {
        learningResults := learningResults[token := learningResults[token] - {c}];
      }
      if |learningResults[token]| == 0 {
        learningResults := learningResults - {token};
      }
      err := None;
    }

    /** The token loop of unlearn (lines 91-111). */
    method UncountTokens(doc: Document<T>) returns (err: Option<Error<T>>)
      requires NonNegative(Snapshot())
      modifies this`learningResults, this`nFrequencyByClass
      ensures err.None? <==> TokensLast(old(Snapshot()), doc)
      ensures err.Some? ==> err.value.NoTokensOfClass? || err.value.TokenNotFound?
      ensures err.None? ==> FreqChanged(old(nFrequencyByClass), nFrequencyByClass, doc.spamClass, -|TokenSet(doc)|)
      ensures err.None? ==> TokChanged(old(learningResults), learningResults, doc.spamClass, TokenSet(doc), -1)
      ensures err.Some? ==> PartlyUncounted(old(Snapshot()), Snapshot(), doc)
      ensures NonNegative(Snapshot())
    {
      hide LoopAt, TokensLast, PartlyUncounted, NonNegative, FreqChanged, TokChanged, TokDecremented;
      ghost var before := Snapshot();
      var tokens := RemoveDuplicate(doc.tokens);
      LoopStarts(before, doc, tokens);
      for j := 0 to |tokens|
        invariant LoopAt(before, Snapshot(), doc, tokens, j)
      {
        ghost var now := Snapshot();
        err := UncountToken(tokens[j], doc.spamClass);
        if err.Some? {
          LoopFails(before, now, Snapshot(), doc, tokens, j, err.value);
          return;
        }
        LoopGoesOn(before, now, Snapshot(), doc, tokens, j);
      }
      err := None;
      LoopEnds(before, Snapshot(), doc, tokens);
    }

    /** The round of unlearn for one document (lines 86-121). */
    method UnlearnOne(doc: Document<T>) returns (err: Option<Error<T>>)
      requires NonNegative(Snapshot())
      modifies this
      ensures nAllDocument == old(nAllDocument) && NonNegative(Snapshot())
      ensures err.None? <==> old(CanUnlearnOne(Snapshot(), doc))
      ensures err == Some(NoDocumentsOfClass(doc.spamClass)) <==> old(Read(nDocumentByClass, doc.spamClass) <= 0)
      ensures err != Some(TooManyDocuments)
      ensures err.None? ==> UnlearnedOne(old(Snapshot()), Snapshot(), doc)
      ensures err.Some? ==> FailedOne(old(Snapshot()), Snapshot(), doc)
    {
      ghost var before := Snapshot();
      NonNegativeMeans(before, doc.spamClass);
      hide TokChanged, FreqChanged, ReadToken, NonNegative;
      var c := doc.spamClass;
      if Read(nDocumentByClass, c) <= 0 {
        return Some(NoDocumentsOfClass(c));
      }
      nDocumentByClass := nDocumentByClass[c := nDocumentByClass[c] - 1];
      DocumentLess(before, Snapshot(), c);
      err := UncountTokens(doc);
      if err.Some? {
        SamePart(before, Snapshot(), doc);
        return;
      }
      ghost var uncounted := Snapshot();
      UnlearnOneRemoves(before, uncounted, doc);
      if CountsCanonical(before) {
        UnlearnOneCanonical(before, uncounted, doc);
      }
      if nDocumentByClass[c] == 0 {
        nDocumentByClass := nDocumentByClass - {c};
        nFrequencyByClass := nFrequencyByClass - {c};
        priorProbabilities := priorProbabilities - {c};
      } else {
        priorProbabilities := priorProbabilities[c := Ratio(nDocumentByClass[c], nAllDocument)];
      }
      CleanedUpNonNegative(uncounted, c);
    }

    /** unlearn. It is not atomic: when it fails half way, the number of all documents stays
        reduced, the earlier documents stay gone, and so do the tokens that went before. */
    method Unlearn(docs: seq<Document<T>>) returns (err: Option<Error<T>>)
      requires NonNegative(Snapshot())
      modifies this
      ensures NonNegative(Snapshot())
      ensures err.None? <==> old(CanUnlearn(Snapshot(), docs))
      ensures err.None? ==> Removed(old(Snapshot()), Snapshot(), docs)
      ensures err.None? && old(Canonical(Snapshot())) ==>
        Canonical(Snapshot()) && PriorsTouched(old(Snapshot()), Snapshot(), docs)
      ensures err == Some(TooManyDocuments) <==> |docs| > old(nAllDocument)
      ensures if err == Some(TooManyDocuments) then Snapshot() == old(Snapshot())
        else nAllDocument == old(nAllDocument) - |docs|
      ensures err.Some? && err != Some(TooManyDocuments) ==> FailedAt(old(Snapshot()), Snapshot(), docs)
    {
      hide NonNegative, CanUnlearn, CanUnlearnOne, Removed, RemovedOne, Canonical, CountsCanonical, PriorsTouched;
      hide DocumentUncounted, CleanedUp, Underway, FailedOne, FailedAt;
      ghost var before := Snapshot();
      NonNegativeMeans(before, ClassSpam);
      if |docs| > nAllDocument {
        CannotUnlearnMore(before, docs);
        return Some(TooManyDocuments);
      }
      nAllDocument := nAllDocument - |docs|;
      UnderwayStarts(before, Snapshot(), docs);
      for i := 0 to |docs|
        invariant Underway(before, Snapshot(), docs, i)
      {
        ghost var now := Snapshot();
        UnderwayMeans(before, now, docs, i);
        err := UnlearnOne(docs[i]);
        UnderwayGoesOn(before, now, Snapshot(), docs, i, err.None?);
        if err.Some? {
          FailsHere(before, now, Snapshot(), docs, i);
          return;
        }
      }
      err := None;
      UnderwayMeans(before, Snapshot(), docs, |docs|);
      UnderwayEnds(before, Snapshot(), docs);
    }
  }
}
