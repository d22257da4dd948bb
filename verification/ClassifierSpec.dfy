/** What the tables of the naive Bayes classifier of lib/tgspam/classifier.go stand for: the
    documents learned and not unlearned, counted by class and by token. */
module ClassifierSpec {
  import opened Seqs

  datatype SpamClass = ClassSpam | ClassHam

  /** The classifier never looks into a token, so any type of tokens will do. */
  datatype Document<T(==)> = Document(spamClass: SpamClass, tokens: seq<T>)

  /** The argument of the logarithm that a prior probability is. */
  datatype Ratio = Ratio(num: int, den: int)

  /** A snapshot of the classifier's fields. */
  datatype Tables<T(==)> = Tables(
    n: int,
    doc: map<SpamClass, int>,
    freq: map<SpamClass, int>,
    tok: map<T, map<SpamClass, int>>,
    prior: map<SpamClass, Ratio>)

  /** Reading an absent class yields 0. */
  function Read(m: map<SpamClass, int>, c: SpamClass): int {
    if c in m then m[c] else 0
  }

  function ReadToken<T>(m: map<T, map<SpamClass, int>>, token: T, c: SpamClass): int {
    if token in m then Read(m[token], c) else 0
  }

  // ---- counting documents ----

  function Tally<T(==,!new)>(docs: seq<Document<T>>, f: Document<T> -> nat): nat {
    if docs == [] then 0 else Tally(Init(docs), f) + f(Last(docs))
  }

  function TokenSet<T(==,!new)>(doc: Document<T>): set<T> {
    set t | t in doc.tokens
  }

  function IsOf<T(==,!new)>(c: SpamClass): Document<T> -> nat {
    (doc: Document<T>) => if doc.spamClass == c then 1 else 0
  }

  function HasToken<T(==,!new)>(token: T, c: SpamClass): Document<T> -> nat {
    (doc: Document<T>) => if doc.spamClass == c && token in doc.tokens then 1 else 0
  }

  function Width<T(==,!new)>(c: SpamClass): Document<T> -> nat {
    (doc: Document<T>) => if doc.spamClass == c then |TokenSet(doc)| else 0
  }

  /** How many documents are of class `c`. */
  function DocCount<T(==,!new)>(docs: seq<Document<T>>, c: SpamClass): nat {
    Tally(docs, IsOf(c))
  }

  /** How many documents of class `c` contain `token`. */
  function TokenCount<T(==,!new)>(docs: seq<Document<T>>, token: T, c: SpamClass): nat {
    Tally(docs, HasToken(token, c))
  }

  /** How many different tokens the documents of class `c` have, summed over the documents. */
  function FreqCount<T(==,!new)>(docs: seq<Document<T>>, c: SpamClass): nat {
    Tally(docs, Width(c))
  }

  lemma {:induction false} TallyConcat<T(!new)>(a: seq<Document<T>>, b: seq<Document<T>>, f: Document<T> -> nat)
    ensures Tally(a + b, f) == Tally(a, f) + Tally(b, f)
  {
    if b == [] {
      assert a + b == a;
    } else {
      InitLast(a, b);
      TallyConcat(a, Init(b), f);
    }
  }

  lemma TallyAppend<T(!new)>(docs: seq<Document<T>>, doc: Document, f: Document<T> -> nat)
    ensures Tally(docs + [doc], f) == Tally(docs, f) + f(doc)
  {
    InitLast(docs, [doc]);
    assert docs + Init([doc]) == docs;
  }

  lemma TallyPrefix<T(!new)>(docs: seq<Document<T>>, i: nat, f: Document<T> -> nat)
    requires i <= |docs|
    ensures Tally(docs[..i], f) <= Tally(docs, f)
  {
    assert docs == docs[..i] + docs[i..];
    TallyConcat(docs[..i], docs[i..], f);
  }

  lemma WithoutOne<T(!new)>(a: seq<Document<T>>, x: Document<T>, b: seq<Document<T>>)
    ensures multiset(a + [x] + b) == multiset(a + b) + multiset{x}
  {
    assert multiset(a + [x] + b) == multiset(a) + multiset{x} + multiset(b);
  }

  lemma SplitAt<T(!new)>(b: seq<Document<T>>, x: Document<T>) returns (front: seq<Document<T>>, back: seq<Document<T>>)
    requires x in b
    ensures b == front + [x] + back
  {
    var i :| 0 <= i < |b| && b[i] == x;
    front, back := b[..i], b[i + 1..];
  }

  /** Taking one occurrence of `x` out of a permutation of `init + [x]`. */
  lemma TakeOut<T(!new)>(init: seq<Document<T>>, x: Document<T>, b: seq<Document<T>>)
    returns (front: seq<Document<T>>, back: seq<Document<T>>)
    requires multiset(init + [x]) == multiset(b)
    ensures b == front + [x] + back && multiset(init) == multiset(front + back)
  {
    assert init + [x] + [] == init + [x] && init + [] == init;
    WithoutOne(init, x, []);
    assert x in multiset(b);
    front, back := SplitAt(b, x);
    WithoutOne(front, x, back);
    SameRest(multiset(init), multiset(front + back), x);
  }

  lemma SameRest<T>(a: multiset<T>, b: multiset<T>, x: T)
    requires a + multiset{x} == b + multiset{x}
    ensures a == b
  {
    assert a == (a + multiset{x}) - multiset{x};
    assert b == (b + multiset{x}) - multiset{x};
  }

  /** The order of the documents does not matter. */
  lemma {:induction false} TallyPermutation<T(!new)>(a: seq<Document<T>>, b: seq<Document<T>>, f: Document<T> -> nat)
    requires multiset(a) == multiset(b)
    ensures Tally(a, f) == Tally(b, f)
    decreases |a|
  {
    if a == [] {
      assert |b| == |multiset(b)| == 0;
    } else {
      var init, x := Init(a), Last(a);
      assert a == init + [x];
      var front, back := TakeOut(init, x, b);
      hide Tally;
      TallyPermutation(init, front + back, f);
      TallyAppend(init, x, f);
      TallyConcat(front + [x], back, f);
      TallyAppend(front, x, f);
      TallyConcat(front, back, f);
    }
  }

  lemma {:induction false} EmptyClass<T(!new)>(docs: seq<Document<T>>, c: SpamClass)
    requires DocCount(docs, c) == 0
    ensures FreqCount(docs, c) == 0 && forall k :: TokenCount(docs, k, c) == 0
  {
    if docs != [] {
      EmptyClass(Init(docs), c);
      forall k
        ensures TokenCount(docs, k, c) == 0
      {
        assert TokenCount(Init(docs), k, c) == 0;
      }
    }
  }

  // ---- what the counts are ----

  lemma {:induction false} TallyIsPositions<T(!new)>(
    docs: seq<Document<T>>, f: Document<T> -> nat, p: Document<T> -> bool)
    requires forall d :: f(d) == if p(d) then 1 else 0
    ensures Tally(docs, f) == |Positions(docs, p)|
  {
    if docs == [] {
      assert Positions(docs, p) == {};
    } else {
      TallyIsPositions(Init(docs), f, p);
      PositionsInit(docs, p);
    }
  }

  /** The documents of a class, and those of them that have a token. */
  lemma DocumentsCounted<T(!new)>(docs: seq<Document<T>>, k: T, c: SpamClass)
    ensures DocCount(docs, c) == |set i: nat | i < |docs| && docs[i].spamClass == c|
    ensures TokenCount(docs, k, c) == |set i: nat | i < |docs| && docs[i].spamClass == c && k in docs[i].tokens|
  {
    var ofClass := (d: Document<T>) => d.spamClass == c;
    var withToken := (d: Document<T>) => d.spamClass == c && k in d.tokens;
    TallyIsPositions(docs, IsOf(c), ofClass);
    TallyIsPositions(docs, HasToken(k, c), withToken);
    assert Positions(docs, ofClass) == set i: nat | i < |docs| && docs[i].spamClass == c;
    assert Positions(docs, withToken) == set i: nat | i < |docs| && docs[i].spamClass == c && k in docs[i].tokens;
  }

  // ---- tables ----

  /** No entry of the count maps is zero, and the priors are those of the known classes. The
      frequencies alone may keep a zero entry. */
  ghost predicate Canonical<T(!new)>(t: Tables<T>) {
    && (forall c :: c in t.doc ==> t.doc[c] > 0)
    && (forall k :: k in t.tok ==> t.tok[k] != map[])
    && (forall k, c :: k in t.tok && c in t.tok[k] ==> t.tok[k][c] > 0)
    && (forall c :: c in t.freq ==> c in t.doc && t.freq[c] >= 0)
    && t.prior.Keys == t.doc.Keys
  }

  /** `after` is `before` with the counts of `docs` added. */
  ghost predicate Added<T(!new)>(before: Tables<T>, after: Tables<T>, docs: seq<Document<T>>) {
    && after.n == before.n + |docs|
    && (forall c :: Read(after.doc, c) == Read(before.doc, c) + DocCount(docs, c))
    && (forall k, c :: ReadToken(after.tok, k, c) == ReadToken(before.tok, k, c) + TokenCount(docs, k, c))
    && (forall c :: Read(after.freq, c) == Read(before.freq, c) + FreqCount(docs, c))
    && (forall c :: c in after.freq <==> c in before.freq || FreqCount(docs, c) > 0)
  }

  /** `after` is `before` with the counts of `docs` taken away. A class that runs out of
      documents also loses its frequency, whatever was left of it. */
  ghost predicate Removed<T(!new)>(before: Tables<T>, after: Tables<T>, docs: seq<Document<T>>) {
    && after.n == before.n - |docs|
    && (forall c :: Read(after.doc, c) == Read(before.doc, c) - DocCount(docs, c))
    && (forall k, c :: ReadToken(after.tok, k, c) == ReadToken(before.tok, k, c) - TokenCount(docs, k, c))
    && (forall c :: Read(after.freq, c) ==
         if Emptied(before, docs, c) then 0 else Read(before.freq, c) - FreqCount(docs, c))
    && (forall c :: c in after.freq <==> c in before.freq && !Emptied(before, docs, c))
  }

  predicate Emptied<T(==,!new)>(before: Tables<T>, docs: seq<Document<T>>, c: SpamClass) {
    Read(before.doc, c) == DocCount(docs, c) > 0
  }

  /** The counts of `docs` are there to be taken away. */
  ghost predicate CanUnlearn<T(!new)>(t: Tables<T>, docs: seq<Document<T>>) {
    && |docs| <= t.n
    && (forall c :: DocCount(docs, c) <= Read(t.doc, c) && FreqCount(docs, c) <= Read(t.freq, c))
    && (forall k, c :: TokenCount(docs, k, c) <= ReadToken(t.tok, k, c))
  }

  /** The tables hold exactly the counts of `docs`. */
  ghost predicate Represents<T(!new)>(t: Tables<T>, docs: seq<Document<T>>) {
    && Canonical(t)
    && t.n == |docs|
    && (forall c :: Read(t.doc, c) == DocCount(docs, c))
    && (forall k, c :: ReadToken(t.tok, k, c) == TokenCount(docs, k, c))
    && (forall c :: Read(t.freq, c) == FreqCount(docs, c))
  }

  /** Every prior is the share of its class among all documents. */
  ghost predicate PriorsFresh<T(!new)>(t: Tables<T>) {
    t.prior == map c | c in t.doc :: Ratio(t.doc[c], t.n)
  }

  /** The documents of the two classes are all the documents. */
  predicate Balanced<T(==)>(t: Tables<T>) {
    Read(t.doc, ClassSpam) + Read(t.doc, ClassHam) == t.n
  }

  /** No prior divides by zero. */
  ghost predicate PriorsDefined<T(!new)>(t: Tables<T>) {
    forall c :: c in t.prior ==> t.prior[c].den > 0
  }

  /** The same counts; the frequency maps may differ in zero entries. */
  ghost predicate SameCounts<T(!new)>(a: Tables<T>, b: Tables<T>) {
    a.n == b.n && a.doc == b.doc && a.tok == b.tok && forall c :: Read(a.freq, c) == Read(b.freq, c)
  }

  // ---- what learning and unlearning mean for the represented documents ----

  lemma LearnRepresents<T(!new)>(before: Tables<T>, after: Tables<T>, known: seq<Document<T>>, docs: seq<Document<T>>)
    requires Represents(before, known) && Added(before, after, docs) && Canonical(after)
    ensures Represents(after, known + docs)
  {
    forall c
      ensures DocCount(known + docs, c) == DocCount(known, c) + DocCount(docs, c)
      ensures FreqCount(known + docs, c) == FreqCount(known, c) + FreqCount(docs, c)
    {
      TallyConcat(known, docs, IsOf(c));
      TallyConcat(known, docs, Width(c));
    }
    forall k, c
      ensures TokenCount(known + docs, k, c) == TokenCount(known, k, c) + TokenCount(docs, k, c)
    {
      TallyConcat(known, docs, HasToken(k, c));
    }
  }

  /** When `rest` and `docs` together are the known documents, their counts add up. */
  lemma PartsAddUp<T(!new)>(known: seq<Document<T>>, docs: seq<Document<T>>, rest: seq<Document<T>>)
    requires multiset(rest) + multiset(docs) == multiset(known)
    ensures |known| == |rest| + |docs|
    ensures forall c :: DocCount(known, c) == DocCount(rest, c) + DocCount(docs, c)
    ensures forall c :: FreqCount(known, c) == FreqCount(rest, c) + FreqCount(docs, c)
    ensures forall k, c :: TokenCount(known, k, c) == TokenCount(rest, k, c) + TokenCount(docs, k, c)
  {
    assert multiset(rest + docs) == multiset(known);
    assert |multiset(known)| == |known| && |multiset(rest + docs)| == |rest + docs|;
    forall f: Document<T> -> nat
      ensures Tally(known, f) == Tally(rest, f) + Tally(docs, f)
    {
      TallyPermutation(rest + docs, known, f);
      TallyConcat(rest, docs, f);
    }
  }

  /** Documents that were really learned can always be unlearned. */
  lemma LearnedCanBeUnlearned<T(!new)>(
    t: Tables<T>, known: seq<Document<T>>, docs: seq<Document<T>>, rest: seq<Document<T>>)
    requires Represents(t, known) && multiset(rest) + multiset(docs) == multiset(known)
    ensures CanUnlearn(t, docs)
  {
    PartsAddUp(known, docs, rest);
  }

  /** Unlearning them leaves the tables of the other documents. */
  lemma UnlearnRepresents<T(!new)>(
    before: Tables<T>, after: Tables<T>, known: seq<Document<T>>, docs: seq<Document<T>>, rest: seq<Document<T>>)
    requires Represents(before, known) && Removed(before, after, docs) && Canonical(after)
    requires multiset(rest) + multiset(docs) == multiset(known)
    ensures Represents(after, rest)
  {
    PartsAddUp(known, docs, rest);
    forall c
      ensures Read(after.freq, c) == FreqCount(rest, c)
    {
      if Emptied(before, docs, c) {
        EmptyClass(rest, c);
      }
    }
  }

  lemma {:induction false} ClassesAddUp<T(!new)>(docs: seq<Document<T>>)
    ensures DocCount(docs, ClassSpam) + DocCount(docs, ClassHam) == |docs|
  {
    if docs != [] {
      ClassesAddUp(Init(docs));
    }
  }

  /** Learning and a successful unlearning keep the documents balanced, whatever documents they are,
      and so does representing documents. */
  lemma StaysBalanced<T(!new)>(before: Tables<T>, after: Tables<T>, docs: seq<Document<T>>)
    ensures Represents(before, docs) ==> Balanced(before)
    ensures Balanced(before) && (Added(before, after, docs) || Removed(before, after, docs)) ==> Balanced(after)
  {
    ClassesAddUp(docs);
    hide DocCount, FreqCount, TokenCount, ReadToken, Canonical;
  }

  /** A known class has at most all the documents. */
  lemma ClassWithinAll<T(!new)>(t: Tables<T>, c: SpamClass)
    requires Canonical(t) && Balanced(t) && c in t.doc
    ensures 0 < t.doc[c] <= t.n
  {
    var other := if c == ClassSpam then ClassHam else ClassSpam;
    assert other in t.doc ==> t.doc[other] > 0;
  }

  lemma SameMaps<T(!new)>(a: Tables<T>, b: Tables<T>)
    requires Canonical(a) && Canonical(b)
    requires forall c :: Read(a.doc, c) == Read(b.doc, c)
    requires forall k, c :: ReadToken(a.tok, k, c) == ReadToken(b.tok, k, c)
    ensures a.doc == b.doc && a.tok == b.tok
  {
    forall c
      ensures (c in a.doc <==> c in b.doc) && (c in a.doc ==> a.doc[c] == b.doc[c])
    {
      assert Read(a.doc, c) == Read(b.doc, c);
    }
    forall k
      ensures (k in a.tok <==> k in b.tok) && (k in a.tok ==> a.tok[k] == b.tok[k])
    {
      SameToken(a, b, k);
    }
  }

  lemma SameToken<T(!new)>(a: Tables<T>, b: Tables<T>, k: T)
    requires Canonical(a) && Canonical(b)
    requires forall c :: ReadToken(a.tok, k, c) == ReadToken(b.tok, k, c)
    ensures (k in a.tok <==> k in b.tok) && (k in a.tok ==> a.tok[k] == b.tok[k])
  {
    SomeCount(a, b, k);
    SomeCount(b, a, k);
    if k in a.tok {
      forall c
        ensures (c in a.tok[k] <==> c in b.tok[k]) && (c in a.tok[k] ==> a.tok[k][c] == b.tok[k][c])
      {
        assert ReadToken(a.tok, k, c) == ReadToken(b.tok, k, c);
      }
    }
  }

  lemma SomeCount<T(!new)>(a: Tables<T>, b: Tables<T>, k: T)
    requires Canonical(a) && Canonical(b)
    requires forall c :: ReadToken(a.tok, k, c) == ReadToken(b.tok, k, c)
    ensures k in a.tok ==> k in b.tok
  {
    if k in a.tok {
      var c :| c in a.tok[k];
      assert ReadToken(a.tok, k, c) > 0;
    }
  }

  /** The tables depend on the multiset of documents only: neither the order nor the way they
      came about shows. */
  lemma TablesAreUnique<T(!new)>(a: Tables<T>, b: Tables<T>, docsA: seq<Document<T>>, docsB: seq<Document<T>>)
    requires Represents(a, docsA) && Represents(b, docsB) && multiset(docsA) == multiset(docsB)
    ensures SameCounts(a, b)
  {
    assert multiset([]) + multiset(docsB) == multiset(docsA);
    PartsAddUp(docsA, docsB, []);
    SameMaps(a, b);
  }

  /** Taking away what was added is the identity, and so is the converse unless a class was
      emptied with frequency left over. */
  lemma AddThenRemove<T(!new)>(t0: Tables<T>, t1: Tables<T>, t2: Tables<T>, docs: seq<Document<T>>)
    requires Canonical(t0) && Canonical(t1) && Canonical(t2) && Added(t0, t1, docs) && Removed(t1, t2, docs)
    ensures SameCounts(t0, t2)
  {
    SameMaps(t0, t2);
    forall c
      ensures Read(t0.freq, c) == Read(t2.freq, c)
    {
      if Emptied(t1, docs, c) {
        NotThereBefore(t0, t1, docs, c);
      }
    }
  }

  lemma NotThereBefore<T(!new)>(t0: Tables<T>, t1: Tables<T>, docs: seq<Document<T>>, c: SpamClass)
    requires Canonical(t0) && Added(t0, t1, docs)
    ensures Emptied(t1, docs, c) ==> c !in t0.doc && c !in t0.freq
    ensures c !in t0.doc && FreqCount(docs, c) > 0 ==> Emptied(t1, docs, c)
  {
    assert c in t0.doc ==> Read(t0.doc, c) > 0;
    if DocCount(docs, c) == 0 {
      EmptyClass(docs, c);
    }
  }

  /** Learning and unlearning leave the very same frequency map, too, unless they make an entry of
      0 for a class that had documents, but none with a token. */
  lemma SameFrequencies<T(!new)>(t0: Tables<T>, t1: Tables<T>, t2: Tables<T>, docs: seq<Document<T>>)
    requires Canonical(t0) && Canonical(t1) && Canonical(t2) && Added(t0, t1, docs) && Removed(t1, t2, docs)
    ensures t0.freq == t2.freq <==> forall c :: c in t0.doc && FreqCount(docs, c) > 0 ==> c in t0.freq
  {
    AddThenRemove(t0, t1, t2, docs);
    hide FreqCount, Emptied, Canonical;
    forall c
      ensures c in t2.freq <==> c in t0.freq || (c in t0.doc && FreqCount(docs, c) > 0)
      ensures Read(t0.freq, c) == Read(t2.freq, c)
    {
      EntriesAfter(t0, t1, t2, docs, c);
    }
    SameReads(t0.freq, t2.freq);
  }

  lemma EntriesAfter<T(!new)>(t0: Tables<T>, t1: Tables<T>, t2: Tables<T>, docs: seq<Document<T>>, c: SpamClass)
    requires Canonical(t0) && Added(t0, t1, docs) && Removed(t1, t2, docs)
    ensures c in t2.freq <==> c in t0.freq || (c in t0.doc && FreqCount(docs, c) > 0)
  {
    NotThereBefore(t0, t1, docs, c);
    hide FreqCount;
    assert c in t0.doc ==> !Emptied(t1, docs, c);
    assert c in t0.freq ==> c in t0.doc;
  }

  lemma SameReads(a: map<SpamClass, int>, b: map<SpamClass, int>)
    requires forall c :: Read(a, c) == Read(b, c)
    ensures a == b <==> forall c :: c in a <==> c in b
  {
    if forall c :: c in a <==> c in b {
      forall c | c in a
        ensures a[c] == b[c]
      {
        assert Read(a, c) == Read(b, c);
      }
    }
  }

  lemma DocumentsRestored<T(!new)>(t0: Tables<T>, t1: Tables<T>, t2: Tables<T>, docs: seq<Document<T>>)
    requires Canonical(t0) && Canonical(t2) && Removed(t0, t1, docs) && Added(t1, t2, docs)
    ensures t0.n == t2.n && t0.doc == t2.doc && t0.tok == t2.tok
  {
    hide Canonical, FreqCount, DocCount, TokenCount, Emptied;
    SameMaps(t0, t2);
  }

  lemma FrequencyRestored<T(!new)>(t0: Tables<T>, t1: Tables<T>, t2: Tables<T>, docs: seq<Document<T>>, c: SpamClass)
    requires Removed(t0, t1, docs) && Added(t1, t2, docs)
    ensures Read(t2.freq, c) == if Emptied(t0, docs, c) then FreqCount(docs, c) else Read(t0.freq, c)
  {
    hide FreqCount, DocCount, TokenCount, Emptied, ReadToken;
  }

  lemma RemoveThenAdd<T(!new)>(t0: Tables<T>, t1: Tables<T>, t2: Tables<T>, docs: seq<Document<T>>)
    requires Canonical(t0) && Canonical(t1) && Canonical(t2) && Removed(t0, t1, docs) && Added(t1, t2, docs)
    ensures SameCounts(t0, t2) <==> forall c :: Emptied(t0, docs, c) ==> Read(t0.freq, c) == FreqCount(docs, c)
  {
    hide FreqCount, Canonical, Removed, Added, Emptied;
    DocumentsRestored(t0, t1, t2, docs);
    forall c
      ensures Read(t2.freq, c) == if Emptied(t0, docs, c) then FreqCount(docs, c) else Read(t0.freq, c)
    {
      FrequencyRestored(t0, t1, t2, docs, c);
    }
  }

  /** For documents that were really learned it is the identity without exception. */
  lemma RemoveThenAddLearned<T(!new)>(
    t: Tables<T>, known: seq<Document<T>>, docs: seq<Document<T>>, rest: seq<Document<T>>, c: SpamClass)
    requires Represents(t, known) && multiset(rest) + multiset(docs) == multiset(known)
    ensures Emptied(t, docs, c) ==> Read(t.freq, c) == FreqCount(docs, c)
  {
    PartsAddUp(known, docs, rest);
    if Emptied(t, docs, c) {
      EmptyClass(rest, c);
    }
  }
}
