/** The table of user spam reports, app/storage/reports.go: a sequence of rows in the order of
    insertion, with the queries as functions over it. */
module ReportTable {
  import opened Seqs

  /** What the reports are about; the storage scopes every query to its own gid. */
  datatype Message = Message(gid: string, msgID: int, chatID: int)

  datatype Report = Report(
    message: Message,
    reporter: int,
    reported: int,
    text: string,
    time: int,
    notificationSent: bool,
    adminMsgID: int)

  /** Seven days, in nanoseconds. */
  const RETENTION: int := 7 * 24 * 3600 * 1000000000

  // ---- queries ----

  /** The rows that meet a condition, in their order. */
  function Keep(rows: seq<Report>, p: Report -> bool): seq<Report> {
    if rows == [] then []
    else if p(Last(rows)) then Keep(Init(rows), p) + [Last(rows)]
    else Keep(Init(rows), p)
  }

  function About(m: Message): Report -> bool {
    (r: Report) => r.message == m
  }

  function NotAbout(m: Message): Report -> bool {
    (r: Report) => r.message != m
  }

  function By(m: Message, reporter: int): Report -> bool {
    (r: Report) => r.message == m && r.reporter == reporter
  }

  function NotBy(m: Message, reporter: int): Report -> bool {
    (r: Report) => !(r.message == m && r.reporter == reporter)
  }

  function Since(gid: string, reporter: int, since: int): Report -> bool {
    (r: Report) => r.message.gid == gid && r.reporter == reporter && r.time > since
  }

  function NotBefore(gid: string, cutoff: int): Report -> bool {
    (r: Report) => !(r.message.gid == gid && r.time < cutoff)
  }

  /** The live reports of a message. */
  function Select(rows: seq<Report>, m: Message): seq<Report> {
    Keep(rows, About(m))
  }

  function CountSince(rows: seq<Report>, gid: string, reporter: int, since: int): nat {
    |Keep(rows, Since(gid, reporter, since))|
  }

  /** INSERT with ON CONFLICT DO NOTHING under the UNIQUE key. */
  function Inserted(rows: seq<Report>, r: Report): seq<Report> {
    if Keep(rows, By(r.message, r.reporter)) != [] then rows else rows + [r]
  }

  /** UPDATE of all the rows of a message. */
  function Marked(rows: seq<Report>, m: Message, adminMsgID: int): seq<Report> {
    if rows == [] then []
    else Marked(Init(rows), m, adminMsgID) +
         [if Last(rows).message == m then Last(rows).(notificationSent := true, adminMsgID := adminMsgID)
           else Last(rows)]
  }

  function Deleted(rows: seq<Report>, m: Message): seq<Report> {
    Keep(rows, NotAbout(m))
  }

  function DeletedReporter(rows: seq<Report>, m: Message, reporter: int): seq<Report> {
    Keep(rows, NotBy(m, reporter))
  }

  function Retained(rows: seq<Report>, gid: string, cutoff: int): seq<Report> {
    Keep(rows, NotBefore(gid, cutoff))
  }

  // ---- what every operation keeps ----

  /** A row and the rows stored before it: one row for each reporter of a message, later times for
      later rows, and no notified row behind one that is not. */
  ghost predicate FitsAfter(rows: seq<Report>, r: Report) {
    && (forall q :: q in rows ==> q.time < r.time)
    && (forall q :: q in rows && q.message == r.message ==> q.reporter != r.reporter)
    && (r.notificationSent ==>
          forall q :: q in rows && q.message == r.message ==> q.notificationSent && q.adminMsgID == r.adminMsgID)
    && (!r.notificationSent ==> r.adminMsgID == 0)
  }

  ghost predicate Wellformed(rows: seq<Report>) {
    rows != [] ==> Wellformed(Init(rows)) && FitsAfter(Init(rows), Last(rows))
  }

  lemma {:induction false} KeepMembers(rows: seq<Report>, p: Report -> bool)
    ensures forall r :: r in Keep(rows, p) <==> r in rows && p(r)
    ensures |Keep(rows, p)| <= |rows|
  {
    if rows != [] {
      KeepMembers(Init(rows), p);
      assert forall r :: r in rows <==> r in Init(rows) || r == Last(rows);
    }
  }

  lemma KeepNone(rows: seq<Report>, p: Report -> bool)
    requires forall r :: r in rows ==> !p(r)
    ensures Keep(rows, p) == []
  {
    var kept := Keep(rows, p);
    assert kept != [] ==> kept[0] in kept;
    KeepMembers(rows, p);
  }

  lemma KeepAppend(rows: seq<Report>, r: Report, p: Report -> bool)
    ensures Keep(rows + [r], p) == if p(r) then Keep(rows, p) + [r] else Keep(rows, p)
  {
    InitLast(rows, [r]);
    assert rows + Init([r]) == rows;
  }

  lemma {:induction false} KeepKeep(rows: seq<Report>, p: Report -> bool, q: Report -> bool, both: Report -> bool)
    requires forall r :: both(r) <==> p(r) && q(r)
    ensures Keep(Keep(rows, p), q) == Keep(rows, both)
  {
    if rows != [] {
      KeepKeep(Init(rows), p, q, both);
      if p(Last(rows)) {
        KeepAppend(Keep(Init(rows), p), Last(rows), q);
      }
    }
  }

  lemma KeepCommutes(rows: seq<Report>, p: Report -> bool, q: Report -> bool)
    ensures Keep(Keep(rows, p), q) == Keep(Keep(rows, q), p)
  {
    hide Keep;
    var both := (r: Report) => p(r) && q(r);
    KeepKeep(rows, p, q, both);
    KeepKeep(rows, q, p, both);
  }

  lemma WellformedAppend(rows: seq<Report>, r: Report)
    requires Wellformed(rows) && FitsAfter(rows, r)
    ensures Wellformed(rows + [r])
  {
    hide FitsAfter;
    InitLast(rows, [r]);
    assert rows + Init([r]) == rows;
  }

  lemma FitsAfterFewer(rows: seq<Report>, fewer: seq<Report>, r: Report)
    requires FitsAfter(rows, r) && forall q :: q in fewer ==> q in rows
    ensures FitsAfter(fewer, r)
  {
  }

  /** Any row may be deleted. */
  lemma {:induction false} KeepWellformed(rows: seq<Report>, p: Report -> bool)
    requires Wellformed(rows)
    ensures Wellformed(Keep(rows, p))
  {
    hide FitsAfter;
    if rows != [] {
      KeepWellformed(Init(rows), p);
      if p(Last(rows)) {
        KeepMembers(Init(rows), p);
        FitsAfterFewer(Init(rows), Keep(Init(rows), p), Last(rows));
        WellformedAppend(Keep(Init(rows), p), Last(rows));
      }
    }
  }

  /** The row of `Marked` for a row of the table. */
  function Mark(r: Report, m: Message, adminMsgID: int): Report {
    if r.message == m then r.(notificationSent := true, adminMsgID := adminMsgID) else r
  }

  lemma {:induction false} MarkedMembers(rows: seq<Report>, m: Message, adminMsgID: int)
    ensures forall q :: q in Marked(rows, m, adminMsgID) <==> exists r :: r in rows && q == Mark(r, m, adminMsgID)
    ensures |Marked(rows, m, adminMsgID)| == |rows|
  {
    if rows != [] {
      MarkedMembers(Init(rows), m, adminMsgID);
      assert forall r :: r in rows <==> r in Init(rows) || r == Last(rows);
      assert Marked(rows, m, adminMsgID) == Marked(Init(rows), m, adminMsgID) + [Mark(Last(rows), m, adminMsgID)];
    }
  }

  lemma FitsAfterMarked(rows: seq<Report>, r: Report, m: Message, adminMsgID: int)
    requires FitsAfter(rows, r)
    ensures FitsAfter(Marked(rows, m, adminMsgID), Mark(r, m, adminMsgID))
  {
    MarkedMembers(rows, m, adminMsgID);
    hide Marked;
  }

  lemma {:induction false} MarkedWellformed(rows: seq<Report>, m: Message, adminMsgID: int)
    requires Wellformed(rows)
    ensures Wellformed(Marked(rows, m, adminMsgID))
  {
    hide FitsAfter;
    if rows != [] {
      MarkedWellformed(Init(rows), m, adminMsgID);
      FitsAfterMarked(Init(rows), Last(rows), m, adminMsgID);
      WellformedAppend(Marked(Init(rows), m, adminMsgID), Mark(Last(rows), m, adminMsgID));
    }
  }

  lemma InsertedWellformed(rows: seq<Report>, r: Report)
    requires Wellformed(rows) && !r.notificationSent && r.adminMsgID == 0
    requires forall q :: q in rows ==> q.time < r.time
    ensures Wellformed(Inserted(rows, r))
  {
    KeepMembers(rows, By(r.message, r.reporter));
    InitLast(rows, [r]);
    assert rows + Init([r]) == rows;
    if Inserted(rows, r) == rows + [r] {
      forall q | q in rows && q.message == r.message
        ensures q.reporter != r.reporter
      {
        assert By(r.message, r.reporter)(q) <==> q.reporter == r.reporter;
        assert q !in Keep(rows, By(r.message, r.reporter));
      }
    }
  }

  // ---- what it means for the reports of a message ----

  /** The notified rows come first and share one admin message. */
  ghost predicate NotifiedFirst(live: seq<Report>) {
    exists n: nat, id: int :: n <= |live| && NotifiedUpTo(live, n, id)
  }

  ghost predicate NotifiedUpTo(live: seq<Report>, n: nat, id: int)
    requires n <= |live|
  {
    && (forall i :: 0 <= i < n ==> live[i].notificationSent && live[i].adminMsgID == id)
    && (forall i :: n <= i < |live| ==> !live[i].notificationSent && live[i].adminMsgID == 0)
  }

  ghost predicate EarlierFirst(live: seq<Report>) {
    forall i, j :: 0 <= i < j < |live| ==> live[i].time < live[j].time
  }

  function Reporters(live: seq<Report>): (s: seq<int>)
    ensures |s| == |live|
  {
    seq(|live|, i requires 0 <= i < |live| => live[i].reporter)
  }

  /** In a well-formed table, the live reports of a message are in the order of their times, are
      by distinct reporters, and the notified ones are a prefix sharing one admin message. */
  lemma {:induction false} LiveReports(rows: seq<Report>, m: Message)
    requires Wellformed(rows)
    ensures EarlierFirst(Select(rows, m)) && NoDup(Reporters(Select(rows, m))) && NotifiedFirst(Select(rows, m))
  {
    hide EarlierFirst, NoDup, NotifiedFirst, FitsAfter;
    if rows == [] {
      NoLiveReports();
    } else {
      LiveReports(Init(rows), m);
      if Last(rows).message == m {
        var live := Select(Init(rows), m);
        KeepMembers(Init(rows), About(m));
        FitsAfterFewer(Init(rows), live, Last(rows));
        LiveAppendOrder(live, Last(rows));
        LiveAppendReporter(live, Last(rows));
        LiveAppendNotified(live, Last(rows));
      }
    }
  }

  lemma NoLiveReports()
    ensures EarlierFirst([]) && NoDup(Reporters([])) && NotifiedFirst([])
  {
    assert NotifiedUpTo([], 0, 0);
  }

  lemma LiveAppendOrder(live: seq<Report>, r: Report)
    requires EarlierFirst(live) && FitsAfter(live, r)
    ensures EarlierFirst(live + [r])
  {
  }

  lemma LiveAppendReporter(live: seq<Report>, r: Report)
    requires NoDup(Reporters(live)) && FitsAfter(live, r) && forall q :: q in live ==> q.message == r.message
    ensures NoDup(Reporters(live + [r]))
  {
    assert Reporters(live + [r]) == Reporters(live) + [r.reporter];
    forall i | 0 <= i < |live|
      ensures Reporters(live)[i] != r.reporter
    {
      assert live[i] in live;
    }
  }

  lemma LiveAppendNotified(live: seq<Report>, r: Report)
    requires NotifiedFirst(live) && FitsAfter(live, r) && forall q :: q in live ==> q.message == r.message
    ensures NotifiedFirst(live + [r])
  {
    if r.notificationSent {
      assert NotifiedUpTo(live + [r], |live| + 1, r.adminMsgID);
    } else {
      var n: nat, id: int :| n <= |live| && NotifiedUpTo(live, n, id);
      assert NotifiedUpTo(live + [r], n, id);
    }
  }

  /** So the first report tells whether any is notified. */
  lemma FirstTellsAll(rows: seq<Report>, m: Message)
    requires Wellformed(rows) && Select(rows, m) != []
    ensures Select(rows, m)[0].notificationSent <==> exists r :: r in rows && r.message == m && r.notificationSent
  {
    LiveReports(rows, m);
    KeepMembers(rows, About(m));
    var live := Select(rows, m);
    assert live[0] in live;
    if r :| r in rows && r.message == m && r.notificationSent {
      assert About(m)(r);
      assert r in live;
    }
  }

  // ---- ORDER BY report_time ----

  /** What the database may answer: the rows in the order of their times, with no promise about
      equal times. */
  ghost predicate Answers(answer: seq<Report>, live: seq<Report>) {
    multiset(answer) == multiset(live) && InOrder(answer)
  }

  function InsertByTime(s: seq<Report>, r: Report): seq<Report> {
    if s == [] || Last(s).time <= r.time then s + [r] else InsertByTime(Init(s), r) + [Last(s)]
  }

  ghost predicate NotLater(s: seq<Report>, time: int) {
    forall q :: q in s ==> q.time <= time
  }

  ghost predicate InOrder(s: seq<Report>) {
    forall i, j :: 0 <= i < j < |s| ==> s[i].time <= s[j].time
  }

  lemma InOrderAppend(s: seq<Report>, r: Report)
    requires InOrder(s) && NotLater(s, r.time)
    ensures InOrder(s + [r])
  {
  }

  lemma {:induction false} InsertKeepsOrder(s: seq<Report>, r: Report)
    requires InOrder(s)
    ensures InOrder(InsertByTime(s, r)) && multiset(InsertByTime(s, r)) == multiset(s) + multiset{r}
    ensures forall q :: q in InsertByTime(s, r) ==> q in s || q == r
  {
    if s == [] || Last(s).time <= r.time {
      InOrderAppend(s, r);
    } else {
      InsertKeepsOrder(Init(s), r);
      assert s == Init(s) + [Last(s)];
      InOrderAppend(InsertByTime(Init(s), r), Last(s));
    }
  }

  lemma AnswersAppend(answer: seq<Report>, live: seq<Report>, r: Report)
    requires Answers(answer, live)
    ensures Answers(InsertByTime(answer, r), live + [r])
  {
    InsertKeepsOrder(answer, r);
    hide InsertByTime, InOrder;
    assert multiset(live + [r]) == multiset(live) + multiset{r};
  }

  lemma NoAnswer()
    ensures Answers([], [])
  {
  }

  method SortByTime(live: seq<Report>) returns (answer: seq<Report>)
    ensures Answers(answer, live)
  {
    hide Answers, InsertByTime;
    answer := [];
    NoAnswer();
    for i := 0 to |live|
      invariant Answers(answer, live[..i])
    {
      AnswersAppend(answer, live[..i], live[i]);
      assert live[..i + 1] == live[..i] + [live[i]];
      answer := InsertByTime(answer, live[i]);
    }
    assert live[..|live|] == live;
  }

  /** The last of the answer is the last of the live reports. */
  lemma SameLast(answer: seq<Report>, live: seq<Report>)
    requires Answers(answer, live) && EarlierFirst(live) && live != []
    ensures answer != [] && Last(answer) == Last(live)
  {
    assert |answer| == |multiset(answer)| == |multiset(live)| == |live|;
    var a, l := Last(answer), Last(live);
    assert a in multiset(answer) && l in multiset(live);
    assert a in live && l in answer;
    var i :| 0 <= i < |live| && live[i] == a;
    var j :| 0 <= j < |answer| && answer[j] == l;
  }

  lemma MultisetInit(s: seq<Report>)
    requires s != []
    ensures multiset(Init(s)) == multiset(s) - multiset{Last(s)}
  {
    assert s == Init(s) + [Last(s)];
    assert multiset(s) == multiset(Init(s)) + multiset{Last(s)};
  }

  lemma InOrderInit(s: seq<Report>)
    requires s != [] && InOrder(s)
    ensures InOrder(Init(s))
  {
  }

  lemma AnswersInit(answer: seq<Report>, live: seq<Report>)
    requires Answers(answer, live) && live != [] && answer != [] && Last(answer) == Last(live)
    ensures Answers(Init(answer), Init(live))
  {
    InOrderInit(answer);
    hide InOrder;
    MultisetInit(answer);
    MultisetInit(live);
  }

  /** With distinct times there is only one answer. */
  lemma {:induction false} OneAnswer(answer: seq<Report>, live: seq<Report>)
    requires Answers(answer, live) && EarlierFirst(live)
    ensures answer == live
    decreases |live|
  {
    if live == [] {
      assert |answer| == |multiset(answer)| == 0;
    } else {
      SameLast(answer, live);
      AnswersInit(answer, live);
      hide Answers;
      OneAnswer(Init(answer), Init(live));
      assert answer == Init(answer) + [Last(answer)] && live == Init(live) + [Last(live)];
    }
  }

  function SortedByTime(s: seq<Report>): seq<Report> {
    if s == [] then [] else InsertByTime(SortedByTime(Init(s)), Last(s))
  }

  lemma {:induction false} SortedIsAnswer(s: seq<Report>)
    ensures Answers(SortedByTime(s), s)
  {
    hide Answers, InsertByTime;
    if s == [] {
      NoAnswer();
    } else {
      SortedIsAnswer(Init(s));
      AnswersAppend(SortedByTime(Init(s)), Init(s), Last(s));
      assert s == Init(s) + [Last(s)];
    }
  }

  ghost predicate Earliest(live: seq<Report>, r: Report) {
    r in live && forall q :: q in live ==> r.time <= q.time
  }

  /** Any of the earliest rows may come first. */
  lemma EarliestMayComeFirst(live: seq<Report>, r: Report) returns (answer: seq<Report>)
    requires Earliest(live, r)
    ensures Answers(answer, live) && answer != [] && answer[0] == r
  {
    var i :| 0 <= i < |live| && live[i] == r;
    var others := live[..i] + live[i + 1..];
    assert live == live[..i] + [r] + live[i + 1..];
    assert multiset(live) == multiset{r} + multiset(others);
    var tail := SortedByTime(others);
    SortedIsAnswer(others);
    hide SortedByTime;
    forall q | q in tail
      ensures r.time <= q.time
    {
      assert q in multiset(tail);
      assert q in others;
    }
    PutFirst(r, tail);
    answer := [r] + tail;
  }

  lemma PutFirst(r: Report, tail: seq<Report>)
    requires InOrder(tail) && forall q :: q in tail ==> r.time <= q.time
    ensures InOrder([r] + tail) && multiset([r] + tail) == multiset{r} + multiset(tail)
  {
  }

  lemma FirstIsEarliest(answer: seq<Report>, live: seq<Report>)
    requires Answers(answer, live) && live != []
    ensures answer != [] && Earliest(live, answer[0])
  {
    assert |answer| == |multiset(answer)| == |multiset(live)| == |live|;
    assert answer[0] in multiset(answer);
    forall q | q in live
      ensures answer[0].time <= q.time
    {
      assert q in multiset(live);
      var j :| 0 <= j < |answer| && answer[j] == q;
    }
  }

  ghost predicate SomeNotified(live: seq<Report>) {
    exists r :: r in live && r.notificationSent
  }

  ghost predicate FirstTells(answer: seq<Report>, live: seq<Report>) {
    answer != [] && (answer[0].notificationSent <==> SomeNotified(live))
  }

  /** Whatever the database answers, the first report tells whether any is notified, exactly when
      all of the earliest reports are notified as soon as one report is. */
  lemma FirstTellsExactly(live: seq<Report>)
    requires live != []
    ensures (forall answer :: Answers(answer, live) ==> FirstTells(answer, live)) <==>
      (SomeNotified(live) ==> forall r :: Earliest(live, r) ==> r.notificationSent)
  {
    hide Answers;
    if SomeNotified(live) ==> forall r :: Earliest(live, r) ==> r.notificationSent {
      forall answer | Answers(answer, live)
        ensures FirstTells(answer, live)
      {
        FirstIsEarliest(answer, live);
      }
    } else {
      var r :| Earliest(live, r) && !r.notificationSent;
      var answer := EarliestMayComeFirst(live, r);
      assert !FirstTells(answer, live);
    }
  }

  // ---- the rate of one reporter ----

  function Within(gid: string, reporter: int, after: int, until: int): Report -> bool {
    (r: Report) => r.message.gid == gid && r.reporter == reporter && after < r.time <= until
  }

  /** When a row was stored, its reporter had not used up the limit. */
  predicate RateKept(rows: seq<Report>, limit: int, period: int) {
    rows != [] ==>
      && RateKept(Init(rows), limit, period)
      && CountSince(rows, Last(rows).message.gid, Last(rows).reporter, Last(rows).time - period) <= limit
  }

  /** Deleting rows and asking for less counts less. */
  lemma {:induction false} KeepFewer(rows: seq<Report>, p: Report -> bool, q: Report -> bool, q': Report -> bool)
    requires forall r :: q(r) ==> q'(r)
    ensures |Keep(Keep(rows, p), q)| <= |Keep(rows, q')|
  {
    if rows != [] {
      KeepFewer(Init(rows), p, q, q');
      if p(Last(rows)) {
        KeepAppend(Keep(Init(rows), p), Last(rows), q);
      }
    }
  }

  /** Counting less, without deleting. */
  lemma {:induction false} CountMonotone(rows: seq<Report>, q: Report -> bool, q': Report -> bool)
    requires forall r :: r in rows && q(r) ==> q'(r)
    ensures |Keep(rows, q)| <= |Keep(rows, q')|
  {
    if rows != [] {
      CountMonotone(Init(rows), q, q');
    }
  }

  lemma RateAppend(rows: seq<Report>, r: Report, limit: int, period: int)
    requires RateKept(rows, limit, period)
    requires CountSince(rows + [r], r.message.gid, r.reporter, r.time - period) <= limit
    ensures RateKept(rows + [r], limit, period)
  {
    hide CountSince;
    InitLast(rows, [r]);
    assert rows + Init([r]) == rows;
  }

  lemma KeepCount(rows: seq<Report>, p: Report -> bool, gid: string, reporter: int, since: int)
    requires rows != [] && p(Last(rows))
    ensures Keep(rows, p) == Keep(Init(rows), p) + [Last(rows)]
    ensures CountSince(Keep(rows, p), gid, reporter, since) <= CountSince(rows, gid, reporter, since)
  {
    KeepFewer(rows, p, Since(gid, reporter, since), Since(gid, reporter, since));
  }

  lemma {:induction false} KeepRate(rows: seq<Report>, p: Report -> bool, limit: int, period: int)
    requires RateKept(rows, limit, period)
    ensures RateKept(Keep(rows, p), limit, period)
  {
    hide CountSince;
    if rows != [] {
      KeepRate(Init(rows), p, limit, period);
      var r := Last(rows);
      if p(r) {
        hide Keep;
        KeepCount(rows, p, r.message.gid, r.reporter, r.time - period);
        RateAppend(Keep(Init(rows), p), r, limit, period);
      }
    }
  }

  lemma {:induction false} MarkedCount(
    rows: seq<Report>, m: Message, adminMsgID: int, gid: string, reporter: int, since: int)
    ensures CountSince(Marked(rows, m, adminMsgID), gid, reporter, since) == CountSince(rows, gid, reporter, since)
  {
    if rows != [] {
      MarkedCount(Init(rows), m, adminMsgID, gid, reporter, since);
      KeepAppend(Marked(Init(rows), m, adminMsgID), Mark(Last(rows), m, adminMsgID), Since(gid, reporter, since));
    }
  }

  lemma {:induction false} MarkedRate(rows: seq<Report>, m: Message, adminMsgID: int, limit: int, period: int)
    requires RateKept(rows, limit, period)
    ensures RateKept(Marked(rows, m, adminMsgID), limit, period)
  {
    if rows != [] {
      MarkedRate(Init(rows), m, adminMsgID, limit, period);
      var r := Last(rows);
      MarkedCount(rows, m, adminMsgID, r.message.gid, r.reporter, r.time - period);
      var marked := Marked(Init(rows), m, adminMsgID);
      InitLast(marked, [Mark(r, m, adminMsgID)]);
      assert marked + Init([Mark(r, m, adminMsgID)]) == marked;
    }
  }

  /** Asking for the count first, not later than the report is stored, keeps the rate. */
  lemma InsertedRate(rows: seq<Report>, r: Report, asked: int, limit: int, period: int)
    requires RateKept(rows, limit, period) && asked <= r.time
    requires CountSince(rows, r.message.gid, r.reporter, asked - period) < limit
    ensures RateKept(Inserted(rows, r), limit, period)
  {
    var since := Since(r.message.gid, r.reporter, r.time - period);
    CountMonotone(rows, since, Since(r.message.gid, r.reporter, asked - period));
    KeepAppend(rows, r, since);
    InitLast(rows, [r]);
    assert rows + Init([r]) == rows;
  }

  /** Then no window of the period's length holds more rows of one reporter than the limit. */
  lemma WindowCount(rows: seq<Report>, gid: string, reporter: int, t: int, period: int)
    requires rows != [] && Wellformed(rows) && Last(rows).time <= t
    ensures |Keep(rows, Within(gid, reporter, t - period, t))| <=
      CountSince(rows, gid, reporter, Last(rows).time - period)
  {
    CountMonotone(rows, Within(gid, reporter, t - period, t), Since(gid, reporter, Last(rows).time - period));
  }

  lemma {:induction false} RateMeans(rows: seq<Report>, gid: string, reporter: int, t: int, limit: int, period: int)
    requires Wellformed(rows) && RateKept(rows, limit, period) && limit >= 0
    ensures |Keep(rows, Within(gid, reporter, t - period, t))| <= limit
  {
    hide CountSince, FitsAfter;
    if rows != [] {
      var r := Last(rows);
      if Within(gid, reporter, t - period, t)(r) {
        WindowCount(rows, gid, reporter, t, period);
      } else {
        RateMeans(Init(rows), gid, reporter, t, limit, period);
      }
    }
  }

  // ---- the rows of other stores ----

  function NotOf(gid: string): Report -> bool {
    (r: Report) => r.message.gid != gid
  }

  /** Deleting rows of one gid leaves the rows of the others. */
  lemma DeletingIsScoped(rows: seq<Report>, gid: string, p: Report -> bool)
    requires forall r: Report :: r.message.gid != gid ==> p(r)
    ensures Keep(Keep(rows, p), NotOf(gid)) == Keep(rows, NotOf(gid))
  {
    KeepKeep(rows, p, NotOf(gid), NotOf(gid));
  }

  lemma {:induction false} MarkingIsScoped(rows: seq<Report>, m: Message, adminMsgID: int)
    ensures Keep(Marked(rows, m, adminMsgID), NotOf(m.gid)) == Keep(rows, NotOf(m.gid))
  {
    if rows != [] {
      MarkingIsScoped(Init(rows), m, adminMsgID);
      KeepAppend(Marked(Init(rows), m, adminMsgID), Mark(Last(rows), m, adminMsgID), NotOf(m.gid));
    }
  }

  /** What one store does to the table leaves the rows of the other stores alone. */
  lemma StoresAreIsolated(rows: seq<Report>, r: Report, m: Message, reporter: int, adminMsgID: int, cutoff: int)
    requires r.message.gid == m.gid
    ensures Keep(Inserted(rows, r), NotOf(m.gid)) == Keep(rows, NotOf(m.gid))
    ensures Keep(Marked(rows, m, adminMsgID), NotOf(m.gid)) == Keep(rows, NotOf(m.gid))
    ensures Keep(Deleted(rows, m), NotOf(m.gid)) == Keep(rows, NotOf(m.gid))
    ensures Keep(DeletedReporter(rows, m, reporter), NotOf(m.gid)) == Keep(rows, NotOf(m.gid))
    ensures Keep(Retained(rows, m.gid, cutoff), NotOf(m.gid)) == Keep(rows, NotOf(m.gid))
  {
    KeepAppend(rows, r, NotOf(m.gid));
    MarkingIsScoped(rows, m, adminMsgID);
    DeletingIsScoped(rows, m.gid, NotAbout(m));
    DeletingIsScoped(rows, m.gid, NotBy(m, reporter));
    DeletingIsScoped(rows, m.gid, NotBefore(m.gid, cutoff));
  }

  // ---- the storage ----

  class Table {
    var rows: seq<Report>

    constructor ()
      ensures rows == []
    {
      rows := [];
    }
  }

  /** SELECT and DELETE by a condition. */
  method Where(rows: seq<Report>, p: Report -> bool) returns (kept: seq<Report>)
    ensures kept == Keep(rows, p)
  {
    kept := [];
    for i := 0 to |rows|
      invariant kept == Keep(rows[..i], p)
    {
      assert rows[..i + 1] == rows[..i] + [rows[i]];
      KeepAppend(rows[..i], rows[i], p);
      if p(rows[i]) {
        kept := kept + [rows[i]];
      }
    }
    assert rows[..|rows|] == rows;
  }

  class Reports {
    const table: Table
    const gid: string

    constructor (table: Table, gid: string)
      ensures this.table == table && this.gid == gid
    {
      this.table, this.gid := table, gid;
    }

    /** Add, with the clean-up that follows it; `inserts` and `cleans` say whether the statements
        succeed. */
    method Add(report: Report, reportTime: Option<int>, now: int, inserts: bool, cleans: bool) returns (ok: bool)
      modifies table
      ensures ok == inserts
      ensures table.rows == if !inserts then old(table.rows)
        else Added(old(table.rows), gid, report, reportTime, now, cleans)
    {
      if !inserts {
        return false;
      }
      var time := if reportTime.Some? then reportTime.value else now;
      var stored := report.(
        message := report.message.(gid := gid), time := time, notificationSent := false, adminMsgID := 0);
      var conflicting := Where(table.rows, By(stored.message, stored.reporter));
      if conflicting == [] {
        table.rows := table.rows + [stored];
      }
      if cleans {
        table.rows := Where(table.rows, NotBefore(gid, now - RETENTION));
      }
      return true;
    }

    /** GetByMessage; the order of equal times is left open. */
    method GetByMessage(msgID: int, chatID: int) returns (reports: seq<Report>)
      ensures Answers(reports, Select(table.rows, Message(gid, msgID, chatID)))
    {
      var live := Where(table.rows, About(Message(gid, msgID, chatID)));
      reports := SortByTime(live);
    }

    /** GetReporterCountSince */
    method GetReporterCountSince(reporter: int, since: int) returns (count: int)
      ensures count == CountSince(table.rows, gid, reporter, since)
    {
      var rows := Where(table.rows, Since(gid, reporter, since));
      count := |rows|;
    }

    /** UpdateAdminMsgID */
    method UpdateAdminMsgID(msgID: int, chatID: int, adminMsgID: int)
      modifies table
      ensures table.rows == Marked(old(table.rows), Message(gid, msgID, chatID), adminMsgID)
    {
      var m: Message := Message(gid, msgID, chatID);
      var updated: seq<Report> := [];
      for i := 0 to |table.rows|
        invariant table.rows == old(table.rows)
        invariant updated == Marked(table.rows[..i], m, adminMsgID)
      {
        var r: Report := table.rows[i];
        assert table.rows[..i + 1] == table.rows[..i] + [r];
        InitLast(table.rows[..i], [r]);
        assert table.rows[..i] + Init([r]) == table.rows[..i];
        if r.message == m {
          r := r.(notificationSent := true, adminMsgID := adminMsgID);
        }
        updated := updated + [r];
      }
      assert table.rows[..|table.rows|] == table.rows;
      table.rows := updated;
    }

    /** DeleteReporter */
    method DeleteReporter(reporter: int, msgID: int, chatID: int)
      modifies table
      ensures table.rows == DeletedReporter(old(table.rows), Message(gid, msgID, chatID), reporter)
    {
      table.rows := Where(table.rows, NotBy(Message(gid, msgID, chatID), reporter));
    }

    /** DeleteByMessage */
    method DeleteByMessage(msgID: int, chatID: int)
      modifies table
      ensures table.rows == Deleted(old(table.rows), Message(gid, msgID, chatID))
    {
      table.rows := Where(table.rows, NotAbout(Message(gid, msgID, chatID)));
    }
  }

  /** What Add leaves in the table. */
  function Added(
    rows: seq<Report>, gid: string, report: Report, reportTime: Option<int>, now: int, cleans: bool): seq<Report> {
    var time := if reportTime.Some? then reportTime.value else now;
    var stored := report.(
      message := report.message.(gid := gid), time := time, notificationSent := false, adminMsgID := 0);
    var inserted := Inserted(rows, stored);
    if cleans then Retained(inserted, gid, now - RETENTION) else inserted
  }
}
