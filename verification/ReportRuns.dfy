/** Runs of the report protocol that reach the states in which it does not do what one expects. */
module ReportRuns {
  import opened Seqs
  import opened ReportTable
  import opened ReportProtocol
  import opened ReportNotices

  const M := Message("g", 42, 1)

  /** Every call succeeds; a message sent gets the identifier 9. */
  const FINE := Replies(true, true, true, true, true, Some(9), true, true, true, true)

  function Limits(threshold: int): Config {
    Config(threshold, 0, 0, 0, true, false)
  }

  function Asks(reporter: int, time: int): Request {
    Request(true, true, false, false, false, true, reporter, 7, 42, "x", time, time)
  }

  function Files(reporter: int, time: int, a: Replies): Event {
    FileReport("g", 1, Asks(reporter, time), a)
  }

  /** The row that such a report leaves. */
  function Row(reporter: int, time: int): Report {
    Report(M, reporter, 7, "x", time, false, 0)
  }

  lemma RunAppend(cfg: Config, events: seq<Event>, e: Event)
    ensures Run(cfg, events + [e]) == Step(cfg, Run(cfg, events), e).rows
  {
    hide Step;
    InitLast(events, [e]);
    assert events + Init([e]) == events;
  }

  lemma {:induction false} KeepAll(rows: seq<Report>, p: Report -> bool)
    requires forall r :: r in rows ==> p(r)
    ensures Keep(rows, p) == rows
  {
    if rows != [] {
      var init, last := Init(rows), Last(rows);
      assert rows == init + [last];
      assert last in rows && forall r :: r in init ==> r in rows;
      KeepAll(init, p);
    }
  }

  /** All rows are about the one message, by other reporters, and within retention. */
  ghost predicate Others(rows: seq<Report>, reporter: int, time: int) {
    forall r :: r in rows ==> r.message == M && r.reporter != reporter && r.time >= time - RETENTION
  }

  lemma StoresRow(rows: seq<Report>, reporter: int, time: int, a: Replies)
    requires Others(rows, reporter, time)
    ensures StoredFor(rows, M, Asks(reporter, time), a) == rows + [Row(reporter, time)]
    ensures Select(rows + [Row(reporter, time)], M) == rows + [Row(reporter, time)]
  {
    var r := Row(reporter, time);
    KeepNone(rows, By(M, reporter));
    KeepAll(rows + [r], NotBefore(M.gid, time - RETENTION));
    KeepAll(rows + [r], About(M));
  }

  /** One more report by somebody else, stored without a ban. */
  lemma Filing(cfg: Config, rows: seq<Report>, reporter: int, time: int, a: Replies)
    requires Others(rows, reporter, time) && cfg.rateLimit == 0 && cfg.autoBanThreshold == 0 && a.inserts
    ensures Step(cfg, rows, Files(reporter, time, a)).rows == Weighed(cfg, rows + [Row(reporter, time)], M, a).rows
    ensures forall x :: x in Weighed(cfg, rows + [Row(reporter, time)], M, a).actions ==>
      x in Step(cfg, rows, Files(reporter, time, a)).actions
    ensures Select(rows + [Row(reporter, time)], M) == rows + [Row(reporter, time)]
  {
    StoresRow(rows, reporter, time, a);
    hide Keep, Weighed, Select, StoredFor;
  }

  lemma MarkedOne(r: Report, id: int)
    requires r.message == M
    ensures Marked([r], M, id) == [r.(notificationSent := true, adminMsgID := id)]
  {
    assert Init([r]) == [];
    assert Marked([], M, id) == [];
  }

  /** A first report under threshold 1 is notified. */
  lemma FirstReport(reporter: int, time: int)
    ensures Run(Limits(1), [Files(reporter, time, FINE)]) ==
      [Row(reporter, time).(notificationSent := true, adminMsgID := 9)]
    ensures Notify(M, [reporter]) in Step(Limits(1), [], Files(reporter, time, FINE)).actions
  {
    var e := Files(reporter, time, FINE);
    RunAppend(Limits(1), [], e);
    assert [] + [e] == [e] && [] + [Row(reporter, time)] == [Row(reporter, time)];
    Filing(Limits(1), [], reporter, time, FINE);
    MarkedOne(Row(reporter, time), 9);
    assert Reporters([Row(reporter, time)]) == [reporter];
    hide Keep, Marked, Select;
  }

  /** A second report, which updates the notice of the first one, or is not weighed at all. */
  lemma SecondReport(first: int, time: int, fetches: bool)
    ensures var r1 := Row(1, first).(notificationSent := true, adminMsgID := 9);
      first <= time <= first + RETENTION ==>
        Step(Limits(1), [r1], Files(2, time, FINE.(fetches := fetches))).rows == [r1, Row(2, time)]
  {
    var r1, r2 := Row(1, first).(notificationSent := true, adminMsgID := 9), Row(2, time);
    if first <= time <= first + RETENTION {
      Filing(Limits(1), [r1], 2, time, FINE.(fetches := fetches));
      assert [r1] + [r2] == [r1, r2];
    }
    hide Keep, Marked, Select, StoredFor, Step;
  }

  /** The rows of two reports, the first one notified. */
  lemma NotifiedAndNot(time: int, fetches: bool)
    requires 0 <= time <= RETENTION
    ensures Run(Limits(1), [Files(1, 0, FINE), Files(2, time, FINE.(fetches := fetches))]) ==
      [Row(1, 0).(notificationSent := true, adminMsgID := 9), Row(2, time)]
  {
    var e1, e2 := Files(1, 0, FINE), Files(2, time, FINE.(fetches := fetches));
    hide Run, Step;
    FirstReport(1, 0);
    RunAppend(Limits(1), [e1], e2);
    assert [e1] + [e2] == [e1, e2];
    SecondReport(0, time, fetches);
  }

  /** Two reports at the same time, the first one notified, the second one stored but not weighed:
      the database may put the second one first. */
  lemma EqualTimesRun() returns (answer: seq<Report>)
    ensures var live := Select(Run(Limits(1), [Files(1, 0, FINE), Files(2, 0, FINE.(fetches := false))]), M);
      SomeNotified(live) && Answers(answer, live) && answer != [] && !answer[0].notificationSent
  {
    var r1, r2 := Row(1, 0).(notificationSent := true, adminMsgID := 9), Row(2, 0);
    hide Run;
    NotifiedAndNot(0, false);
    KeepAll([r1, r2], About(M));
    assert r1 in [r1, r2] && r2 in [r1, r2];
    answer := EarliestMayComeFirst([r1, r2], r2);
  }

  /** Two reports, and the first reporter banned. */
  function BanOne(a: Replies): seq<Event> {
    [Files(1, 0, FINE), Files(2, 1, FINE), BanTheReporter(M, 1, a)]
  }

  /** A report below the threshold is only stored. */
  lemma QuietFiling(rows: seq<Report>, reporter: int, time: int)
    requires Others(rows, reporter, time) && |rows| < 4
    ensures Step(Limits(5), rows, Files(reporter, time, FINE)).rows == rows + [Row(reporter, time)]
  {
    Filing(Limits(5), rows, reporter, time, FINE);
    hide Keep, Marked, Select, Step, StoredFor, Deleted, AutoBanned;
  }

  lemma OneReport()
    ensures Run(Limits(5), [Files(1, 0, FINE)]) == [Row(1, 0)]
  {
    var e := Files(1, 0, FINE);
    assert Run(Limits(5), []) == [];
    hide Run, Step;
    RunAppend(Limits(5), [], e);
    QuietFiling([], 1, 0);
    assert [] + [e] == [e] && [] + [Row(1, 0)] == [Row(1, 0)];
  }

  lemma TwoReports()
    ensures Run(Limits(5), [Files(1, 0, FINE), Files(2, 1, FINE)]) == [Row(1, 0), Row(2, 1)]
  {
    var e1, e2 := Files(1, 0, FINE), Files(2, 1, FINE);
    hide Run, Step;
    OneReport();
    RunAppend(Limits(5), [e1], e2);
    QuietFiling([Row(1, 0)], 2, 1);
    assert [e1] + [e2] == [e1, e2] && [Row(1, 0)] + [Row(2, 1)] == [Row(1, 0), Row(2, 1)];
  }

  /** What the queries make of the rows of two reporters. */
  lemma RowsOfTwo(r1: Report, r2: Report)
    requires r1.message == r2.message == M && r1.reporter == 1 && r2.reporter == 2
    ensures Select([r1, r2], M) == [r1, r2] && DeletedReporter([r1, r2], M, 1) == [r2]
    ensures Select([r2], M) == [r2] && Deleted([r2], M) == []
  {
    TwoRows(r1, r2, About(M));
    TwoRows(r1, r2, NotBy(M, 1));
    OneRow(r2, About(M));
    OneRow(r2, NotAbout(M));
    hide Keep;
    assert [] + [r2] == [r2] && [r1] + [r2] == [r1, r2];
  }

  lemma BanningFirst(refetches: bool)
    ensures var banned := Step(Limits(5), [Row(1, 0), Row(2, 1)], BanTheReporter(M, 1, FINE.(refetches := refetches)));
      banned.rows == if refetches then [Row(2, 1)] else []
  {
    hide Select, Deleted, DeletedReporter, ReporterBanned;
    RowsOfTwo(Row(1, 0), Row(2, 1));
    BanLeaves([Row(1, 0), Row(2, 1)], M, 1, FINE.(refetches := refetches));
  }

  lemma BanLeaves(rows: seq<Report>, m: Message, reporter: int, a: Replies)
    requires a.fetches && a.deletesReporter && a.deletes && Select(rows, m) != []
    ensures var left := DeletedReporter(rows, m, reporter);
      ReporterBanned(rows, m, reporter, a).rows ==
        if a.refetches && Select(left, m) != [] then left else Deleted(left, m)
  {
    hide Select, Deleted, DeletedReporter, Reporters;
  }

  /** The second reporter's report stays when the second read succeeds, and is lost with the first
      one's when it fails. */
  lemma OthersLostRun(refetches: bool)
    ensures var events := BanOne(FINE.(refetches := refetches));
      Clock(events) && Run(Limits(5), events) == if refetches then [Row(2, 1)] else []
  {
    var before := [Files(1, 0, FINE), Files(2, 1, FINE)];
    var e := BanTheReporter(M, 1, FINE.(refetches := refetches));
    ClockOfTwo(0, 1, 1, 2);
    assert before + [e] == BanOne(FINE.(refetches := refetches)) && Init(before + [e]) == before;
    hide Run, Step;
    TwoReports();
    RunAppend(Limits(5), before, e);
    BanningFirst(refetches);
  }

  lemma ClockOfTwo(t1: int, t2: int, reporter: int, reporter': int)
    requires t1 < t2
    ensures Clock([Files(reporter, t1, FINE), Files(reporter', t2, FINE)])
  {
    var e1, e2 := Files(reporter, t1, FINE), Files(reporter', t2, FINE);
    assert Init([e1, e2]) == [e1] && Init([e1]) == [];
  }

  /** The same report again, when the first one has just expired: the second one is kept out, and
      then the first one is dropped. */
  lemma VanishedReportRun()
    ensures var events := [Files(1, 0, FINE), Files(1, RETENTION + 1, FINE)];
      Clock(events) && Run(Limits(5), events) == []
  {
    assert RETENTION > 0;
    hide *;
    var e1, e2 := Files(1, 0, FINE), Files(1, RETENTION + 1, FINE);
    ClockOfTwo(0, RETENTION + 1, 1, 1);
    OneReport();
    RunAppend(Limits(5), [e1], e2);
    assert [e1] + [e2] == [e1, e2];
    LateRepeat();
  }

  lemma LateRepeat()
    ensures Step(Limits(5), [Row(1, 0)], Files(1, RETENTION + 1, FINE)).rows == []
  {
    OneRow(Row(1, 0), By(M, 1));
    OneRow(Row(1, 0), NotBefore("g", 1));
    NoRows(About(M));
    hide Keep, Marked;
  }

  /** Two reports, the first reporter banned, and a third report. */
  function Renotifying(): seq<Event> {
    [Files(1, 0, FINE), Files(2, 1, FINE), BanTheReporter(M, 1, FINE)]
  }

  /** The reporter whose report was notified is banned, the other one stays. */
  lemma NotifiedBanned()
    ensures var r1, r2 := Row(1, 0).(notificationSent := true, adminMsgID := 9), Row(2, 1);
      var banned := Step(Limits(1), [r1, r2], BanTheReporter(M, 1, FINE));
      banned.rows == [r2] && RestoreNotice(M, [2]) in banned.actions
  {
    var r1, r2 := Row(1, 0).(notificationSent := true, adminMsgID := 9), Row(2, 1);
    hide Select, Deleted, DeletedReporter;
    RowsOfTwo(r1, r2);
    assert Reporters([r2]) == [2];
  }

  /** A third report finds no notified row. */
  lemma ThirdReport()
    ensures Notify(M, [2, 3]) in Step(Limits(1), [Row(2, 1)], Files(3, 2, FINE)).actions
  {
    var r2, r3 := Row(2, 1), Row(3, 2);
    Filing(Limits(1), [r2], 3, 2, FINE);
    assert [r2] + [r3] == [r2, r3] && Reporters([r2, r3]) == [2, 3];
    hide Keep, Select, Marked, Step, StoredFor;
  }

  lemma NoticeAppend(cfg: Config, events: seq<Event>, e: Event, m: Message)
    ensures NoticeOf(cfg, events + [e], m) == NoticeAfter(cfg, Run(cfg, events), NoticeOf(cfg, events, m), e, m)
  {
    hide NoticeAfter, Run;
    InitLast(events, [e]);
    assert events + Init([e]) == events;
  }

  lemma TwoOnRecord()
    ensures NoticeOf(Limits(1), [Files(1, 0, FINE), Files(2, 1, FINE)], M) == OnRecord
  {
    hide Run, Step, NoticeOf, Clock;
    var r1, r2 := Row(1, 0).(notificationSent := true, adminMsgID := 9), Row(2, 1);
    NotifiedAndNot(1, true);
    assert r1 in [r1, r2];
    ClockOfTwo(0, 1, 1, 2);
    NotifiedIsOnRecord(Limits(1), [Files(1, 0, FINE), Files(2, 1, FINE)], M);
  }

  lemma BanForgets()
    ensures var r1, r2 := Row(1, 0).(notificationSent := true, adminMsgID := 9), Row(2, 1);
      NoticeAfter(Limits(1), [r1, r2], OnRecord, BanTheReporter(M, 1, FINE), M) == Forgotten
  {
    hide Step, Select;
    NotifiedBanned();
    StaysSelected();
  }

  lemma StaysSelected()
    ensures Select([Row(2, 1)], M) != []
  {
    OneRow(Row(2, 1), About(M));
    hide Keep;
  }

  /** The ban of the notified reporter makes the table forget the notice. */
  lemma ForgottenNotice()
    ensures NoticeOf(Limits(1), Renotifying(), M) == Forgotten
  {
    hide Run, Step, NoticeOf, NoticeAfter;
    var two, e3 := [Files(1, 0, FINE), Files(2, 1, FINE)], BanTheReporter(M, 1, FINE);
    assert two + [e3] == Renotifying();
    NoticeAppend(Limits(1), two, e3, M);
    NotifiedAndNot(1, true);
    TwoOnRecord();
    BanForgets();
  }

  /** A message can have two open notices: when the reporter is banned whose report was notified, the
      next report sends a second notice while the first one is still open. */
  lemma SecondNoticeRun()
    ensures Clock(Renotifying() + [Files(3, 2, FINE)])
    ensures Notify(M, [1]) in Step(Limits(1), [], Files(1, 0, FINE)).actions
    ensures RestoreNotice(M, [2]) in Step(Limits(1), Run(Limits(1), Init(Renotifying())), Last(Renotifying())).actions
    ensures NoticeOf(Limits(1), Renotifying(), M) == Forgotten
    ensures Notify(M, [2, 3]) in Step(Limits(1), Run(Limits(1), Renotifying()), Files(3, 2, FINE)).actions
  {
    hide Run, Step, Clock, NoticeOf;
    ForgottenNotice();
    var e1, e2, e3 := Files(1, 0, FINE), Files(2, 1, FINE), BanTheReporter(M, 1, FINE);
    FirstReport(1, 0);
    NotifiedAndNot(1, true);
    assert Init(Renotifying()) == [e1, e2] && [e1, e2] + [e3] == Renotifying();
    RunAppend(Limits(1), [e1, e2], e3);
    NotifiedBanned();
    ThirdReport();
    ClockOn(Renotifying(), Files(3, 2, FINE));
  }

  lemma ClockOn(events: seq<Event>, e: Event)
    requires events == Renotifying() && e == Files(3, 2, FINE)
    ensures Clock(events + [e])
  {
    var e1, e2 := Files(1, 0, FINE), Files(2, 1, FINE);
    ClockOfTwo(0, 1, 1, 2);
    assert ReportedBefore([], 2);
    BeforeAppend([], e1, 2);
    BeforeAppend([e1], e2, 2);
    BeforeAppend([e1, e2], Last(events), 2);
    assert [] + [e1] == [e1] && [e1] + [e2] == [e1, e2] && [e1, e2] + [Last(events)] == events;
    InitLast(events, [e]);
    assert events + Init([e]) == events && Init(events) == [e1, e2];
  }

  lemma BeforeAppend(events: seq<Event>, e: Event, t: int)
    requires ReportedBefore(events, t) && (e.FileReport? ==> e.q.time < t)
    ensures ReportedBefore(events + [e], t)
  {
    InitLast(events, [e]);
    assert events + Init([e]) == events;
  }

  lemma NoRows(p: Report -> bool)
    ensures Keep([], p) == []
  {
  }

  lemma OneRow(r: Report, p: Report -> bool)
    ensures Keep([r], p) == if p(r) then [r] else []
  {
    KeepAppend([], r, p);
    assert [] + [r] == [r];
  }

  lemma TwoRows(r: Report, s: Report, p: Report -> bool)
    ensures Keep([r, s], p) == (if p(r) then [r] else []) + (if p(s) then [s] else [])
  {
    OneRow(r, p);
    KeepAppend([r], s, p);
    assert [r] + [s] == [r, s];
  }
}
