/** What becomes of the notice about a message over a whole run of the report protocol, whatever
    calls fail on the way. */
module ReportNotices {
  import opened Seqs
  import opened ReportTable
  import opened ReportProtocol

  /** `OnRecord`: the admins were told, no decision has cleared the reports, and the table still knows
      of the notice. `Forgotten`: the same, but the table does not know any more, or never did. */
  datatype Notice = NoNotice | OnRecord | Forgotten

  ghost predicate Notified(rows: seq<Report>, m: Message) {
    exists r :: r in rows && r.message == m && r.notificationSent
  }

  /** A report of the message was stored, and a new notice about it sent. */
  ghost predicate Opens(cfg: Config, rows: seq<Report>, e: Event, m: Message) {
    && e.FileReport? && MessageOf(e) == m && e.a.sends.Some?
    && exists x :: x in Step(cfg, rows, e).actions && x.Notify?
  }

  /** A ban, or a closed notice, with no report of the message left. */
  ghost predicate Decides(cfg: Config, rows: seq<Report>, e: Event, m: Message) {
    && MessageOf(e) == m && Select(Step(cfg, rows, e).rows, m) == []
    && exists x :: x in Step(cfg, rows, e).actions && (x.Ban? || x.CloseNotice?)
  }

  /** All notified reports of the message go: their only reporter is banned, or they expire when a
      report of the group, about whatever message, is stored. */
  ghost predicate Loses(cfg: Config, rows: seq<Report>, e: Event, m: Message) {
    match e
    case FileReport(gid, _, q, a) =>
      && gid == m.gid && Weighs(cfg, rows, gid, q, a) && a.cleans
      && forall r :: r in rows && r.message == m && r.notificationSent ==> r.time < q.time - RETENTION
    case BanTheReporter(message, reporter, a) =>
      && message == m && a.fetches && a.deletesReporter
      && forall r :: r in rows && r.message == m && r.notificationSent ==> r.reporter == reporter
    case ApproveBan(_, _, _) => false
    case Reject(_, _) => false
  }

  ghost function NoticeAfter(cfg: Config, rows: seq<Report>, before: Notice, e: Event, m: Message): Notice {
    if Opens(cfg, rows, e, m) then (if e.a.marks then OnRecord else Forgotten)
    else if Decides(cfg, rows, e, m) then NoNotice
    else if before == OnRecord && Loses(cfg, rows, e, m) then Forgotten
    else before
  }

  /** The notice about a message after the steps. */
  ghost function NoticeOf(cfg: Config, events: seq<Event>, m: Message): Notice {
    if events == [] then NoNotice
    else NoticeAfter(cfg, Run(cfg, Init(events)), NoticeOf(cfg, Init(events), m), Last(events), m)
  }

  // ---- one step ----

  lemma KeepNotified(rows: seq<Report>, p: Report -> bool, m: Message)
    ensures Notified(Keep(rows, p), m) <==> exists r :: r in rows && r.message == m && r.notificationSent && p(r)
  {
    KeepMembers(rows, p);
  }

  /** What storing a report does to the notified rows of a message, its own or another one. */
  lemma StoredNotified(cfg: Config, rows: seq<Report>, e: Event, m: Message)
    requires e.FileReport? && Weighs(cfg, rows, e.gid, e.q, e.a)
    ensures Notified(StoredFor(rows, MessageOf(e), e.q, e.a), m) <==> Notified(rows, m) && !Loses(cfg, rows, e, m)
  {
    hide Weighs;
    var inserted := Inserted(rows, NewReport(MessageOf(e), e.q));
    assert forall r :: r in inserted && r.notificationSent <==> r in rows && r.notificationSent;
    if e.a.cleans {
      KeepNotified(inserted, NotBefore(e.gid, e.q.time - RETENTION), m);
    }
  }

  lemma SelectNotified(rows: seq<Report>, m: Message)
    ensures Notified(rows, m) ==> Select(rows, m) != []
  {
    KeepMembers(rows, About(m));
    if Notified(rows, m) {
      var r :| r in rows && r.message == m && r.notificationSent;
      assert About(m)(r);
    }
  }

  lemma MarkedNotified(rows: seq<Report>, m: Message, adminMsgID: int, other: Message)
    ensures Select(rows, m) != [] ==> Notified(Marked(rows, m, adminMsgID), m)
    ensures other != m ==> (Notified(Marked(rows, m, adminMsgID), other) <==> Notified(rows, other))
  {
    MarkedMembers(rows, m, adminMsgID);
    KeepMembers(rows, About(m));
    if Select(rows, m) != [] {
      var r := Select(rows, m)[0];
      assert r in Select(rows, m) && About(m)(r);
      assert Mark(r, m, adminMsgID) in Marked(rows, m, adminMsgID);
    }
    hide Marked, Keep;
    forall r | r in rows && r.message == other && other != m
      ensures r in Marked(rows, m, adminMsgID)
    {
      assert Mark(r, m, adminMsgID) == r;
    }
  }

  lemma DeletedNotified(rows: seq<Report>, m: Message, other: Message)
    ensures Notified(Deleted(rows, m), other) <==> other != m && Notified(rows, other)
  {
    KeepNotified(rows, NotAbout(m), other);
  }

  /** Weighing the reports of a message, and what it means for its notice. */
  lemma WeighedNotice(cfg: Config, rows: seq<Report>, m: Message, a: Replies)
    requires Wellformed(rows)
    ensures var weighed := Weighed(cfg, rows, m, a);
      var sent := a.sends.Some? && exists x :: x in weighed.actions && x.Notify?;
      && (sent ==> !Notified(rows, m) && (Notified(weighed.rows, m) <==> a.marks))
      && (!sent ==>
            || weighed.rows == rows
            || (Select(weighed.rows, m) == [] && exists x :: x in weighed.actions && x.Ban?))
  {
    var live := Select(rows, m);
    DeletedIsGone(rows, m);
    if live != [] {
      FirstTellsAll(rows, m);
    }
    if a.sends.Some? {
      MarkedNotified(rows, m, a.sends.value, m);
    }
    hide Keep, Marked, Deleted, Select, Reporters, Wellformed;
    if a.fetches && AutoBanDue(cfg, live) {
      BanActs(cfg, rows, m, live, a);
      BansAreNoNotices(cfg, rows, m, live, a);
    } else {
      var actions := Weighed(cfg, rows, m, a).actions;
      assert actions != [] ==> actions[0] in actions;
    }
    hide AutoBanned;
  }

  lemma BanActs(cfg: Config, rows: seq<Report>, m: Message, live: seq<Report>, a: Replies)
    requires live != []
    ensures var banned := AutoBanned(cfg, rows, m, live, a);
      && (exists x :: x in banned.actions && x.Ban?)
      && (banned.rows == rows || banned.rows == Deleted(rows, m))
  {
    hide Deleted, Reporters;
    var actions := BanActions(cfg, m, live[0].reported, live[0].text);
    assert Ban(live[0].reported, m) in actions;
    assert Ban(live[0].reported, m) in AutoBanned(cfg, rows, m, live, a).actions;
  }

  /** A step keeps the table and the notice in agreement: what the table knows is changed only by a
      notice sent, a decision, or a loss. */
  ghost predicate Agrees(cfg: Config, rows: seq<Report>, e: Event, m: Message) {
    Notified(Step(cfg, rows, e).rows, m) <==>
      if Opens(cfg, rows, e, m) then e.a.marks
      else !Decides(cfg, rows, e, m) && Notified(rows, m) && !Loses(cfg, rows, e, m)
  }

  lemma WeighedOthers(cfg: Config, rows: seq<Report>, m: Message, a: Replies, other: Message)
    requires other != m
    ensures Notified(Weighed(cfg, rows, m, a).rows, other) <==> Notified(rows, other)
  {
    hide Weighed, Keep, Marked, Notified;
    WeighedRows(cfg, rows, m, a);
    DeletedNotified(rows, m, other);
    if a.sends.Some? {
      MarkedNotified(rows, m, a.sends.value, other);
    }
  }

  lemma FilingAgrees(cfg: Config, rows: seq<Report>, e: Event, m: Message)
    requires e.FileReport? && Sound(cfg, rows) && StoredBefore(rows, e.q.time) && e.q.asked <= e.q.time
    ensures Agrees(cfg, rows, e, m)
  {
    var own, q, a := MessageOf(e), e.q, e.a;
    if Weighs(cfg, rows, e.gid, q, a) {
      var stored := StoredFor(rows, own, q, a);
      StoredSound(cfg, rows, own, q, a, 0);
      SoundMeans(cfg, stored);
      StoredNotified(cfg, rows, e, m);
      FiledActions(cfg, rows, e);
      SelectNotified(Weighed(cfg, stored, own, a).rows, m);
      hide Wellformed, RateKept, Weighed, Weighs, StoredFor, Loses, Select, Notified, StoredBefore, Sound;
      if own == m {
        WeighedNotice(cfg, stored, m, a);
      } else {
        WeighedOthers(cfg, stored, own, a, m);
      }
    } else {
      hide Wellformed, RateKept, Weighed, StoredFor, Select, Notified, CountSince;
    }
  }

  /** The step of a report that is stored. */
  lemma FiledActions(cfg: Config, rows: seq<Report>, e: Event)
    requires e.FileReport? && Weighs(cfg, rows, e.gid, e.q, e.a)
    ensures var weighed := Weighed(cfg, StoredFor(rows, MessageOf(e), e.q, e.a), MessageOf(e), e.a);
      && Step(cfg, rows, e).rows == weighed.rows
      && (forall x: Action :: !x.DeleteCommand? ==> (x in Step(cfg, rows, e).actions <==> x in weighed.actions))
  {
    hide Weighed, StoredFor, CountSince;
  }

  lemma DecisionAgrees(cfg: Config, rows: seq<Report>, e: Event, m: Message)
    requires e.ApproveBan? || e.Reject?
    ensures Agrees(cfg, rows, e, m)
  {
    var own := MessageOf(e);
    DeletedNotified(rows, own, m);
    DeletedIsGone(rows, own);
    SelectNotified(rows, own);
    hide Notified, Select, Deleted;
    if Step(cfg, rows, e).actions != [] {
      assert Last(Step(cfg, rows, e).actions) == CloseNotice(own);
    }
  }

  lemma ReporterBanAgrees(cfg: Config, rows: seq<Report>, e: Event, m: Message)
    requires e.BanTheReporter?
    ensures Agrees(cfg, rows, e, m)
  {
    var own, reporter, a := e.m, e.reporter, e.a;
    var left := if a.deletesReporter then DeletedReporter(rows, own, reporter) else rows;
    KeepNotified(rows, NotBy(own, reporter), m);
    DeletedNotified(left, own, m);
    DeletedIsGone(left, own);
    SelectNotified(left, own);
    SelectNotified(rows, own);
    assert a.fetches ==> (Notified(left, m) <==> Notified(rows, m) && !Loses(cfg, rows, e, m));
    hide Notified, Select, Deleted, DeletedReporter, Loses;
    if a.fetches && Select(rows, own) != [] {
      var actions := Step(cfg, rows, e).actions;
      assert actions[1].CloseNotice? ==> CloseNotice(own) in actions;
    }
  }

  lemma StepAgrees(cfg: Config, rows: seq<Report>, e: Event, m: Message)
    requires Sound(cfg, rows) && (e.FileReport? ==> StoredBefore(rows, e.q.time) && e.q.asked <= e.q.time)
    ensures Agrees(cfg, rows, e, m)
  {
    hide *;
    if e.FileReport? {
      FilingAgrees(cfg, rows, e, m);
    } else if e.BanTheReporter? {
      ReporterBanAgrees(cfg, rows, e, m);
    } else {
      DecisionAgrees(cfg, rows, e, m);
    }
  }

  // ---- runs ----

  /** In every reachable state some report of a message is notified exactly when there is a notice
      about it that no decision has cleared and that was not lost since it was sent. */
  lemma {:induction false} NotifiedIsOnRecord(cfg: Config, events: seq<Event>, m: Message)
    requires Clock(events)
    ensures Notified(Run(cfg, events), m) <==> NoticeOf(cfg, events, m) == OnRecord
  {
    if events != [] {
      var init, e := Init(events), Last(events);
      NotifiedIsOnRecord(cfg, init, m);
      RunSound(cfg, init, if e.FileReport? then e.q.time else 0);
      hide Step, Opens, Decides, Loses, Notified, Sound, StoredBefore;
      StepAgrees(cfg, Run(cfg, init), e, m);
    }
  }

  /** The admins are due to hear of the message after this report. */
  ghost predicate Due(cfg: Config, rows: seq<Report>, e: Event)
    requires e.FileReport?
  {
    var live := Select(StoredFor(rows, MessageOf(e), e.q, e.a), MessageOf(e));
    && Weighs(cfg, rows, e.gid, e.q, e.a) && e.a.fetches && cfg.adminChat
    && live != [] && |live| >= cfg.threshold && !(cfg.autoBanThreshold > 0 && |live| >= cfg.autoBanThreshold)
  }

  /** So a report makes a new notice exactly when the admins are due to hear of the message, and no
      notice is on record: none was sent since the last decision, or the one that was is forgotten,
      or this very report lets it expire. In the last two cases the admins have two notices at once. */
  lemma NewNoticeExactly(cfg: Config, events: seq<Event>, e: Event)
    requires e.FileReport? && Clock(events + [e])
    ensures var m, rows := MessageOf(e), Run(cfg, events);
      (exists x :: x in Step(cfg, rows, e).actions && x.Notify?) <==>
        Due(cfg, rows, e) && (NoticeOf(cfg, events, m) != OnRecord || Loses(cfg, rows, e, m))
  {
    var m, rows := MessageOf(e), Run(cfg, events);
    InitLast(events, [e]);
    assert events + Init([e]) == events;
    RunSound(cfg, events, e.q.time);
    NotifiedIsOnRecord(cfg, events, m);
    hide Run, NoticeOf, Clock, ReportedBefore;
    if Weighs(cfg, rows, e.gid, e.q, e.a) {
      var stored := StoredFor(rows, m, e.q, e.a);
      StoredSound(cfg, rows, m, e.q, e.a, 0);
      SoundMeans(cfg, stored);
      StoredNotified(cfg, rows, e, m);
      FiledActions(cfg, rows, e);
      hide Step, Weighs, StoredFor, Loses, Sound, StoredBefore, Notified;
      SomeNotify(cfg, stored, m, e.a);
    } else {
      hide Weighed, StoredFor, Select, CountSince, Loses, Sound, StoredBefore, Notified;
    }
  }

  lemma SomeNotify(cfg: Config, rows: seq<Report>, m: Message, a: Replies)
    requires Wellformed(rows)
    ensures (exists x :: x in Weighed(cfg, rows, m, a).actions && x.Notify?) <==>
      var live := Select(rows, m);
      && a.fetches && cfg.adminChat && live != [] && |live| >= cfg.threshold
      && !(cfg.autoBanThreshold > 0 && |live| >= cfg.autoBanThreshold) && !Notified(rows, m)
  {
    NotifyExactly(cfg, rows, m, a);
    NoticeExactly(cfg, rows, m, a);
    hide Wellformed, Select, Reporters;
    var live, actions := Select(rows, m), Weighed(cfg, rows, m, a).actions;
    forall x | x in actions && x.Notify?
      ensures x == Notify(m, Reporters(live))
    {
      NotifiesItself(cfg, rows, m, a, x);
    }
  }

  lemma NotifiesItself(cfg: Config, rows: seq<Report>, m: Message, a: Replies, x: Action)
    requires x in Weighed(cfg, rows, m, a).actions && x.Notify?
    ensures x == Notify(m, Reporters(Select(rows, m)))
  {
    hide Keep, Marked, Deleted, Select, Reporters;
    var live := Select(rows, m);
    if a.fetches && AutoBanDue(cfg, live) {
      BansAreNoNotices(cfg, rows, m, live, a);
    }
    hide AutoBanned;
  }
}
