/** The steps of user spam reporting, app/events/reports.go, as functions on the table of reports:
    what each step leaves in the table, which actions it asks for, and whether it succeeds. What
    Telegram and the database answer is part of the input. */
module ReportProtocol {
  import opened Seqs
  import opened ReportTable

  datatype Config = Config(
    threshold: int,
    autoBanThreshold: int,
    rateLimit: int,
    ratePeriod: int,
    adminChat: bool,
    dry: bool)

  /** A /report command: who replied to what, and when the rate was asked for and the report
      stored. */
  datatype Request = Request(
    hasReply: bool,
    hasSender: bool,
    forumTopic: bool,
    reporterSuper: bool,
    reportedSuper: bool,
    reporterApproved: bool,
    reporter: int,
    reported: int,
    msgID: int,
    text: string,
    asked: int,
    time: int)

  /** Which calls succeed; `sends` is the identifier of a message sent. */
  datatype Replies = Replies(
    counts: bool,
    inserts: bool,
    cleans: bool,
    fetches: bool,
    refetches: bool,
    sends: Option<int>,
    edits: bool,
    marks: bool,
    deletes: bool,
    deletesReporter: bool)

  datatype Action =
    | DeleteCommand
    | Unapprove(user: int)
    | LearnSpam(text: string)
    | DeleteMessage(message: Message)
    | Ban(user: int, message: Message)
    | BanReporter(reporter: int, message: Message)
    | Notify(message: Message, reporters: seq<int>)
    | UpdateNotice(adminMsgID: int, reporters: seq<int>)
    | NotifyAutoBan(message: Message, reporters: seq<int>)
    | UpdateAutoBanNotice(adminMsgID: int, reporters: seq<int>)
    | CloseNotice(message: Message)
    | RestoreNotice(message: Message, reporters: seq<int>)

  datatype Outcome = Outcome(rows: seq<Report>, actions: seq<Action>, ok: bool)

  // ---- the steps ----

  /** The actions of a ban, up to the notice. */
  function BanActions(cfg: Config, m: Message, user: int, text: string): seq<Action> {
    [Unapprove(user)]
    + (if !cfg.dry && text != "" then [LearnSpam(text)] else [])
    + (if !cfg.dry then [DeleteMessage(m)] else [])
    + [Ban(user, m)]
  }

  /** executeAutoBan for the live reports of a message. */
  function AutoBanned(cfg: Config, rows: seq<Report>, m: Message, live: seq<Report>, a: Replies): Outcome
    requires live != []
  {
    var actions := BanActions(cfg, m, live[0].reported, live[0].text);
    var cleared := if a.deletes then Deleted(rows, m) else rows;
    if !cfg.adminChat then
      Outcome(cleared, actions, true)
    else if !live[0].notificationSent then
      Outcome(if a.sends.Some? then cleared else rows, actions + [NotifyAutoBan(m, Reporters(live))], a.sends.Some?)
    else if live[0].adminMsgID == 0 then
      Outcome(rows, actions, false)
    else
      var notice := UpdateAutoBanNotice(live[0].adminMsgID, Reporters(live));
      Outcome(if a.edits then cleared else rows, actions + [notice], a.edits)
  }

  /** sendReportNotification and updateReportNotification. */
  function Noticed(cfg: Config, rows: seq<Report>, m: Message, live: seq<Report>, a: Replies): Outcome {
    if live == [] then
      Outcome(rows, [], false)
    else if !cfg.adminChat then
      Outcome(rows, [], true)
    else if live[0].notificationSent then
      Outcome(rows, [UpdateNotice(live[0].adminMsgID, Reporters(live))], a.edits)
    else
      Outcome(
        if a.sends.Some? && a.marks then Marked(rows, m, a.sends.value) else rows,
        [Notify(m, Reporters(live))],
        a.sends.Some?)
  }

  predicate AutoBanDue(cfg: Config, live: seq<Report>) {
    cfg.autoBanThreshold > 0 && |live| >= cfg.autoBanThreshold
  }

  /** checkReportThreshold */
  function Weighed(cfg: Config, rows: seq<Report>, m: Message, a: Replies): Outcome {
    var live := Select(rows, m);
    if !a.fetches then
      Outcome(rows, [], false)
    else if AutoBanDue(cfg, live) then
      AutoBanned(cfg, rows, m, live, a)
    else if |live| < cfg.threshold then
      Outcome(rows, [], true)
    else
      Noticed(cfg, rows, m, live, a)
  }

  predicate Admissible(q: Request) {
    q.hasReply && q.hasSender && !q.forumTopic && !q.reporterSuper && !q.reportedSuper
  }

  predicate RateLimited(cfg: Config, rows: seq<Report>, gid: string, q: Request) {
    cfg.rateLimit > 0 && CountSince(rows, gid, q.reporter, q.asked - cfg.ratePeriod) >= cfg.rateLimit
  }

  function NewReport(m: Message, q: Request): Report {
    Report(m, q.reporter, q.reported, q.text, q.time, false, 0)
  }

  /** The table after Add for a request. */
  function StoredFor(rows: seq<Report>, m: Message, q: Request, a: Replies): seq<Report> {
    Added(rows, m.gid, NewReport(m, q), None, q.time, a.cleans)
  }

  /** DirectUserReport */
  function Filed(cfg: Config, rows: seq<Report>, gid: string, chatID: int, q: Request, a: Replies): Outcome {
    var m := Message(gid, q.msgID, chatID);
    if !Admissible(q) then
      Outcome(rows, [], false)
    else if !q.reporterApproved then
      Outcome(rows, [DeleteCommand], false)
    else if cfg.rateLimit > 0 && !a.counts then
      Outcome(rows, [], false)
    else if RateLimited(cfg, rows, gid, q) || !a.inserts then
      Outcome(rows, [DeleteCommand], false)
    else
      var weighed := Weighed(cfg, StoredFor(rows, m, q, a), m, a);
      Outcome(weighed.rows, [DeleteCommand] + weighed.actions, true)
  }

  /** callbackReportBan */
  function BanApproved(cfg: Config, rows: seq<Report>, m: Message, user: int, a: Replies): Outcome {
    var live := Select(rows, m);
    if !a.fetches || live == [] then
      Outcome(rows, [], false)
    else
      Outcome(
        if a.deletes then Deleted(rows, m) else rows,
        BanActions(cfg, m, user, live[0].text) + [CloseNotice(m)],
        a.edits)
  }

  /** callbackReportReject */
  function Rejected(rows: seq<Report>, m: Message, a: Replies): Outcome {
    if !a.fetches || Select(rows, m) == [] then
      Outcome(rows, [], false)
    else
      Outcome(if a.deletes then Deleted(rows, m) else rows, [CloseNotice(m)], a.edits)
  }

  /** callbackReportBanReporterConfirm. When the second read fails, nobody seems to remain. */
  function ReporterBanned(rows: seq<Report>, m: Message, reporter: int, a: Replies): Outcome {
    if !a.fetches || Select(rows, m) == [] then
      Outcome(rows, [], false)
    else
      var left := if a.deletesReporter then DeletedReporter(rows, m, reporter) else rows;
      var remaining := if a.refetches then Select(left, m) else [];
      if remaining == [] then
        Outcome(if a.deletes then Deleted(left, m) else left, [BanReporter(reporter, m), CloseNotice(m)], a.edits)
      else
        Outcome(left, [BanReporter(reporter, m), RestoreNotice(m, Reporters(remaining))], a.edits)
  }

  // ---- runs ----

  datatype Event =
    | FileReport(gid: string, chatID: int, q: Request, a: Replies)
    | ApproveBan(m: Message, user: int, a: Replies)
    | Reject(m: Message, a: Replies)
    | BanTheReporter(m: Message, reporter: int, a: Replies)

  function Step(cfg: Config, rows: seq<Report>, e: Event): Outcome {
    match e
    case FileReport(gid, chatID, q, a) => Filed(cfg, rows, gid, chatID, q, a)
    case ApproveBan(m, user, a) => BanApproved(cfg, rows, m, user, a)
    case Reject(m, a) => Rejected(rows, m, a)
    case BanTheReporter(m, reporter, a) => ReporterBanned(rows, m, reporter, a)
  }

  /** The table after the steps, in this order, from an empty one. */
  function Run(cfg: Config, events: seq<Event>): seq<Report> {
    if events == [] then [] else Step(cfg, Run(cfg, Init(events)), Last(events)).rows
  }

  /** No report is stored later than `t`. */
  predicate ReportedBefore(events: seq<Event>, t: int) {
    events != [] ==> ReportedBefore(Init(events), t) && (Last(events).FileReport? ==> Last(events).q.time < t)
  }

  /** The clock: reports are stored at increasing times, each after its rate was asked for. */
  predicate Clock(events: seq<Event>) {
    events != [] ==>
      && Clock(Init(events))
      && (Last(events).FileReport? ==>
            Last(events).q.asked <= Last(events).q.time && ReportedBefore(Init(events), Last(events).q.time))
  }

  ghost predicate StoredBefore(rows: seq<Report>, t: int) {
    forall r :: r in rows ==> r.time < t
  }

  // ---- every change of the table is made of these ----

  /** What holds of a table and survives the operations that do not add reports. */
  ghost predicate Sound(cfg: Config, rows: seq<Report>) {
    Wellformed(rows) && (cfg.rateLimit > 0 ==> RateKept(rows, cfg.rateLimit, cfg.ratePeriod))
  }

  lemma KeepSound(cfg: Config, rows: seq<Report>, p: Report -> bool, t: int)
    requires Sound(cfg, rows)
    ensures Sound(cfg, Keep(rows, p))
    ensures StoredBefore(rows, t) ==> StoredBefore(Keep(rows, p), t)
  {
    KeepWellformed(rows, p);
    KeepMembers(rows, p);
    if cfg.rateLimit > 0 {
      KeepRate(rows, p, cfg.rateLimit, cfg.ratePeriod);
    }
  }

  lemma MarkedSound(cfg: Config, rows: seq<Report>, m: Message, adminMsgID: int, t: int)
    requires Sound(cfg, rows)
    ensures Sound(cfg, Marked(rows, m, adminMsgID))
    ensures StoredBefore(rows, t) ==> StoredBefore(Marked(rows, m, adminMsgID), t)
  {
    MarkedWellformed(rows, m, adminMsgID);
    MarkedMembers(rows, m, adminMsgID);
    if cfg.rateLimit > 0 {
      MarkedRate(rows, m, adminMsgID, cfg.rateLimit, cfg.ratePeriod);
    }
  }

  lemma StoredSound(cfg: Config, rows: seq<Report>, m: Message, q: Request, a: Replies, t: int)
    requires Sound(cfg, rows) && StoredBefore(rows, q.time) && q.asked <= q.time && !RateLimited(cfg, rows, m.gid, q)
    ensures Sound(cfg, StoredFor(rows, m, q, a))
    ensures StoredBefore(rows, t) && q.time < t ==> StoredBefore(StoredFor(rows, m, q, a), t)
  {
    var r := NewReport(m, q);
    var inserted := Inserted(rows, r);
    hide Keep, RateKept, Wellformed, CountSince;
    InsertedWellformed(rows, r);
    if cfg.rateLimit > 0 {
      InsertedRate(rows, r, q.asked, cfg.rateLimit, cfg.ratePeriod);
    }
    KeepSound(cfg, inserted, NotBefore(m.gid, q.time - RETENTION), t);
  }

  /** Weighing the reports of a message leaves the table, deletes them all or marks them all. */
  lemma WeighedRows(cfg: Config, rows: seq<Report>, m: Message, a: Replies)
    ensures
      || Weighed(cfg, rows, m, a).rows == rows
      || Weighed(cfg, rows, m, a).rows == Deleted(rows, m)
      || (a.sends.Some? && Weighed(cfg, rows, m, a).rows == Marked(rows, m, a.sends.value))
  {
    hide Keep, Marked, Reporters, BanActions, Deleted, Select;
  }

  lemma WeighedSound(cfg: Config, rows: seq<Report>, m: Message, a: Replies, t: int)
    requires Sound(cfg, rows)
    ensures Sound(cfg, Weighed(cfg, rows, m, a).rows)
    ensures StoredBefore(rows, t) ==> StoredBefore(Weighed(cfg, rows, m, a).rows, t)
  {
    hide Sound, StoredBefore, Keep, Marked, Weighed;
    WeighedRows(cfg, rows, m, a);
    KeepSound(cfg, rows, NotAbout(m), t);
    if a.sends.Some? {
      MarkedSound(cfg, rows, m, a.sends.value, t);
    }
  }

  lemma StepSound(cfg: Config, rows: seq<Report>, e: Event, t: int)
    requires Sound(cfg, rows)
    requires e.FileReport? ==> StoredBefore(rows, e.q.time) && e.q.asked <= e.q.time
    ensures Sound(cfg, Step(cfg, rows, e).rows)
    ensures StoredBefore(rows, t) && (e.FileReport? ==> e.q.time < t) ==> StoredBefore(Step(cfg, rows, e).rows, t)
  {
    hide Sound, StoredBefore, Keep, Marked, Weighed, RateLimited, StoredFor, CountSince;
    match e
    case FileReport(gid, chatID, q, a) =>
      var m := Message(gid, q.msgID, chatID);
      if !RateLimited(cfg, rows, gid, q) {
        StoredSound(cfg, rows, m, q, a, t);
        WeighedSound(cfg, StoredFor(rows, m, q, a), m, a, t);
      }
    case ApproveBan(m, user, a) =>
      KeepSound(cfg, rows, NotAbout(m), t);
    case Reject(m, a) =>
      KeepSound(cfg, rows, NotAbout(m), t);
    case BanTheReporter(m, reporter, a) =>
      KeepSound(cfg, rows, NotAbout(m), t);
      KeepSound(cfg, rows, NotBy(m, reporter), t);
      KeepSound(cfg, Keep(rows, NotBy(m, reporter)), NotAbout(m), t);
  }

  lemma {:induction false} RunSound(cfg: Config, events: seq<Event>, t: int)
    requires Clock(events)
    ensures Sound(cfg, Run(cfg, events))
    ensures ReportedBefore(events, t) ==> StoredBefore(Run(cfg, events), t)
  {
    hide Step;
    if events != [] {
      var e := Last(events);
      RunSound(cfg, Init(events), t);
      if e.FileReport? {
        RunSound(cfg, Init(events), e.q.time);
      }
      hide Sound, StoredBefore;
      StepSound(cfg, Run(cfg, Init(events)), e, t);
    }
  }

  // ---- what holds in every reachable state ----

  /** Whatever happens: the live reports of every message are by distinct reporters and in the
      order of their times, the notified ones are a prefix sharing one admin message, and the
      first one tells whether any is notified. */
  lemma ReachableReports(cfg: Config, events: seq<Event>, m: Message)
    requires Clock(events)
    ensures var live := Select(Run(cfg, events), m);
      && NoDup(Reporters(live)) && EarlierFirst(live) && NotifiedFirst(live)
      && (live != [] ==> (live[0].notificationSent <==> exists r :: r in live && r.notificationSent))
  {
    var rows := Run(cfg, events);
    RunSound(cfg, events, 0);
    LiveReports(rows, m);
    KeepMembers(rows, About(m));
    if Select(rows, m) != [] {
      FirstTellsAll(rows, m);
      var live := Select(rows, m);
      assert live[0] in live;
      if r :| r in live && r.notificationSent {
        assert About(m)(r);
      }
    }
  }

  lemma SoundMeans(cfg: Config, rows: seq<Report>)
    requires Sound(cfg, rows)
    ensures Wellformed(rows) && (cfg.rateLimit > 0 ==> RateKept(rows, cfg.rateLimit, cfg.ratePeriod))
  {
  }

  /** In any window of the rate period, no reporter has more live rows than the limit. */
  lemma ReachableRate(cfg: Config, events: seq<Event>, gid: string, reporter: int, t: int)
    requires Clock(events) && cfg.rateLimit > 0
    ensures |Keep(Run(cfg, events), Within(gid, reporter, t - cfg.ratePeriod, t))| <= cfg.rateLimit
  {
    hide *;
    RunSound(cfg, events, 0);
    SoundMeans(cfg, Run(cfg, events));
    RateMeans(Run(cfg, events), gid, reporter, t, cfg.rateLimit, cfg.ratePeriod);
  }

  /** The reports that DirectUserReport weighs: those live after its own was stored. */
  ghost predicate Weighs(cfg: Config, rows: seq<Report>, gid: string, q: Request, a: Replies) {
    && Admissible(q) && q.reporterApproved
    && (cfg.rateLimit > 0 ==> a.counts) && !RateLimited(cfg, rows, gid, q) && a.inserts
  }

  /** A report bans exactly when enough reports are live after it; then as many different reporters
      are, and the user banned is the reported one. */
  lemma BanNeedsReporters(
    cfg: Config, events: seq<Event>, gid: string, chatID: int, q: Request, a: Replies, user: int, m: Message)
    requires Clock(events + [FileReport(gid, chatID, q, a)])
    ensures var rows := Run(cfg, events);
      var filed := Filed(cfg, rows, gid, chatID, q, a);
      var live := Select(StoredFor(rows, Message(gid, q.msgID, chatID), q, a), Message(gid, q.msgID, chatID));
      && (Ban(user, m) in filed.actions <==>
            && Weighs(cfg, rows, gid, q, a) && a.fetches
            && cfg.autoBanThreshold > 0 && |live| >= cfg.autoBanThreshold
            && m == Message(gid, q.msgID, chatID) && user == live[0].reported)
      && (Ban(user, m) in filed.actions ==> |set r | r in live :: r.reporter| == |live| >= cfg.autoBanThreshold)
  {
    var e := FileReport(gid, chatID, q, a);
    InitLast(events, [e]);
    assert events + Init([e]) == events;
    var rows := Run(cfg, events);
    var message := Message(gid, q.msgID, chatID);
    RunSound(cfg, events, q.time);
    hide Sound, Keep, Marked, StoredFor, CountSince, Reporters, Run;
    FiledBans(cfg, rows, gid, chatID, q, a, user, m);
    if Weighs(cfg, rows, gid, q, a) {
      StoredSound(cfg, rows, message, q, a, q.time);
      SoundReporters(cfg, StoredFor(rows, message, q, a), message);
      DifferentReporters(Select(StoredFor(rows, message, q, a), message));
    }
  }

  lemma {:induction false} DifferentReporters(live: seq<Report>)
    requires NoDup(Reporters(live))
    ensures |set r | r in live :: r.reporter| == |live|
  {
    if live == [] {
      assert (set r | r in live :: r.reporter) == {};
    } else {
      var init, last := Init(live), Last(live);
      assert live == init + [last];
      assert forall i :: 0 <= i < |init| ==> Reporters(init)[i] == Reporters(live)[i] == init[i].reporter;
      DifferentReporters(init);
      forall r | r in init
        ensures r.reporter != last.reporter
      {
        var i :| 0 <= i < |init| && init[i] == r;
        assert Reporters(live)[i] != Reporters(live)[|live| - 1];
      }
      OneMoreReporter(init, last);
    }
  }

  lemma OneMoreReporter(live: seq<Report>, last: Report)
    requires forall r :: r in live ==> r.reporter != last.reporter
    ensures |set r | r in live + [last] :: r.reporter| == |set r | r in live :: r.reporter| + 1
  {
    var before := set r | r in live :: r.reporter;
    assert (set r | r in live + [last] :: r.reporter) == before + {last.reporter};
  }

  lemma SoundReporters(cfg: Config, rows: seq<Report>, m: Message)
    requires Sound(cfg, rows)
    ensures NoDup(Reporters(Select(rows, m)))
  {
    LiveReports(rows, m);
  }

  lemma FiledBans(
    cfg: Config, rows: seq<Report>, gid: string, chatID: int, q: Request, a: Replies, user: int, m: Message)
    ensures var live := Select(StoredFor(rows, Message(gid, q.msgID, chatID), q, a), Message(gid, q.msgID, chatID));
      Ban(user, m) in Filed(cfg, rows, gid, chatID, q, a).actions <==>
        && Weighs(cfg, rows, gid, q, a) && a.fetches && AutoBanDue(cfg, live)
        && m == Message(gid, q.msgID, chatID) && user == live[0].reported
  {
    hide Keep, Marked, StoredFor, CountSince, Reporters, Select, Deleted;
  }

  /** The ban leaves no report of the message exactly when its notice and the deletion succeed;
      otherwise the table stays as it was. */
  lemma BanClearsReports(cfg: Config, rows: seq<Report>, m: Message, a: Replies)
    requires a.fetches && cfg.autoBanThreshold > 0 && |Select(rows, m)| >= cfg.autoBanThreshold
    ensures var weighed := Weighed(cfg, rows, m, a);
      && (Select(weighed.rows, m) == [] <==> weighed.ok && a.deletes)
      && (!(weighed.ok && a.deletes) ==> weighed.rows == rows)
  {
    DeletedIsGone(rows, m);
    hide Keep, Reporters, Deleted, Select, BanActions;
  }

  lemma DeletedIsGone(rows: seq<Report>, m: Message)
    ensures Select(Deleted(rows, m), m) == []
  {
    var left := Select(Deleted(rows, m), m);
    assert left != [] ==> left[0] in left;
    KeepMembers(rows, NotAbout(m));
    KeepMembers(Deleted(rows, m), About(m));
  }

  // ---- what becomes of a report ----

  /** How many rows of a reporter are newer than a time. */
  lemma CountSinceMeans(rows: seq<Report>, gid: string, reporter: int, since: int)
    ensures CountSince(rows, gid, reporter, since) == |set i: nat |
      i < |rows| && rows[i].message.gid == gid && rows[i].reporter == reporter && rows[i].time > since|
  {
    var p := Since(gid, reporter, since);
    KeptPositions(rows, p);
    assert Positions(rows, p) == set i: nat |
      i < |rows| && rows[i].message.gid == gid && rows[i].reporter == reporter && rows[i].time > since;
  }

  lemma {:induction false} KeptPositions(rows: seq<Report>, p: Report -> bool)
    ensures |Keep(rows, p)| == |Positions(rows, p)|
  {
    if rows == [] {
      assert Positions(rows, p) == {};
    } else {
      KeptPositions(Init(rows), p);
      PositionsInit(rows, p);
    }
  }

  /** A command is served exactly when it replies to a message of a user in no forum topic, neither of
      the two is a superuser, the reporter is approved, fewer than `rateLimit` of his rows are newer than
      the period before it (if there is a limit, and they could be counted), and the row could be stored.
      It is deleted unless it is not admitted at all, or the rows could not be counted; and a command
      that is not served changes no row. */
  lemma FilingExactly(cfg: Config, rows: seq<Report>, gid: string, chatID: int, q: Request, a: Replies)
    ensures var o := Filed(cfg, rows, gid, chatID, q, a);
      var admitted := q.hasReply && q.hasSender && !q.forumTopic && !q.reporterSuper && !q.reportedSuper;
      var newer := |set i: nat | i < |rows| && rows[i].message.gid == gid && rows[i].reporter == q.reporter
        && rows[i].time > q.asked - cfg.ratePeriod|;
      && (o.ok <==>
            && admitted && q.reporterApproved && a.inserts
            && (cfg.rateLimit > 0 ==> a.counts && newer < cfg.rateLimit))
      && (o.ok <==> Weighs(cfg, rows, gid, q, a))
      && (DeleteCommand in o.actions <==> admitted && (q.reporterApproved && cfg.rateLimit > 0 ==> a.counts))
      && (!o.ok ==> o.rows == rows && forall x :: x in o.actions ==> x == DeleteCommand)
  {
    hide Weighed, CountSince, StoredFor;
    CountSinceMeans(rows, gid, q.reporter, q.asked - cfg.ratePeriod);
  }

  /** The row of a report that is the first one of its reporter about the message is what the command
      says, not notified, and the newest. */
  lemma StoresTheReport(rows: seq<Report>, m: Message, q: Request, a: Replies)
    requires forall r :: r in rows ==> !(r.message == m && r.reporter == q.reporter)
    ensures var stored := StoredFor(rows, m, q, a);
      stored != [] && Last(stored) == Report(m, q.reporter, q.reported, q.text, q.time, false, 0)
    ensures forall r :: r in rows ==> (r in StoredFor(rows, m, q, a) <==>
      !(a.cleans && r.message.gid == m.gid && r.time < q.time - 604_800_000_000_000))
  {
    var r := NewReport(m, q);
    var inserted, p := Inserted(rows, r), NotBefore(m.gid, q.time - RETENTION);
    KeepNone(rows, By(m, q.reporter));
    assert inserted == rows + [r];
    KeepAppend(rows, r, p);
    KeepMembers(inserted, p);
  }

  /** The actions of a ban are those of its configuration: the user always loses his approval and is
      banned last; unless the run is dry the message is deleted, and learned if it has a text. */
  lemma BanActsExactly(cfg: Config, m: Message, user: int, text: string)
    ensures var actions := BanActions(cfg, m, user, text);
      && actions != [] && actions[0] == Unapprove(user) && Last(actions) == Ban(user, m)
      && (forall x :: x in actions <==>
            || x == Unapprove(user) || x == Ban(user, m)
            || (x == DeleteMessage(m) && !cfg.dry)
            || (x == LearnSpam(text) && !cfg.dry && text != ""))
      && |actions| == 2 + if cfg.dry then 0 else if text == "" then 1 else 2
  {
  }

  /** An auto-ban acts on the user and the text of the first report, and succeeds exactly when there is
      no admin chat, or the notice is sent, or the one that was sent before is known and edited. */
  lemma AutoBanExactly(cfg: Config, rows: seq<Report>, m: Message, a: Replies)
    requires a.fetches && cfg.autoBanThreshold > 0 && |Select(rows, m)| >= cfg.autoBanThreshold
    ensures var live, o := Select(rows, m), Weighed(cfg, rows, m, a);
      var bans := BanActions(cfg, m, live[0].reported, live[0].text);
      && (o.ok <==>
            || !cfg.adminChat
            || (if live[0].notificationSent then live[0].adminMsgID != 0 && a.edits else a.sends.Some?))
      && o.actions == bans +
           if !cfg.adminChat then []
           else if !live[0].notificationSent then [NotifyAutoBan(m, Reporters(live))]
           else if live[0].adminMsgID == 0 then []
           else [UpdateAutoBanNotice(live[0].adminMsgID, Reporters(live))]
  {
    hide Deleted, Reporters, Select, BanActions;
  }

  /** Otherwise the reports are weighed in silence below the threshold or without an admin chat; from
      the threshold on the notice on record is updated, under its identifier, or a new one is sent, and
      its identifier marks the rows. */
  lemma NoticedExactly(cfg: Config, rows: seq<Report>, m: Message, a: Replies)
    requires a.fetches && !(cfg.autoBanThreshold > 0 && |Select(rows, m)| >= cfg.autoBanThreshold)
    ensures var live, o := Select(rows, m), Weighed(cfg, rows, m, a);
      if |live| < cfg.threshold then o == Outcome(rows, [], true)
      else if live == [] then o == Outcome(rows, [], false)
      else if !cfg.adminChat then o == Outcome(rows, [], true)
      else if live[0].notificationSent then
        o == Outcome(rows, [UpdateNotice(live[0].adminMsgID, Reporters(live))], a.edits)
      else
        && o.actions == [Notify(m, Reporters(live))] && o.ok == a.sends.Some?
        && o.rows == if a.sends.Some? && a.marks then Marked(rows, m, a.sends.value) else rows
  {
    hide Marked, Reporters, Select;
  }

  /** A decision of the admins acts only on a message with reports, and succeeds when the notice is
      edited; approving bans the user with the text of the first report. */
  lemma DecisionsExactly(cfg: Config, rows: seq<Report>, m: Message, user: int, a: Replies)
    ensures var live := Select(rows, m);
      var acts := a.fetches && live != [];
      && BanApproved(cfg, rows, m, user, a).actions ==
           (if acts then BanActions(cfg, m, user, live[0].text) + [CloseNotice(m)] else [])
      && Rejected(rows, m, a).actions == (if acts then [CloseNotice(m)] else [])
      && (BanApproved(cfg, rows, m, user, a).ok <==> acts && a.edits)
      && (Rejected(rows, m, a).ok <==> acts && a.edits)
  {
    hide Deleted, Select, BanActions;
  }

  /** Banning a reporter bans him, and restores the notice with the reporters that are left, or closes
      it when none is; his own row goes when it can be deleted, or with all the others. */
  lemma ReporterBanExactly(rows: seq<Report>, m: Message, reporter: int, a: Replies)
    requires a.fetches && Select(rows, m) != []
    ensures var o := ReporterBanned(rows, m, reporter, a);
      var left := if a.deletesReporter then DeletedReporter(rows, m, reporter) else rows;
      var remaining := if a.refetches then Reporters(Select(left, m)) else [];
      && o.actions == [BanReporter(reporter, m)] +
           (if remaining == [] then [CloseNotice(m)] else [RestoreNotice(m, remaining)])
      && (o.ok <==> a.edits)
      && (forall r :: r in rows && r.message == m && r.reporter == reporter ==>
            (r in o.rows <==> !a.deletesReporter && (a.refetches || !a.deletes)))
  {
    var left := if a.deletesReporter then DeletedReporter(rows, m, reporter) else rows;
    KeepMembers(rows, About(m));
    KeepMembers(rows, NotBy(m, reporter));
    KeepMembers(left, About(m));
    KeepMembers(left, NotAbout(m));
    forall r | r in rows && r.message == m && r.reporter == reporter
      ensures r in ReporterBanned(rows, m, reporter, a).rows <==> !a.deletesReporter && (a.refetches || !a.deletes)
    {
      assert About(m)(r) && !NotBy(m, reporter)(r) && !NotAbout(m)(r);
      assert r in Select(rows, m);
      assert !a.deletesReporter ==> r in Select(left, m);
    }
    hide Keep, Reporters;
  }

  /** A new notice is sent only while no live report is notified; once the rows are marked, the
      next report of the message updates that notice. */
  lemma OneNotice(cfg: Config, rows: seq<Report>, m: Message, a: Replies, reporters: seq<int>)
    requires Wellformed(rows) && Notify(m, reporters) in Weighed(cfg, rows, m, a).actions
    ensures forall r :: r in rows && r.message == m ==> !r.notificationSent
    ensures a.sends.Some? && a.marks ==>
      forall r :: r in Weighed(cfg, rows, m, a).rows && r.message == m ==>
        r.notificationSent && r.adminMsgID == a.sends.value
  {
    hide Weighed, Marked, Wellformed, Select;
    NotifyMeans(cfg, rows, m, a, reporters);
    FirstTellsAll(rows, m);
    if a.sends.Some? {
      MarkedMembers(rows, m, a.sends.value);
    }
  }

  lemma NotifyMeans(cfg: Config, rows: seq<Report>, m: Message, a: Replies, reporters: seq<int>)
    requires Notify(m, reporters) in Weighed(cfg, rows, m, a).actions
    ensures Select(rows, m) != [] && !Select(rows, m)[0].notificationSent
    ensures a.sends.Some? && a.marks ==> Weighed(cfg, rows, m, a).rows == Marked(rows, m, a.sends.value)
  {
    hide Keep, Marked, Deleted, Select, Reporters, AutoBanned;
    var live := Select(rows, m);
    if a.fetches && AutoBanDue(cfg, live) {
      BansAreNoNotices(cfg, rows, m, live, a);
    }
  }

  /** Banning a reporter takes the reports of the others with it exactly when the second read
      fails and the deletion succeeds. */
  lemma OthersSurvive(rows: seq<Report>, m: Message, reporter: int, a: Replies, other: Report)
    requires a.fetches && other in rows && other.message == m && other.reporter != reporter
    ensures other in ReporterBanned(rows, m, reporter, a).rows <==> a.refetches || !a.deletes
  {
    var left := if a.deletesReporter then DeletedReporter(rows, m, reporter) else rows;
    KeepMembers(rows, About(m));
    KeepMembers(rows, NotBy(m, reporter));
    KeepMembers(left, About(m));
    KeepMembers(left, NotAbout(m));
    assert About(m)(other) && NotBy(m, reporter)(other) && !NotAbout(m)(other);
    assert other in left && other in Select(left, m) && other in Select(rows, m);
    hide Keep, Reporters;
  }

  /** A report is live after it was stored exactly when retention did not take the reporter's
      earlier row for the message, which kept the new one out. */
  lemma RepeatedReportLives(rows: seq<Report>, m: Message, q: Request, a: Replies)
    requires Wellformed(rows)
    ensures Keep(StoredFor(rows, m, q, a), By(m, q.reporter)) != [] <==>
      (a.cleans ==> forall r :: r in rows && r.message == m && r.reporter == q.reporter ==>
        r.time >= q.time - RETENTION)
  {
    var r := NewReport(m, q);
    var inserted := Inserted(rows, r);
    var kept := StoredFor(rows, m, q, a);
    KeepMembers(rows, By(m, q.reporter));
    KeepMembers(inserted, NotBefore(m.gid, q.time - RETENTION));
    KeepMembers(kept, By(m, q.reporter));
    OneRow(rows, m, q.reporter);
    if Keep(rows, By(m, q.reporter)) == [] {
      assert r in inserted && NotBefore(m.gid, q.time - RETENTION)(r) && By(m, q.reporter)(r);
      assert r in Keep(kept, By(m, q.reporter));
      assert forall p :: p in rows ==> !By(m, q.reporter)(p);
    } else {
      var p := Keep(rows, By(m, q.reporter))[0];
      assert p in Keep(rows, By(m, q.reporter));
      assert By(m, q.reporter)(p);
      assert forall p' :: p' in rows && By(m, q.reporter)(p') ==> p' == p;
      if Keep(kept, By(m, q.reporter)) != [] {
        var k := Keep(kept, By(m, q.reporter))[0];
        assert k in Keep(kept, By(m, q.reporter));
        assert k == p;
      }
    }
  }

  lemma {:induction false} OneRow(rows: seq<Report>, m: Message, reporter: int)
    requires Wellformed(rows)
    ensures forall p, p' :: p in rows && p' in rows && By(m, reporter)(p) && By(m, reporter)(p') ==> p == p'
  {
    if rows != [] {
      OneRow(Init(rows), m, reporter);
      assert forall r :: r in rows <==> r in Init(rows) || r == Last(rows);
    }
  }

  predicate IsNotice(x: Action) {
    x.Notify? || x.UpdateNotice?
  }

  lemma BansAreNoNotices(cfg: Config, rows: seq<Report>, m: Message, live: seq<Report>, a: Replies)
    requires live != []
    ensures forall x :: x in AutoBanned(cfg, rows, m, live, a).actions ==> !IsNotice(x)
  {
    hide Deleted, Reporters;
  }

  /** The admins hear of a message exactly when its live reports reach the threshold but not that
      of the auto-ban, and there is an admin chat; and they hear of all its reporters. */
  lemma NoticeExactly(cfg: Config, rows: seq<Report>, m: Message, a: Replies)
    ensures (exists x :: x in Weighed(cfg, rows, m, a).actions && IsNotice(x)) <==>
      var live := Select(rows, m);
      && a.fetches && cfg.adminChat && live != [] && |live| >= cfg.threshold
      && !(cfg.autoBanThreshold > 0 && |live| >= cfg.autoBanThreshold)
    ensures forall x :: x in Weighed(cfg, rows, m, a).actions && IsNotice(x) ==>
      x.reporters == Reporters(Select(rows, m))
  {
    hide Keep, Marked, Deleted, Select, Reporters;
    var live, actions := Select(rows, m), Weighed(cfg, rows, m, a).actions;
    if a.fetches && AutoBanDue(cfg, live) {
      BansAreNoNotices(cfg, rows, m, live, a);
      hide AutoBanned;
    } else if a.fetches && |live| >= cfg.threshold && live != [] && cfg.adminChat {
      hide AutoBanned;
      assert |actions| == 1 && IsNotice(actions[0]);
    } else {
      hide AutoBanned;
      assert actions == [];
    }
  }

  /** A new notice is sent, rather than the old one updated, exactly when the admins are due to hear
      of the message and none of its live reports is notified. */
  lemma NotifyExactly(cfg: Config, rows: seq<Report>, m: Message, a: Replies)
    requires Wellformed(rows)
    ensures Notify(m, Reporters(Select(rows, m))) in Weighed(cfg, rows, m, a).actions <==>
      var live := Select(rows, m);
      && a.fetches && cfg.adminChat && live != [] && |live| >= cfg.threshold
      && !(cfg.autoBanThreshold > 0 && |live| >= cfg.autoBanThreshold)
      && forall r :: r in rows && r.message == m ==> !r.notificationSent
  {
    hide Keep, Marked, Deleted, Select, Reporters, Wellformed;
    var live := Select(rows, m);
    if live != [] {
      FirstTellsAll(rows, m);
      if a.fetches && AutoBanDue(cfg, live) {
        BansAreNoNotices(cfg, rows, m, live, a);
        hide AutoBanned;
      }
    }
  }

  /** Approving or rejecting leaves no report of the message exactly when the deletion succeeds; a
      message without live reports cannot be approved or rejected. */
  lemma DecisionsClearReports(cfg: Config, rows: seq<Report>, m: Message, user: int, a: Replies)
    requires a.fetches && Select(rows, m) != []
    ensures Select(BanApproved(cfg, rows, m, user, a).rows, m) == [] <==> a.deletes
    ensures Select(Rejected(rows, m, a).rows, m) == [] <==> a.deletes
    ensures Ban(user, m) in BanApproved(cfg, rows, m, user, a).actions
  {
    DeletedIsGone(rows, m);
    hide Keep, Deleted, Select;
  }

  function MessageOf(e: Event): Message {
    match e
    case FileReport(gid, chatID, q, _) => Message(gid, q.msgID, chatID)
    case ApproveBan(m, _, _) => m
    case Reject(m, _) => m
    case BanTheReporter(m, _, _) => m
  }

  lemma {:induction false} MarkingOthers(rows: seq<Report>, m: Message, adminMsgID: int, other: Message)
    requires other != m
    ensures Select(Marked(rows, m, adminMsgID), other) == Select(rows, other)
  {
    if rows != [] {
      MarkingOthers(Init(rows), m, adminMsgID, other);
      KeepAppend(Marked(Init(rows), m, adminMsgID), Mark(Last(rows), m, adminMsgID), About(other));
    }
  }

  lemma DeletingOthers(rows: seq<Report>, m: Message, reporter: int, other: Message)
    requires other != m
    ensures Select(Deleted(rows, m), other) == Select(rows, other)
    ensures Select(DeletedReporter(rows, m, reporter), other) == Select(rows, other)
  {
    KeepKeep(rows, NotAbout(m), About(other), About(other));
    KeepKeep(rows, NotBy(m, reporter), About(other), About(other));
  }

  /** The live reports of another message, less those past retention. */
  function Expired(rows: seq<Report>, m: Message, e: Event): seq<Report> {
    if e.FileReport? && e.a.cleans then Keep(Select(rows, m), NotBefore(e.gid, e.q.time - RETENTION))
      else Select(rows, m)
  }

  lemma StoringOthers(rows: seq<Report>, m: Message, q: Request, a: Replies, other: Message)
    requires other != m
    ensures var live := Select(rows, other);
      Select(StoredFor(rows, m, q, a), other) == if a.cleans then Keep(live, NotBefore(m.gid, q.time - RETENTION))
        else live
  {
    var r := NewReport(m, q);
    var inserted, cutoff := Inserted(rows, r), q.time - RETENTION;
    KeepAppend(rows, r, About(other));
    assert Select(inserted, other) == Select(rows, other);
    hide Keep, Inserted;
    KeepCommutes(inserted, NotBefore(m.gid, cutoff), About(other));
  }

  /** A step about one message leaves the live reports of every other message alone, but for
      retention when a report is stored. */
  lemma OtherMessages(cfg: Config, rows: seq<Report>, e: Event, other: Message)
    requires other != MessageOf(e)
    ensures Select(Step(cfg, rows, e).rows, other) in {Select(rows, other), Expired(rows, other, e)}
  {
    hide Keep, Marked, Select, StoredFor, RateLimited, Weighed, Deleted, DeletedReporter, NotBefore;
    match e
    case FileReport(gid, chatID, q, a) =>
      var m := Message(gid, q.msgID, chatID);
      var stored := StoredFor(rows, m, q, a);
      StoringOthers(rows, m, q, a, other);
      WeighedRows(cfg, stored, m, a);
      DeletingOthers(stored, m, 0, other);
      if a.sends.Some? {
        MarkingOthers(stored, m, a.sends.value, other);
      }
    case ApproveBan(m, user, a) =>
      DeletingOthers(rows, m, 0, other);
    case Reject(m, a) =>
      DeletingOthers(rows, m, 0, other);
    case BanTheReporter(m, reporter, a) =>
      DeletingOthers(rows, m, reporter, other);
      DeletingOthers(DeletedReporter(rows, m, reporter), m, reporter, other);
  }
}
