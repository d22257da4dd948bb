/** The handlers of app/events/reports.go, which act on the storage one call after another, proved
    against the steps of the protocol. Chat resolution and the parsing of callbacks are those of
    Callbacks; here the chat and the message are already known. */
module UserReporting {
  import opened Seqs
  import opened ReportTable
  import opened ReportProtocol

  lemma OrderedAnswer(answer: seq<Report>, rows: seq<Report>, m: Message)
    requires Wellformed(rows) && Answers(answer, Select(rows, m))
    ensures answer == Select(rows, m)
  {
    hide *;
    LiveReports(rows, m);
    OneAnswer(answer, Select(rows, m));
  }

  lemma StoredWellformed(rows: seq<Report>, m: Message, q: Request, a: Replies)
    requires Wellformed(rows) && StoredBefore(rows, q.time)
    ensures Wellformed(StoredFor(rows, m, q, a))
  {
    hide Wellformed, Keep;
    var r := NewReport(m, q);
    InsertedWellformed(rows, r);
    KeepWellformed(Inserted(rows, r), NotBefore(m.gid, q.time - RETENTION));
  }

  lemma KeptWellformed(rows: seq<Report>, m: Message, reporter: int)
    requires Wellformed(rows)
    ensures Wellformed(DeletedReporter(rows, m, reporter))
  {
    hide Wellformed, Keep;
    KeepWellformed(rows, NotBy(m, reporter));
  }

  class UserReports {
    const cfg: Config
    const store: Reports
    const chatID: int
    var actions: seq<Action>

    constructor (cfg: Config, store: Reports, chatID: int)
      ensures this.cfg == cfg && this.store == store && this.chatID == chatID && actions == []
    {
      this.cfg, this.store, this.chatID, actions := cfg, store, chatID, [];
    }

    function Key(msgID: int): Message {
      Message(store.gid, msgID, chatID)
    }

    /** checkReportRateLimit */
    method CheckReportRateLimit(q: Request, counts: bool) returns (limited: bool, ok: bool)
      ensures ok == (cfg.rateLimit > 0 ==> counts)
      ensures ok ==> limited == RateLimited(cfg, store.table.rows, store.gid, q)
    {
      if cfg.rateLimit <= 0 {
        return false, true;
      }
      if !counts {
        return false, false;
      }
      var count := store.GetReporterCountSince(q.reporter, q.asked - cfg.ratePeriod);
      return count >= cfg.rateLimit, true;
    }

    /** The first half of a ban: everything before the notices. */
    method BanUser(m: Message, user: int, text: string)
      modifies this
      ensures actions == old(actions) + BanActions(cfg, m, user, text)
    {
      actions := actions + [Unapprove(user)];
      if !cfg.dry && text != "" {
        actions := actions + [LearnSpam(text)];
      }
      if !cfg.dry {
        actions := actions + [DeleteMessage(m)];
      }
      actions := actions + [Ban(user, m)];
    }

    /** executeAutoBan */
    method ExecuteAutoBan(reports: seq<Report>, msgID: int, a: Replies) returns (ok: bool)
      requires reports != []
      modifies this, store.table
      ensures var o := AutoBanned(cfg, old(store.table.rows), Key(msgID), reports, a);
        store.table.rows == o.rows && actions == old(actions) + o.actions && ok == o.ok
    {
      hide Deleted, BanActions, Reporters;
      var m := Key(msgID);
      var first := reports[0];
      BanUser(m, first.reported, first.text);
      if cfg.adminChat {
        if first.notificationSent {
          if first.adminMsgID == 0 {
            return false;
          }
          actions := actions + [UpdateAutoBanNotice(first.adminMsgID, Reporters(reports))];
          ok := a.edits;
        } else {
          actions := actions + [NotifyAutoBan(m, Reporters(reports))];
          ok := a.sends.Some?;
        }
        if !ok {
          return;
        }
      }
      if a.deletes {
        store.DeleteByMessage(msgID, chatID);
      }
      ok := true;
    }

    /** sendReportNotification */
    method SendReportNotification(reports: seq<Report>, msgID: int, a: Replies) returns (ok: bool)
      requires reports != [] ==> !reports[0].notificationSent
      modifies this, store.table
      ensures var o := Noticed(cfg, old(store.table.rows), Key(msgID), reports, a);
        store.table.rows == o.rows && actions == old(actions) + o.actions && ok == o.ok
    {
      hide Marked, Reporters;
      if reports == [] {
        return false;
      }
      if !cfg.adminChat {
        return true;
      }
      actions := actions + [Notify(Key(msgID), Reporters(reports))];
      if a.sends.None? {
        return false;
      }
      if a.marks {
        store.UpdateAdminMsgID(msgID, chatID, a.sends.value);
      }
      return true;
    }

    /** updateReportNotification */
    method UpdateReportNotification(reports: seq<Report>, msgID: int, a: Replies) returns (ok: bool)
      requires reports != [] ==> reports[0].notificationSent
      modifies this
      ensures var o := Noticed(cfg, store.table.rows, Key(msgID), reports, a);
        store.table.rows == o.rows && actions == old(actions) + o.actions && ok == o.ok
    {
      if reports == [] {
        return false;
      }
      if !cfg.adminChat {
        return true;
      }
      actions := actions + [UpdateNotice(reports[0].adminMsgID, Reporters(reports))];
      return a.edits;
    }

    /** checkReportThreshold */
    method CheckReportThreshold(msgID: int, a: Replies) returns (ok: bool)
      requires Wellformed(store.table.rows)
      modifies this, store.table
      ensures var o := Weighed(cfg, old(store.table.rows), Key(msgID), a);
        store.table.rows == o.rows && actions == old(actions) + o.actions && ok == o.ok
    {
      hide Wellformed, Select, Noticed, AutoBanned, Answers;
      if !a.fetches {
        return false;
      }
      var reports := store.GetByMessage(msgID, chatID);
      OrderedAnswer(reports, store.table.rows, Key(msgID));
      var reportCount := |reports|;
      if cfg.autoBanThreshold > 0 && reportCount >= cfg.autoBanThreshold {
        ok := ExecuteAutoBan(reports, msgID, a);
        return;
      }
      if reportCount < cfg.threshold {
        return true;
      }
      if |reports| > 0 && reports[0].notificationSent {
        ok := UpdateReportNotification(reports, msgID, a);
      } else {
        ok := SendReportNotification(reports, msgID, a);
      }
    }

    /** DirectUserReport */
    method DirectUserReport(q: Request, a: Replies) returns (ok: bool)
      requires Wellformed(store.table.rows) && StoredBefore(store.table.rows, q.time)
      modifies this, store.table
      ensures var o := Filed(cfg, old(store.table.rows), store.gid, chatID, q, a);
        store.table.rows == o.rows && actions == old(actions) + o.actions && ok == o.ok
    {
      hide Wellformed, Weighed, RateLimited, Added;
      ghost var before := store.table.rows;
      if !q.hasReply {
        return false;
      }
      if !q.hasSender || q.forumTopic {
        return false;
      }
      if q.reporterSuper || q.reportedSuper {
        return false;
      }
      if !q.reporterApproved {
        actions := actions + [DeleteCommand];
        return false;
      }
      var limited;
      limited, ok := CheckReportRateLimit(q, a.counts);
      if !ok {
        return false;
      }
      actions := actions + [DeleteCommand];
      if limited {
        return false;
      }
      var m := Key(q.msgID);
      var added := store.Add(NewReport(m, q), None, q.time, a.inserts, a.cleans);
      if !added {
        return false;
      }
      StoredWellformed(before, m, q, a);
      var weighed := CheckReportThreshold(q.msgID, a);
      return true;
    }

    /** callbackReportBan */
    method CallbackReportBan(msgID: int, user: int, a: Replies) returns (ok: bool)
      requires Wellformed(store.table.rows)
      modifies this, store.table
      ensures var o := BanApproved(cfg, old(store.table.rows), Key(msgID), user, a);
        store.table.rows == o.rows && actions == old(actions) + o.actions && ok == o.ok
    {
      hide Wellformed, Select, Deleted, BanActions, Answers;
      if !a.fetches {
        return false;
      }
      var reports := store.GetByMessage(msgID, chatID);
      OrderedAnswer(reports, store.table.rows, Key(msgID));
      if |reports| == 0 {
        return false;
      }
      BanUser(Key(msgID), user, reports[0].text);
      if a.deletes {
        store.DeleteByMessage(msgID, chatID);
      }
      actions := actions + [CloseNotice(Key(msgID))];
      return a.edits;
    }

    /** callbackReportReject */
    method CallbackReportReject(msgID: int, a: Replies) returns (ok: bool)
      requires Wellformed(store.table.rows)
      modifies this, store.table
      ensures var o := Rejected(old(store.table.rows), Key(msgID), a);
        store.table.rows == o.rows && actions == old(actions) + o.actions && ok == o.ok
    {
      hide Wellformed, Select, Deleted, Answers;
      if !a.fetches {
        return false;
      }
      var reports := store.GetByMessage(msgID, chatID);
      OrderedAnswer(reports, store.table.rows, Key(msgID));
      if |reports| == 0 {
        return false;
      }
      if a.deletes {
        store.DeleteByMessage(msgID, chatID);
      }
      actions := actions + [CloseNotice(Key(msgID))];
      return a.edits;
    }

    /** callbackReportBanReporterConfirm */
    method CallbackReportBanReporterConfirm(msgID: int, reporter: int, a: Replies) returns (ok: bool)
      requires Wellformed(store.table.rows)
      modifies this, store.table
      ensures var o := ReporterBanned(old(store.table.rows), Key(msgID), reporter, a);
        store.table.rows == o.rows && actions == old(actions) + o.actions && ok == o.ok
    {
      hide Wellformed, Select, Deleted, DeletedReporter, Reporters, Answers;
      if !a.fetches {
        return false;
      }
      var reports := store.GetByMessage(msgID, chatID);
      OrderedAnswer(reports, store.table.rows, Key(msgID));
      if |reports| == 0 {
        return false;
      }
      actions := actions + [BanReporter(reporter, Key(msgID))];
      if a.deletesReporter {
        KeptWellformed(store.table.rows, Key(msgID), reporter);
        store.DeleteReporter(reporter, msgID, chatID);
      }
      var remaining: seq<Report> := [];
      if a.refetches {
        remaining := store.GetByMessage(msgID, chatID);
        OrderedAnswer(remaining, store.table.rows, Key(msgID));
      }
      if |remaining| == 0 {
        if a.deletes {
          store.DeleteByMessage(msgID, chatID);
        }
        actions := actions + [CloseNotice(Key(msgID))];
      } else {
        actions := actions + [RestoreNotice(Key(msgID), Reporters(remaining))];
      }
      return a.edits;
    }
  }
}
