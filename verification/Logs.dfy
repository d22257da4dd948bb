/** Two stores that keep only part of what they are told: the warnings table, pruned on every
    insert (app/storage/warnings.go), and the capped list of recent direct-message senders
    (app/events/dm_users.go). Both answer as if they had kept everything. */
module Logs {
  import opened Seqs

  // ---- warnings ----

  datatype Warning = Warning(userID: int, userName: string, createdAt: int)

  /** One year in nanoseconds. */
  const WARNINGS_RETENTION: int := 365 * 24 * 3600 * 1_000_000_000

  /** How many warnings of a user are newer than `cutoff`. */
  function CountSince(rows: seq<Warning>, userID: int, cutoff: int): nat {
    if rows == [] then 0
    else
      CountSince(Init(rows), userID, cutoff) +
      if Last(rows).userID == userID && Last(rows).createdAt > cutoff then 1 else 0
  }

  /** The rows that are not older than `cutoff`. */
  function Prune(rows: seq<Warning>, cutoff: int): seq<Warning> {
    if rows == [] then []
    else Prune(Init(rows), cutoff) + if Last(rows).createdAt < cutoff then [] else [Last(rows)]
  }

  /** The count is that of the positions with the user's newer warnings. */
  lemma CountSinceMeans(rows: seq<Warning>, userID: int, cutoff: int)
    ensures CountSince(rows, userID, cutoff) ==
      |set i: nat | i < |rows| && rows[i].userID == userID && rows[i].createdAt > cutoff|
  {
    var p := (r: Warning) => r.userID == userID && r.createdAt > cutoff;
    CountSincePositions(rows, userID, cutoff, p);
    assert Positions(rows, p) == set i: nat | i < |rows| && rows[i].userID == userID && rows[i].createdAt > cutoff;
  }

  lemma {:induction false} CountSincePositions(rows: seq<Warning>, userID: int, cutoff: int, p: Warning -> bool)
    requires forall r :: p(r) <==> r.userID == userID && r.createdAt > cutoff
    ensures CountSince(rows, userID, cutoff) == |Positions(rows, p)|
  {
    if rows == [] {
      assert Positions(rows, p) == {};
    } else {
      CountSincePositions(Init(rows), userID, cutoff, p);
      PositionsInit(rows, p);
    }
  }

  lemma PruneLast(rows: seq<Warning>, cutoff: int)
    requires rows != []
    ensures Prune(rows, cutoff) ==
      Prune(Init(rows), cutoff) + if Last(rows).createdAt < cutoff then [] else [Last(rows)]
  {
  }

  /** Pruning keeps the rows from the cutoff on, in their order. */
  lemma {:induction false} PruneMeans(rows: seq<Warning>, cutoff: int) returns (at: seq<nat>)
    ensures |at| == |Prune(rows, cutoff)| && forall j, k :: 0 <= j < k < |at| ==> at[j] < at[k]
    ensures forall k :: 0 <= k < |at| ==> at[k] < |rows| && Prune(rows, cutoff)[k] == rows[at[k]]
    ensures forall i: nat :: i in at <==> i < |rows| && rows[i].createdAt >= cutoff
  {
    if rows == [] {
      at := [];
    } else {
      hide Prune;
      var n: nat := |rows| - 1;
      at := PruneMeans(Init(rows), cutoff);
      PruneLast(rows, cutoff);
      assert forall i :: 0 <= i < n ==> Init(rows)[i] == rows[i];
      if rows[n].createdAt >= cutoff {
        at := at + [n];
      }
    }
  }

  /** Pruning does not affect a count from the pruning point on. */
  lemma {:induction false} PruneKeepsCounts(rows: seq<Warning>, at: int, userID: int, cutoff: int)
    requires at <= cutoff
    ensures CountSince(Prune(rows, at), userID, cutoff) == CountSince(rows, userID, cutoff)
  {
    if rows != [] {
      PruneKeepsCounts(Init(rows), at, userID, cutoff);
      var kept := Prune(Init(rows), at);
      assert kept + [] == kept;
    }
  }

  class Warnings {
    var rows: seq<Warning>

    ghost var log: seq<Warning>  // every warning ever inserted
    ghost var clock: int         // no operation came later than this

    constructor (ghost start: int)
      ensures Valid() && rows == [] && log == [] && clock == start
    {
      rows, log, clock := [], [], start;
    }

    /** The table counts like the full log, from one retention period ago on. */
    ghost predicate Valid()
      reads this
    {
      forall userID: int, cutoff: int :: cutoff >= clock - WARNINGS_RETENTION ==>
        CountSince(rows, userID, cutoff) == CountSince(log, userID, cutoff)
    }

    /** Add: insert, then prune; the pruning reads the clock again and may fail unnoticed. */
    method Add(userID: int, userName: string, now: int, inserted: bool, cleanupAt: int, pruned: bool) returns (ok: bool)
      requires Valid() && clock <= now <= cleanupAt
      modifies this
      ensures Valid() && clock == cleanupAt && ok == inserted
      ensures log == if inserted then old(log) + [Warning(userID, userName, now)] else old(log)
    {
      clock := cleanupAt;
      if !inserted {
        return false;
      }
      var rec := Warning(userID, userName, now);
      forall u: int, cutoff: int
        ensures CountSince(rows + [rec], u, cutoff) ==
          CountSince(rows, u, cutoff) + (if userID == u && now > cutoff then 1 else 0)
        ensures CountSince(log + [rec], u, cutoff) ==
          CountSince(log, u, cutoff) + (if userID == u && now > cutoff then 1 else 0)
      {
      }
      rows, log := rows + [rec], log + [rec];
      if pruned {
        forall u: int, cutoff: int | cutoff >= cleanupAt - WARNINGS_RETENTION
          ensures CountSince(Prune(rows, cleanupAt - WARNINGS_RETENTION), u, cutoff) == CountSince(rows, u, cutoff)
        {
          PruneKeepsCounts(rows, cleanupAt - WARNINGS_RETENTION, u, cutoff);
        }
        CleanupOld(cleanupAt);
      }
      return true;
    }

    /** cleanupOld: DELETE ... WHERE created_at < ? */
    method CleanupOld(now: int)
      modifies this`rows
      ensures rows == Prune(old(rows), now - WARNINGS_RETENTION)
    {
      var cutoff := now - WARNINGS_RETENTION;
      var kept := [];
      for i := 0 to |rows|
        invariant kept == Prune(rows[..i], cutoff)
      {
        assert Init(rows[..i + 1]) == rows[..i];
        if rows[i].createdAt < cutoff {
          assert kept + [] == kept;
        } else {
          kept := kept + [rows[i]];
        }
      }
      assert rows[..|rows|] == rows;
      rows := kept;
    }

    /** CountWithin: SELECT COUNT(*) ... WHERE user_id = ? AND created_at > ?. For a window of up to
        365 days the count is that over everything ever inserted. */
    method CountWithin(userID: int, window: int, now: int) returns (count: int)
      requires Valid() && clock <= now
      ensures window <= 31_536_000_000_000_000 ==>
        count == |set i: nat | i < |log| && log[i].userID == userID && log[i].createdAt > now - window|
    {
      var cutoff := now - window;
      CountSinceMeans(log, userID, cutoff);
      count := 0;
      for i := 0 to |rows|
        invariant count == CountSince(rows[..i], userID, cutoff)
      {
        assert Init(rows[..i + 1]) == rows[..i];
        if rows[i].userID == userID && rows[i].createdAt > cutoff {
          count := count + 1;
        }
      }
      assert rows[..|rows|] == rows;
    }
  }

  /** What the storage and the clock do during one trackWarnAndMaybeBan. */
  datatype Storage = Storage(addAt: int, inserted: bool, cleanupAt: int, pruned: bool, countAt: int, counted: bool)

  /** trackWarnAndMaybeBan: the ban is attempted exactly when tracking is on, the target is
      known, no storage call that it depends on failed, and the warnings the target ever got
      within the window reach the threshold. */
  method TrackWarnAndMaybeBan(w: Warnings, threshold: int, window: int, target: Option<(int, string)>, st: Storage)
    returns (ban: bool)
    requires w.Valid() && w.clock <= st.addAt <= st.cleanupAt <= st.countAt && window <= 31_536_000_000_000_000
    modifies w
    ensures w.Valid()
    ensures threshold <= 0 || target == None || !st.inserted ==> w.log == old(w.log) && !ban
    ensures threshold > 0 && target.Some? && st.inserted ==>
      && w.log == old(w.log) + [Warning(target.value.0, target.value.1, st.addAt)]
      && (ban <==>
            && st.counted
            && |set i: nat |
                 i < |w.log| && w.log[i].userID == target.value.0 && w.log[i].createdAt > st.countAt - window|
               >= threshold)
  {
    if threshold <= 0 {
      return false;
    }
    if target == None {
      return false;
    }
    var (userID, userName) := target.value;
    var ok := w.Add(userID, userName, st.addAt, st.inserted, st.cleanupAt, st.pruned);
    if !ok {
      return false;
    }
    var count := w.CountWithin(userID, window, st.countAt);
    if !st.counted {
      return false;
    }
    return count >= threshold;
  }

  /** A window longer than the retention would miss warnings, as the start-up check prevents. */
  lemma LongWindowUndercounts(excess: nat)
    requires excess > 1
    ensures var now, window := 31_536_000_000_000_001, 31_536_000_000_000_000 + excess;
      var log := [Warning(1, "", 0)];
      && CountSince(log, 1, now - window) == 1
      && CountSince(Prune(log, now - WARNINGS_RETENTION), 1, now - window) == 0
  {
    var log := [Warning(1, "", 0)];
    assert Init(log) == [];
  }

  // ---- recent direct-message senders ----

  datatype DMUser = DMUser(userID: int, userName: string, displayName: string, timestamp: int)

  const MAX_DM_USERS: nat := 50

  function Take<T>(s: seq<T>, n: nat): seq<T> {
    if |s| <= n then s else s[..n]
  }

  /** The list without its first entry of a user. */
  function Without(users: seq<DMUser>, userID: int): seq<DMUser> {
    if users == [] then []
    else if users[0].userID == userID then users[1..]
    else [users[0]] + Without(users[1..], userID)
  }

  /** One message of `u`, with nothing cut off. */
  function Bump(users: seq<DMUser>, u: DMUser): seq<DMUser> {
    [u] + Without(users, u.userID)
  }

  /** All senders of the log, most recent first. */
  function Recents(log: seq<DMUser>): seq<DMUser> {
    if log == [] then [] else Bump(Recents(Init(log)), Last(log))
  }

  lemma {:induction false} WithoutAt(users: seq<DMUser>, userID: int, i: nat)
    requires i < |users| && users[i].userID == userID && forall j :: 0 <= j < i ==> users[j].userID != userID
    ensures Without(users, userID) == users[..i] + users[i + 1..]
  {
    if i > 0 {
      WithoutAt(users[1..], userID, i - 1);
    }
  }

  lemma {:induction false} WithoutAbsent(users: seq<DMUser>, userID: int)
    requires forall j :: 0 <= j < |users| ==> users[j].userID != userID
    ensures Without(users, userID) == users
  {
    if users != [] {
      WithoutAbsent(users[1..], userID);
    }
  }

  lemma TakeParts<T>(s: seq<T>, n: nat)
    requires s != [] && n > 0
    ensures Take(s, n) != [] && Take(s, n)[0] == s[0] && Take(s, n)[1..] == Take(s[1..], n - 1)
    ensures Take(s, n) == [s[0]] + Take(s[1..], n - 1)
  {
  }

  lemma TakeTwice<T>(s: seq<T>, n: nat)
    ensures Take(Take(s, n), n) == Take(s, n)
    ensures Take<T>([], n) == []
    ensures Take(s, 0) == []
  {
  }

  /** Truncating before a message changes nothing that survives the truncation after it. */
  lemma {:induction false} TruncateEarly(users: seq<DMUser>, userID: int, n: nat)
    requires n > 0
    ensures Take(Without(Take(users, n), userID), n - 1) == Take(Without(users, userID), n - 1)
  {
    hide Take;
    TakeTwice(users, n);
    if users != [] {
      TakeParts(users, n);
      TakeTwice(users[1..], n - 1);
      if users[0].userID != userID {
        var early, late := Without(Take(users[1..], n - 1), userID), Without(users[1..], userID);
        if n == 1 {
          TakeTwice([users[0]] + early, 0);
          TakeTwice([users[0]] + late, 0);
        } else {
          TruncateEarly(users[1..], userID, n - 1);
          TakeParts([users[0]] + early, n - 1);
          TakeParts([users[0]] + late, n - 1);
        }
      }
    }
  }

  /** The de-duplication loop of Add (lines 32-37). */
  method RemoveUser(users: seq<DMUser>, userID: int) returns (r: seq<DMUser>)
    ensures r == Without(users, userID)
  {
    for i := 0 to |users|
      invariant forall j :: 0 <= j < i ==> users[j].userID != userID
    {
      if users[i].userID == userID {
        WithoutAt(users, userID, i);
        return users[..i] + users[i + 1..];
      }
    }
    WithoutAbsent(users, userID);
    return users;
  }

  class DmUsers {
    var users: seq<DMUser>

    ghost var log: seq<DMUser>  // every message ever added

    constructor ()
      ensures Valid() && log == []
    {
      users, log := [], [];
    }

    /** The list is the first fifty of all senders. */
    ghost predicate Valid()
      reads this
    {
      users == Take(Recents(log), MAX_DM_USERS)
    }

    method Add(user: DMUser)
      requires Valid()
      modifies this
      ensures Valid() && log == old(log) + [user]
    {
      hide Recents, Without;
      RecentsAppend(log, user);
      TruncateOnce(Recents(log), user, MAX_DM_USERS);
      users := RemoveUser(users, user.userID);
      users := [user] + users;
      if |users| > MAX_DM_USERS {
        users := users[..MAX_DM_USERS];
      }
      log := log + [user];
    }

    method List() returns (result: seq<DMUser>)
      requires Valid()
      ensures result == if |Recents(log)| <= 50 then Recents(log) else Recents(log)[..50]
    {
      return users;
    }
  }

  lemma RecentsAppend(log: seq<DMUser>, u: DMUser)
    ensures Recents(log + [u]) == Bump(Recents(log), u)
  {
    assert Init(log + [u]) == log;
  }

  /** Truncating at every step equals truncating once at the end. */
  lemma TruncateOnce(users: seq<DMUser>, u: DMUser, n: nat)
    requires n > 0
    ensures Take(Bump(Take(users, n), u), n) == Take(Bump(users, u), n)
  {
    hide Take, Without;
    TruncateEarly(users, u.userID, n);
    var early, late := Without(Take(users, n), u.userID), Without(users, u.userID);
    assert ([u] + early)[1..] == early && ([u] + late)[1..] == late;
    TakeParts([u] + early, n);
    TakeParts([u] + late, n);
  }

  /** The position of a user's last message in the log. */
  function LastIndex(log: seq<DMUser>, userID: int): (i: int)
    ensures -1 <= i < |log| && (i >= 0 ==> log[i].userID == userID)
  {
    if log == [] then -1 else if Last(log).userID == userID then |log| - 1 else LastIndex(Init(log), userID)
  }

  predicate Has(users: seq<DMUser>, userID: int) {
    users != [] && (users[0].userID == userID || Has(users[1..], userID))
  }

  /** Each entry is its user's latest record, and these records stand in the log before
      position `bound`, each before the previous one. */
  predicate LatestFirst(users: seq<DMUser>, log: seq<DMUser>, bound: int) {
    users == [] || (
      var at := LastIndex(log, users[0].userID);
      0 <= at < bound && users[0] == log[at] && LatestFirst(users[1..], log, at))
  }

  /** What the ideal list is: it has exactly the users of the log, each with its latest record,
      and orders them by their latest message, so that nobody is in it twice. */
  ghost predicate MostRecentFirst(users: seq<DMUser>, log: seq<DMUser>) {
    (forall id :: LastIndex(log, id) >= 0 <==> Has(users, id)) && LatestFirst(users, log, |log|)
  }

  /** The reading of LatestFirst entry by entry. */
  lemma {:induction false} LatestFirstMeans(users: seq<DMUser>, log: seq<DMUser>, bound: int, i: nat)
    requires LatestFirst(users, log, bound) && i < |users|
    ensures var at := LastIndex(log, users[i].userID); 0 <= at < bound && users[i] == log[at]
    ensures i > 0 ==> LastIndex(log, users[i].userID) < LastIndex(log, users[i - 1].userID)
  {
    if i > 0 {
      LatestFirstMeans(users[1..], log, LastIndex(log, users[0].userID), i - 1);
    }
  }

  lemma {:induction false} WithoutHas(users: seq<DMUser>, userID: int, id: int)
    requires id != userID
    ensures Has(Without(users, userID), id) <==> Has(users, id)
  {
    if users != [] && users[0].userID != userID {
      WithoutHas(users[1..], userID, id);
    }
  }

  /** Entries older than the last message of `u` are not about `u`, and keep their places. */
  lemma {:induction false} OlderEntriesStay(users: seq<DMUser>, log: seq<DMUser>, u: DMUser, bound: int)
    requires LatestFirst(users, log, bound) && bound <= LastIndex(log, u.userID)
    ensures LatestFirst(users, log + [u], bound)
  {
    if users != [] {
      OlderEntriesStay(users[1..], log, u, LastIndex(log, users[0].userID));
    }
  }

  lemma {:induction false} WithoutStaysOrdered(users: seq<DMUser>, log: seq<DMUser>, u: DMUser, bound: int)
    requires LatestFirst(users, log, bound)
    ensures LatestFirst(Without(users, u.userID), log + [u], bound)
  {
    if users != [] {
      var at := LastIndex(log, users[0].userID);
      if users[0].userID == u.userID {
        OlderEntriesStay(users[1..], log, u, at);
      } else {
        WithoutStaysOrdered(users[1..], log, u, at);
      }
    }
  }

  /** The ideal list lists the senders most recent first. */
  lemma {:induction false} RecentsMostRecentFirst(log: seq<DMUser>)
    ensures MostRecentFirst(Recents(log), log)
  {
    if log != [] {
      var init, u := Init(log), Last(log);
      assert log == init + [u];
      RecentsMostRecentFirst(init);
      RecentsAppend(init, u);
      BumpMostRecentFirst(Recents(init), init, u);
    }
  }

  lemma BumpMostRecentFirst(before: seq<DMUser>, init: seq<DMUser>, u: DMUser)
    requires MostRecentFirst(before, init)
    ensures MostRecentFirst(Bump(before, u), init + [u])
  {
    var rest := Without(before, u.userID);
    WithoutStaysOrdered(before, init, u, |init|);
    assert ([u] + rest)[1..] == rest;
    forall id
      ensures LastIndex(init + [u], id) >= 0 <==> Has([u] + rest, id)
    {
      if id != u.userID {
        WithoutHas(before, u.userID, id);
      }
    }
  }
}
