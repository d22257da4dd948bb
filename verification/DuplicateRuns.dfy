/** What the duplicate detector guarantees over whole runs of one user's messages. */
module DuplicateRuns {
  import opened Seqs
  import opened DuplicateSpec

  // ---- one step ----

  /** Dropping a stale entry either changes nothing or takes out one stale entry. When it
      changes nothing, an entry with that ID carries the new content. */
  lemma {:induction false} DropStaleCases(entries: seq<HashEntry>, id: int, hash: Digest)
    returns (found: bool, a: seq<HashEntry>, x: HashEntry, b: seq<HashEntry>)
    ensures found ==> entries == a + [x] + b && Stale(x, id, hash) && DropStale(entries, id, hash) == a + b
    ensures !found ==> DropStale(entries, id, hash) == entries && (Carries(entries, id) ==> Holds(entries, id, hash))
  {
    if entries == [] {
      found, a, x, b := false, [], HashEntry(0, 0, 0), [];
    } else if Stale(entries[0], id, hash) {
      found, a, x, b := true, [], entries[0], entries[1..];
      assert [] + [x] + b == entries && [] + b == b;
    } else {
      found, a, x, b := DropStaleCases(entries[1..], id, hash);
      if found {
        assert entries == ([entries[0]] + a) + [x] + b;
        assert [entries[0]] + (a + b) == ([entries[0]] + a) + b;
        a := [entries[0]] + a;
      }
    }
  }

  /** What dropping a stale entry from a sound list leaves behind. */
  lemma DropStaleSound(live: seq<HashEntry>, id: int, hash: Digest)
    requires IDsUnique(live) && TimeOrdered(live) && id > 0
    ensures var kept := DropStale(live, id, hash);
      && IDsUnique(kept) && TimeOrdered(kept) && |kept| <= |live|
      && (if Holds(live, id, hash) then kept == live else !Carries(kept, id))
  {
    var found, a, x, b := DropStaleCases(live, id, hash);
    if found {
      SoundWithout(a, x, b);
      HoldsConcat(a + [x], b, id, hash);
      HoldsConcat(a, [x], id, hash);
      HoldsConcat(a, b, id, hash);
      CarriesHolds(a + b, id, hash);
    }
  }

  lemma DropStaleSubset(live: seq<HashEntry>, id: int, hash: Digest, id': int, hash': Digest, t: int)
    ensures Holds(DropStale(live, id, hash), id', hash') ==> Holds(live, id', hash')
    ensures Carries(DropStale(live, id, hash), id') ==> Carries(live, id')
    ensures NoLaterThan(live, t) ==> NoLaterThan(DropStale(live, id, hash), t)
  {
    var found, a, x, b := DropStaleCases(live, id, hash);
    if found {
      HoldsConcat(a + [x], b, id', hash');
      HoldsConcat(a, [x], id', hash');
      HoldsConcat(a, b, id', hash');
      CarriesConcat(a + [x], b, id');
      CarriesConcat(a, [x], id');
      CarriesConcat(a, b, id');
      NoLaterConcat(a + [x], b, t);
      NoLaterConcat(a, [x], t);
      NoLaterConcat(a, b, t);
    }
  }

  /** The kept entries carry the ID of `p` only when `p` is an edit, which then keeps all. */
  lemma KeptSound(entries: seq<HashEntry>, p: HashEntry, lim: Limits)
    requires IDsUnique(entries) && TimeOrdered(entries)
    ensures IDsUnique(Kept(entries, p, lim)) && TimeOrdered(Kept(entries, p, lim))
    ensures |Kept(entries, p, lim)| <= |entries|
    ensures IsEdit(entries, p, lim) ==> Kept(entries, p, lim) == Live(entries, p.time - lim.window)
    ensures p.messageID > 0 && !IsEdit(entries, p, lim) ==> !Carries(Kept(entries, p, lim), p.messageID)
    ensures NoLaterThan(entries, p.time) ==> NoLaterThan(Kept(entries, p, lim), p.time)
  {
    var c := p.time - lim.window;
    LiveSound(entries, c);
    if p.messageID > 0 {
      DropStaleSound(Live(entries, c), p.messageID, p.hash);
      DropStaleSubset(Live(entries, c), p.messageID, p.hash, 0, 0, p.time);
    }
  }

  lemma NewestSound(s: seq<HashEntry>, n: nat, t: int)
    ensures IDsUnique(s) ==> IDsUnique(Newest(s, n))
    ensures TimeOrdered(s) ==> TimeOrdered(Newest(s, n))
    ensures NoLaterThan(s, t) ==> NoLaterThan(Newest(s, n), t)
  {
    if |s| > n {
      var cut := |s| - n;
      assert s == s[..cut] + s[cut..];
      SoundHalves(s[..cut], s[cut..]);
      NoLaterConcat(s[..cut], s[cut..], t);
    }
  }

  /** One message keeps the list within its cap, in time order, and with every positive ID on
      at most one entry. */
  lemma StepSound(entries: seq<HashEntry>, p: HashEntry, lim: Limits)
    requires IDsUnique(entries) && TimeOrdered(entries) && NoLaterThan(entries, p.time)
    ensures |Step(entries, p, lim)| <= lim.maxEntries
    ensures IDsUnique(Step(entries, p, lim)) && TimeOrdered(Step(entries, p, lim))
      && NoLaterThan(Step(entries, p, lim), p.time)
  {
    KeptSound(entries, p, lim);
    var kept := Kept(entries, p, lim);
    if IsEdit(entries, p, lim) {
      NewestSound(kept, lim.maxEntries, p.time);
    } else {
      InitLast(kept, [p]);
      assert kept + Init([p]) == kept;
      NewestSound(kept + [p], lim.maxEntries, p.time);
    }
  }

  lemma RunAppend(log: seq<HashEntry>, p: HashEntry, lim: Limits)
    ensures Run(log + [p], lim) == Step(Run(log, lim), p, lim)
  {
    InitLast(log, [p]);
    assert log + Init([p]) == log;
  }

  lemma OrderedInit(log: seq<HashEntry>, p: HashEntry)
    requires TimeOrdered(log + [p])
    ensures TimeOrdered(log) && NoLaterThan(log, p.time)
  {
    InitLast(log, [p]);
    assert log + Init([p]) == log;
  }

  lemma Split(log: seq<HashEntry>) returns (init: seq<HashEntry>, p: HashEntry)
    requires log != []
    ensures log == init + [p] && init == Init(log) && p == Last(log)
  {
    init, p := Init(log), Last(log);
  }

  /** The list of a run whose clock never goes back is within its cap and time-ordered, and no
      positive ID occurs twice in it, whatever mix of posts and edits made it. */
  lemma {:induction false} RunSound(log: seq<HashEntry>, now: int, lim: Limits)
    requires TimeOrdered(log) && NoLaterThan(log, now)
    ensures |Run(log, lim)| <= lim.maxEntries
    ensures IDsUnique(Run(log, lim)) && TimeOrdered(Run(log, lim)) && NoLaterThan(Run(log, lim), now)
  {
    if log != [] {
      var init, p := Split(log);
      OrderedInit(init, p);
      RunSound(init, p.time, lim);
      RunAppend(init, p, lim);
      StepSound(Run(init, lim), p, lim);
      NoLaterWeaken(Run(log, lim), p.time, now);
    }
  }

  // ---- edits ----

  /** The content most recently posted under `id`. */
  function LatestContent(log: seq<HashEntry>, id: int): Option<Digest> {
    if log == [] then None
    else if Last(log).messageID == id then Some(Last(log).hash)
    else LatestContent(Init(log), id)
  }

  lemma {:induction false} LiveHolds(entries: seq<HashEntry>, cutoff: int, id: int, hash: Digest)
    ensures Holds(Live(entries, cutoff), id, hash) ==> Holds(entries, id, hash)
  {
    if entries != [] {
      var init, last := Split(entries);
      LiveHolds(init, cutoff, id, hash);
      HoldsConcat(init, [last], id, hash);
      HoldsConcat(Live(init, cutoff), [last], id, hash);
      assert Live(init, cutoff) + [] == Live(init, cutoff);
    }
  }

  /** An entry after a step is either the message just handled or an older entry. */
  lemma StepHolds(entries: seq<HashEntry>, p: HashEntry, lim: Limits, id: int, hash: Digest)
    requires Holds(Step(entries, p, lim), id, hash)
    ensures Holds(Kept(entries, p, lim), id, hash) || (id == p.messageID && hash == p.hash)
    ensures Holds(Kept(entries, p, lim), id, hash) ==> Holds(entries, id, hash)
  {
    var kept := Kept(entries, p, lim);
    var all := if IsEdit(entries, p, lim) then kept else kept + [p];
    if |all| > lim.maxEntries {
      var cut := |all| - lim.maxEntries;
      assert all == all[..cut] + all[cut..];
      HoldsConcat(all[..cut], all[cut..], id, hash);
    }
    HoldsConcat(kept, [p], id, hash);
    LiveHolds(entries, p.time - lim.window, id, hash);
    DropStaleSubset(Live(entries, p.time - lim.window), p.messageID, p.hash, id, hash, 0);
  }

  /** Over any mix of posts and edits, a retained positive ID carries its latest content. */
  lemma {:induction false} RetainedContentIsLatest(log: seq<HashEntry>, lim: Limits, id: int, hash: Digest)
    requires TimeOrdered(log) && id > 0 && Holds(Run(log, lim), id, hash)
    ensures LatestContent(log, id) == Some(hash)
  {
    hide Run, Live, Step, Kept, IDsUnique, TimeOrdered, NoLaterThan, Holds, Carries;
    if log == [] {
      NothingHeld(id, hash, lim);
    } else {
      var init, p := Split(log);
      OrderedInit(init, p);
      RunSound(init, p.time, lim);
      RunAppend(init, p, lim);
      var before := Run(init, lim);
      StepHolds(before, p, lim, id, hash);
      if id != p.messageID {
        RetainedContentIsLatest(init, lim, id, hash);
      } else if hash != p.hash {
        KeptSound(before, p, lim);
        CarriesHolds(Kept(before, p, lim), id, hash);
        LiveSound(before, p.time - lim.window);
        OneContent(Live(before, p.time - lim.window), id, hash, p.hash);
        assert false;
      }
    }
  }

  lemma NothingHeld(id: int, hash: Digest, lim: Limits)
    ensures !Holds(Run([], lim), id, hash)
  {
  }

  /** Under unique IDs an ID has one content. */
  lemma {:induction false} OneContent(entries: seq<HashEntry>, id: int, hash: Digest, hash': Digest)
    requires IDsUnique(entries) && id > 0 && Holds(entries, id, hash) && Holds(entries, id, hash')
    ensures hash == hash'
  {
    var init, last := Split(entries);
    HoldsConcat(init, [last], id, hash);
    HoldsConcat(init, [last], id, hash');
    CarriesHolds(init, id, hash);
    CarriesHolds(init, id, hash');
    if last.messageID != id {
      OneContent(init, id, hash, hash');
    }
  }

  // ---- what must be retained ----

  /** The messages of `later` that are appended when they are checked after `log`: all but edits. */
  function Appends(log: seq<HashEntry>, later: seq<HashEntry>, lim: Limits): nat {
    if later == [] then 0
    else
      Appends(log, Init(later), lim) + if IsEdit(Run(log + Init(later), lim), Last(later), lim) then 0 else 1
  }

  /** Message `p` does not give the ID of `e` another content. */
  predicate Spares(p: HashEntry, e: HashEntry) {
    p.messageID == e.messageID && p.messageID > 0 ==> p.hash == e.hash
  }

  predicate AllSpare(later: seq<HashEntry>, e: HashEntry) {
    later == [] || (AllSpare(Init(later), e) && Spares(Last(later), e))
  }

  /** Dropping a stale entry passes an entry that is not stale. */
  lemma {:induction false} DropStaleAround(
    before: seq<HashEntry>, e: HashEntry, after: seq<HashEntry>, id: int, hash: Digest)
    returns (front: seq<HashEntry>, back: seq<HashEntry>)
    requires !Stale(e, id, hash)
    ensures DropStale(before + [e] + after, id, hash) == front + [e] + back && |back| <= |after|
  {
    var all := before + [e] + after;
    if before == [] {
      var found, a, x, b := DropStaleCases(after, id, hash);
      assert all[1..] == after;
      front, back := [], DropStale(after, id, hash);
    } else {
      assert all[1..] == before[1..] + [e] + after;
      if Stale(before[0], id, hash) {
        front, back := before[1..], after;
      } else {
        front, back := DropStaleAround(before[1..], e, after, id, hash);
        assert [before[0]] + (front + [e] + back) == ([before[0]] + front) + [e] + back;
        front := [before[0]] + front;
      }
    }
  }

  lemma NewestAround<T>(before: seq<T>, e: T, after: seq<T>, n: nat) returns (front: seq<T>)
    requires |after| < n
    ensures Newest(before + [e] + after, n) == front + [e] + after
  {
    var all := before + [e] + after;
    front := if |all| <= n then before else before[|all| - n..];
  }

  /** The live entries around a live one. */
  lemma KeptAround(before: seq<HashEntry>, e: HashEntry, after: seq<HashEntry>, p: HashEntry, lim: Limits)
    returns (front: seq<HashEntry>, back: seq<HashEntry>)
    requires e.time > p.time - lim.window && Spares(p, e)
    ensures Kept(before + [e] + after, p, lim) == front + [e] + back && |back| <= |after|
  {
    var c := p.time - lim.window;
    LiveConcat(before + [e], after, c);
    LiveConcat(before, [e], c);
    assert Live([e], c) == [e] by {
      assert Init([e]) == [] && Live([], c) == [] && [] + [e] == [e];
    }
    LiveSound(after, c);
    hide Live, IDsUnique, TimeOrdered, NoLaterThan, Carries;
    front, back := Live(before, c), Live(after, c);
    if p.messageID > 0 {
      front, back := DropStaleAround(front, e, back, p.messageID, p.hash);
    }
  }

  /** One message leaves an entry in place that it spares, if the entry is live and there is room. */
  lemma StepAround(before: seq<HashEntry>, e: HashEntry, after: seq<HashEntry>, p: HashEntry, lim: Limits)
    returns (front: seq<HashEntry>, back: seq<HashEntry>)
    requires e.time > p.time - lim.window && Spares(p, e)
    requires var entries := before + [e] + after;
      |after| + (if IsEdit(entries, p, lim) then 0 else 1) < lim.maxEntries
    ensures var entries := before + [e] + after;
      && Step(entries, p, lim) == front + [e] + back
      && |back| <= |after| + if IsEdit(entries, p, lim) then 0 else 1
  {
    hide Kept, IsEdit, Spares;
    front, back := KeptAround(before, e, after, p, lim);
    if !IsEdit(before + [e] + after, p, lim) {
      assert front + [e] + back + [p] == front + [e] + (back + [p]);
      back := back + [p];
    }
    front := NewestAround(front, e, back, lim.maxEntries);
  }

  lemma {:induction false} RunAround(log: seq<HashEntry>, e: HashEntry, later: seq<HashEntry>, lim: Limits)
    returns (front: seq<HashEntry>, back: seq<HashEntry>)
    requires !IsEdit(Run(log, lim), e, lim) && AllSpare(later, e)
    requires NoLaterThan(later, e.time + lim.window - 1) && Appends(log + [e], later, lim) < lim.maxEntries
    ensures Run(log + [e] + later, lim) == front + [e] + back && |back| <= Appends(log + [e], later, lim)
  {
    hide Run, Live, Kept, IsEdit, Step, Spares;
    if later == [] {
      assert log + [e] + later == log + [e];
      RunAppend(log, e, lim);
      front, back := StepAppends(Run(log, lim), e, lim);
    } else {
      var init, p := Split(later);
      var f, b := RunAround(log, e, init, lim);
      assert log + [e] + later == (log + [e] + init) + [p];
      RunAppend(log + [e] + init, p, lim);
      front, back := StepAround(f, e, b, p, lim);
    }
  }

  /** A message that is no edit is the last entry. */
  lemma StepAppends(entries: seq<HashEntry>, p: HashEntry, lim: Limits)
    returns (front: seq<HashEntry>, back: seq<HashEntry>)
    requires !IsEdit(entries, p, lim) && lim.maxEntries > 0
    ensures Step(entries, p, lim) == front + [p] + back && back == []
  {
    hide Kept, IsEdit;
    back := [];
    assert Kept(entries, p, lim) + [p] + [] == Kept(entries, p, lim) + [p];
    front := NewestAround(Kept(entries, p, lim), p, [], lim.maxEntries);
  }

  /** The converse: the entry of a message is retained as long as it is inside the window, no later
      message gave its ID another content, and fewer than `maxEntries` messages were appended after
      it. */
  lemma LatestContentIsRetained(log: seq<HashEntry>, e: HashEntry, later: seq<HashEntry>, lim: Limits)
    requires !IsEdit(Run(log, lim), e, lim) && AllSpare(later, e)
    requires NoLaterThan(later, e.time + lim.window - 1) && Appends(log + [e], later, lim) < lim.maxEntries
    ensures e in Run(log + [e] + later, lim) && Holds(Run(log + [e] + later, lim), e.messageID, e.hash)
    ensures e.messageID > 0 ==> LatestContent(log + [e] + later, e.messageID) == Some(e.hash)
  {
    hide Run, IsEdit, Appends, Spares, NoLaterThan;
    var front, back := RunAround(log, e, later, lim);
    HoldsConcat(front + [e], back, e.messageID, e.hash);
    HoldsConcat(front, [e], e.messageID, e.hash);
    SparedIsLatest(log, e, later);
  }

  lemma {:induction false} SparedIsLatest(log: seq<HashEntry>, e: HashEntry, later: seq<HashEntry>)
    requires AllSpare(later, e)
    ensures e.messageID > 0 ==> LatestContent(log + [e] + later, e.messageID) == Some(e.hash)
  {
    if later == [] {
      assert log + [e] + later == log + [e];
    } else {
      InitLast(log + [e], later);
      SparedIsLatest(log, e, Init(later));
    }
  }

  /** Re-checking a message that is still live under its ID and content is an edit: it never
      flags, and the list it leaves is the live part of the list before it, so no count over
      the window changes. */
  lemma RecheckChangesNothing(log: seq<HashEntry>, p: HashEntry, threshold: int, lim: Limits)
    requires TimeOrdered(log + [p]) && IsEdit(Run(log, lim), p, lim)
    ensures Run(log + [p], lim) == Live(Run(log, lim), p.time - lim.window)
    ensures !Flagged(Run(log, lim), p, threshold, lim)
  {
    OrderedInit(log, p);
    RunSound(log, p.time, lim);
    RunAppend(log, p, lim);
    KeptSound(Run(log, lim), p, lim);
  }

  // ---- the sliding window ----

  lemma {:induction false} RetainedWasPosted(log: seq<HashEntry>, lim: Limits, id: int)
    ensures Carries(Run(log, lim), id) ==> Carries(log, id)
  {
    if log != [] {
      var init, p := Split(log);
      RetainedWasPosted(init, lim, id);
      RunAppend(init, p, lim);
      StepCarries(Run(init, lim), p, lim, id);
      CarriesConcat(init, [p], id);
    }
  }

  lemma StepCarries(entries: seq<HashEntry>, p: HashEntry, lim: Limits, id: int)
    ensures Carries(Step(entries, p, lim), id) ==> Carries(entries, id) || id == p.messageID
  {
    hide Live, DropStale, IDsUnique, TimeOrdered, NoLaterThan, IsEdit;
    var kept := Kept(entries, p, lim);
    var all := if IsEdit(entries, p, lim) then kept else kept + [p];
    if |all| > lim.maxEntries {
      var cut := |all| - lim.maxEntries;
      assert all == all[..cut] + all[cut..];
      CarriesConcat(all[..cut], all[cut..], id);
    }
    CarriesConcat(kept, [p], id);
    LiveSound(entries, p.time - lim.window);
    DropStaleSubset(Live(entries, p.time - lim.window), p.messageID, p.hash, id, 0, 0);
  }

  /** A message with a new ID keeps every live entry and is appended. */
  lemma FreshAppends(entries: seq<HashEntry>, p: HashEntry, lim: Limits)
    requires p.messageID > 0 ==> !Carries(entries, p.messageID)
    ensures !IsEdit(entries, p, lim)
    ensures Step(entries, p, lim) == Newest(Live(entries, p.time - lim.window) + [p], lim.maxEntries)
  {
    hide Live, DropStale, IDsUnique, TimeOrdered, NoLaterThan;
    var live := Live(entries, p.time - lim.window);
    LiveSound(entries, p.time - lim.window);
    CarriesHolds(live, p.messageID, p.hash);
    var found, a, x, b := DropStaleCases(live, p.messageID, p.hash);
    if found && p.messageID > 0 {
      CarriesConcat(a + [x], b, p.messageID);
      CarriesConcat(a, [x], p.messageID);
    }
  }

  /** When all positive IDs of a run are different, every message is appended. */
  lemma FreshPostAppends(log: seq<HashEntry>, p: HashEntry, lim: Limits)
    requires IDsUnique(log + [p])
    ensures IDsUnique(log) && !IsEdit(Run(log, lim), p, lim)
    ensures Run(log + [p], lim) == Newest(Live(Run(log, lim), p.time - lim.window) + [p], lim.maxEntries)
  {
    InitLast(log, [p]);
    assert log + Init([p]) == log;
    RetainedWasPosted(log, lim, p.messageID);
    RunAppend(log, p, lim);
    FreshAppends(Run(log, lim), p, lim);
  }

  /** On a time-ordered list, capping and then filtering equals filtering and then capping. */
  lemma LiveOfNewest(entries: seq<HashEntry>, n: nat, cutoff: int)
    requires TimeOrdered(entries)
    ensures Live(Newest(entries, n), cutoff) == Newest(Live(entries, cutoff), n)
  {
    if |entries| <= n {
      LiveSound(entries, cutoff);
    } else {
      var dropped, kept := entries[..|entries| - n], entries[|entries| - n..];
      assert entries == dropped + kept;
      LiveConcat(dropped, kept, cutoff);
      LiveSound(kept, cutoff);
      if Live(dropped, cutoff) != [] {
        LiveTail(dropped, kept, cutoff);
      }
    }
  }

  /** One step of the exactness proof: capping and filtering commute along a run. */
  lemma WindowStep(all: seq<HashEntry>, e: HashEntry, c0: int, c: int, n: nat)
    requires TimeOrdered(all) && c0 <= c < e.time
    ensures Newest(Live(Newest(Live(all, c0), n), c) + [e], n) == Newest(Live(all + [e], c), n)
  {
    LiveSound(all, c0);
    LiveOfNewest(Live(all, c0), n, c);
    LiveLive(all, c0, c);
    NewestAppend(Live(all, c), [e], n);
    LiveConcat(all, [e], c);
    assert Init([e]) == [] && [] + [e] == [e];
  }

  lemma NothingLive(cutoff: int, lim: Limits)
    ensures Live([], cutoff) == Run([], lim) == []
  {
  }

  /** Exactness: without edits the list is the newest `maxEntries` of all messages ever
      checked that are newer than the window. */
  lemma {:induction false} WindowExact(log: seq<HashEntry>, p: HashEntry, lim: Limits)
    requires lim.window > 0 && TimeOrdered(log + [p]) && IDsUnique(log + [p])
    ensures Run(log + [p], lim) == Newest(Live(log + [p], p.time - lim.window), lim.maxEntries)
    decreases |log|
  {
    hide Run, Live, TimeOrdered, NoLaterThan, IDsUnique, IsEdit;
    FreshPostAppends(log, p, lim);
    OrderedInit(log, p);
    var c := p.time - lim.window;
    if log == [] {
      NothingLive(c, lim);
      WindowStep(log, p, c, c, lim.maxEntries);
    } else {
      var init, q := Split(log);
      LastNoLater(log, p.time);
      WindowExact(init, q, lim);
      WindowStep(log, p, q.time - lim.window, c, lim.maxEntries);
    }
  }

  lemma LastNoLater(log: seq<HashEntry>, t: int)
    requires log != [] && NoLaterThan(log, t)
    ensures Last(log).time <= t
  {
  }

  /** So the list is the messages from some position on: those that are both among the newest
      `maxEntries` and inside the window. */
  lemma WindowPositions(log: seq<HashEntry>, p: HashEntry, lim: Limits) returns (from: nat)
    requires lim.window > 0 && TimeOrdered(log + [p]) && IDsUnique(log + [p])
    ensures var all := log + [p];
      && from <= |all| && Run(all, lim) == all[from..]
      && forall i :: 0 <= i < |all| ==>
        (i >= from <==> i >= |all| - lim.maxEntries && all[i].time > p.time - lim.window)
  {
    hide Run, Live, TimeOrdered, NoLaterThan, IDsUnique;
    var all := log + [p];
    WindowExact(log, p, lim);
    var live := LiveMeans(all, p.time - lim.window);
    from := if |all| - live <= lim.maxEntries then live else |all| - lim.maxEntries;
  }

  /** Without edits a message is flagged exactly when, among the newest `maxEntries` messages ever
      checked, itself included, at least `threshold` are inside the window and have its content. */
  lemma FlaggedExactly(log: seq<HashEntry>, p: HashEntry, threshold: int, lim: Limits)
    requires lim.window > 0 && TimeOrdered(log + [p]) && IDsUnique(log + [p])
    ensures var all := log + [p];
      Flagged(Run(log, lim), p, threshold, lim) <==>
        |set i: nat | |all| - lim.maxEntries <= i < |all| && all[i].time > p.time - lim.window && all[i].hash == p.hash|
          >= threshold
  {
    hide Run, Live, TimeOrdered, NoLaterThan, IDsUnique, IsEdit, Step, CountOf;
    var all := log + [p];
    FreshPostAppends(log, p, lim);
    RunAppend(log, p, lim);
    var from := WindowPositions(log, p, lim);
    CountOfMeans(all, from, p.hash);
    SamePositions(all, from, p, lim);
  }

  lemma SamePositions(all: seq<HashEntry>, from: nat, p: HashEntry, lim: Limits)
    requires from <= |all| && forall i :: 0 <= i < |all| ==>
      (i >= from <==> i >= |all| - lim.maxEntries && all[i].time > p.time - lim.window)
    ensures (set i: nat | from <= i < |all| && all[i].hash == p.hash) ==
      (set i: nat | |all| - lim.maxEntries <= i < |all| && all[i].time > p.time - lim.window && all[i].hash == p.hash)
  {
  }

  /** With edits, too, a flag means that the message is none, and that `threshold` entries of the
      list after it have its content. */
  lemma FlaggedMeans(log: seq<HashEntry>, p: HashEntry, threshold: int, lim: Limits)
    ensures var before, after := Run(log, lim), Run(log + [p], lim);
      Flagged(before, p, threshold, lim) <==>
        && !(p.messageID > 0 && exists e :: (
               && e in before && e.messageID == p.messageID && e.hash == p.hash && e.time > p.time - lim.window))
        && |set i: nat | i < |after| && after[i].hash == p.hash| >= threshold
  {
    hide Run, Step, IsEdit, CountOf;
    var after := Run(log + [p], lim);
    RunAppend(log, p, lim);
    IsEditMeans(Run(log, lim), p, lim);
    CountOfMeans(after, 0, p.hash);
    assert after[0..] == after;
    assert (set i: nat | 0 <= i < |after| && after[i].hash == p.hash) ==
      (set i: nat | i < |after| && after[i].hash == p.hash);
  }

  // ---- clean-up and eviction ----

  /** A user's history as the detector sees it over time: messages, and clean-ups that filter
      the stored list (dropping it altogether when nothing is left). */
  datatype Event = Message(post: HashEntry) | CleanUp(at: int)

  function TimeOf(ev: Event): int {
    match ev
    case Message(p) => p.time
    case CleanUp(at) => at
  }

  function Messages(events: seq<Event>): seq<HashEntry> {
    if events == [] then []
    else Messages(Init(events)) + if Last(events).Message? then [Last(events).post] else []
  }

  function RunCleaned(events: seq<Event>, lim: Limits): seq<HashEntry> {
    if events == [] then []
    else
      var before := RunCleaned(Init(events), lim);
      match Last(events)
      case Message(p) => Step(before, p, lim)
      case CleanUp(at) => Live(before, at - lim.window)
  }

  /** The events come in time order, and none after `now`. */
  predicate InTime(events: seq<Event>, now: int) {
    events == [] || (TimeOf(Last(events)) <= now && InTime(Init(events), TimeOf(Last(events))))
  }

  /** A step depends only on the live part of the list. */
  lemma StepOfLive(a: seq<HashEntry>, b: seq<HashEntry>, p: HashEntry, lim: Limits)
    requires Live(a, p.time - lim.window) == Live(b, p.time - lim.window)
    ensures Step(a, p, lim) == Step(b, p, lim) && IsEdit(a, p, lim) == IsEdit(b, p, lim)
  {
  }

  lemma LastEvent(init: seq<Event>, ev: Event, lim: Limits)
    ensures Messages(init + [ev]) == if ev.Message? then Messages(init) + [ev.post] else Messages(init)
    ensures RunCleaned(init + [ev], lim) ==
      if ev.Message? then Step(RunCleaned(init, lim), ev.post, lim) else Live(RunCleaned(init, lim), ev.at - lim.window)
  {
    hide Step, Live;
    InitLast(init, [ev]);
    assert init + Init([ev]) == init && Messages(init) + [] == Messages(init);
  }

  /** Clean-ups at any points of a run change no later list as far as it is live. */
  lemma {:induction false} CleanUpTransparent(events: seq<Event>, now: int, lim: Limits)
    requires InTime(events, now)
    ensures Live(RunCleaned(events, lim), now - lim.window) == Live(Run(Messages(events), lim), now - lim.window)
  {
    hide Messages, RunCleaned, Run, Live, Step, IsEdit;
    if events == [] {
      NoEvents(lim);
    } else {
      var init, ev := Init(events), Last(events);
      CleanUpTransparent(init, TimeOf(ev), lim);
      assert events == init + [ev];
      LastEvent(init, ev, lim);
      var a, b := RunCleaned(init, lim), Run(Messages(init), lim);
      if ev.Message? {
        RunAppend(Messages(init), ev.post, lim);
        StepOfLive(a, b, ev.post, lim);
      } else {
        LiveLive(a, ev.at - lim.window, now - lim.window);
        LiveAgreesLater(a, b, ev.at - lim.window, now - lim.window);
      }
    }
  }

  lemma NoEvents(lim: Limits)
    ensures RunCleaned([], lim) == Run(Messages([]), lim)
  {
  }

  /** So every message gets the same list, the same edit verdict and the same flag. */
  lemma CleanUpChangesNoVerdict(events: seq<Event>, p: HashEntry, threshold: int, lim: Limits)
    requires InTime(events, p.time)
    ensures Step(RunCleaned(events, lim), p, lim) == Run(Messages(events) + [p], lim)
    ensures IsEdit(RunCleaned(events, lim), p, lim) == IsEdit(Run(Messages(events), lim), p, lim)
    ensures Flagged(RunCleaned(events, lim), p, threshold, lim) ==
      Flagged(Run(Messages(events), lim), p, threshold, lim)
  {
    CleanUpTransparent(events, p.time, lim);
    RunAppend(Messages(events), p, lim);
    StepOfLive(RunCleaned(events, lim), Run(Messages(events), lim), p, lim);
  }

  /** A list last stored at `stored` holds nothing live once `2 * window` has passed, so losing
      it to the cache's time limit loses nothing. */
  lemma ExpiredMeansDead(entries: seq<HashEntry>, stored: int, now: int, lim: Limits)
    requires NoLaterThan(entries, stored) && stored <= now && now > stored + 2 * lim.window
    ensures Live(entries, now - lim.window) == []
  {
    NoLaterWeaken(entries, stored, now - lim.window);
    NoneLive(entries, now - lim.window);
  }

  // ---- the IDs returned for deletion ----

  lemma {:induction false} IDsNoDup(entries: seq<HashEntry>, hash: Digest)
    requires IDsUnique(entries)
    ensures NoDup(IDsOf(entries, hash))
  {
    if entries != [] {
      var init, last := Init(entries), Last(entries);
      IDsNoDup(init, hash);
      var ids := IDsOf(init, hash);
      forall k | 0 <= k < |ids|
        ensures ids[k] == last.messageID ==> last.messageID <= 0
      {
        IDsCarried(init, hash, k);
        CarriesHolds(init, ids[k], hash);
      }
    }
  }

  /** The retained IDs of the content of `p`, other than that of `p` itself. */
  function OtherIDs(entries: seq<HashEntry>, p: HashEntry): seq<int> {
    RemoveFirst(IDsOf(entries, p.hash), p.messageID)
  }

  /** The current message is the last entry of the list it has just been appended to, and its
      ID the last of the retained ones. */
  lemma AppendedIsLast(entries: seq<HashEntry>, p: HashEntry, lim: Limits)
    requires IDsUnique(entries) && TimeOrdered(entries) && NoLaterThan(entries, p.time)
    requires !IsEdit(entries, p, lim) && lim.maxEntries > 0 && p.messageID > 0
    ensures var ids := IDsOf(Step(entries, p, lim), p.hash);
      ids != [] && Last(ids) == p.messageID && OtherIDs(Step(entries, p, lim), p) == Init(ids) && NoDup(ids)
  {
    var after := Step(entries, p, lim);
    StepSound(entries, p, lim);
    assert Last(after) == p;
    hide Live, DropStale, Holds, Carries, NoLaterThan, TimeOrdered, IsEdit, Kept, Step;
    IDsNoDup(after, p.hash);
    var ids := IDsOf(after, p.hash);
    RemoveFirstAt(ids, p.messageID, |ids| - 1);
  }

  lemma NewestButLast<T>(s: seq<T>, n: nat)
    requires |s| > 0 && n > 0
    ensures var t := Newest(s, n); (if |t| > 1 then Init(t) else []) == Newest(Init(s), n - 1)
  {
  }

  /** The newest IDs but the last: none twice, not the last one, and all of them IDs of the list. */
  lemma NewestOfInit(ids: seq<int>, m: nat)
    requires ids != [] && NoDup(ids)
    ensures var extra := Newest(Init(ids), m);
      NoDup(extra) && Last(ids) !in extra && forall id :: id in extra ==> id in ids
  {
    var extra := Newest(Init(ids), m);
    var shift := |ids| - 1 - |extra|;
    assert forall k :: 0 <= k < |extra| ==> extra[k] == ids[shift + k];
  }

  lemma IDsAreHeld(after: seq<HashEntry>, hash: Digest)
    ensures forall id :: id in IDsOf(after, hash) ==> id > 0 && Holds(after, id, hash)
  {
    hide IDsOf, Holds;
    forall id | id in IDsOf(after, hash)
      ensures id > 0 && Holds(after, id, hash)
    {
      var k :| 0 <= k < |IDsOf(after, hash)| && IDsOf(after, hash)[k] == id;
      IDsCarried(after, hash, k);
    }
  }

  lemma ExtraIDsAreNewest(after: seq<HashEntry>, p: HashEntry, lim: Limits)
    requires p.messageID > 0 && lim.maxEntries > 0 && IDsOf(after, p.hash) != []
    ensures ExtraIDs(after, p, lim) == Newest(Init(IDsOf(after, p.hash)), IDCap(lim) - 1)
  {
    hide IDsOf;
    NewestButLast(IDsOf(after, p.hash), IDCap(lim));
  }

  lemma ExtraIDsOfList(after: seq<HashEntry>, p: HashEntry, lim: Limits)
    requires p.messageID > 0 && lim.maxEntries > 0
    requires var ids := IDsOf(after, p.hash); ids != [] && Last(ids) == p.messageID && NoDup(ids)
    ensures var extra := ExtraIDs(after, p, lim);
      && extra == Newest(Init(IDsOf(after, p.hash)), IDCap(lim) - 1)
      && NoDup(extra) && p.messageID !in extra
      && forall id :: id in extra ==> id > 0 && Holds(after, id, p.hash)
  {
    hide IDsOf, Holds, NoDup, Newest, ExtraIDs;
    ExtraIDsAreNewest(after, p, lim);
    NewestOfInit(IDsOf(after, p.hash), IDCap(lim) - 1);
    IDsAreHeld(after, p.hash);
  }

  /** The other IDs are those of the other retained copies, in the order of the list. */
  lemma OtherIDsMean(entries: seq<HashEntry>, p: HashEntry, lim: Limits) returns (at: seq<nat>)
    requires IDsUnique(entries) && TimeOrdered(entries) && NoLaterThan(entries, p.time)
    requires !IsEdit(entries, p, lim) && lim.maxEntries > 0 && p.messageID > 0
    ensures var after := Step(entries, p, lim);
      var others := OtherIDs(after, p);
      && |at| == |others| && (forall j, k :: 0 <= j < k < |at| ==> at[j] < at[k])
      && (forall k :: 0 <= k < |at| ==> at[k] < |after| && after[at[k]].messageID == others[k])
      && forall i: nat :: i in at <==>
        i < |after| && after[i].hash == p.hash && after[i].messageID > 0 && after[i].messageID != p.messageID
  {
    hide Step, IDsOf, OtherIDs, IsEdit, IDsUnique, TimeOrdered, NoLaterThan;
    var after := Step(entries, p, lim);
    var ids := IDsOf(after, p.hash);
    AppendedIsLast(entries, p, lim);
    var all := IDsOfMeans(after, p.hash);
    at := Init(all);
    var n := Last(all);
    forall i: nat
      ensures i in at <==>
        i < |after| && after[i].hash == p.hash && after[i].messageID > 0 && after[i].messageID != p.messageID
    {
      OneLast(all, i);
      if i in at {
        var k :| 0 <= k < |at| && at[k] == i;
        assert all[k] == i && ids[k] != ids[|ids| - 1];
      }
    }
  }

  lemma OneLast(all: seq<nat>, i: nat)
    requires all != [] && forall j, k :: 0 <= j < k < |all| ==> all[j] < all[k]
    ensures i in Init(all) <==> i in all && i != Last(all)
  {
    if i in all && i != Last(all) {
      var k :| 0 <= k < |all| && all[k] == i;
      assert Init(all)[k] == i;
    }
    if i in Init(all) {
      var k :| 0 <= k < |Init(all)| && Init(all)[k] == i;
      assert all[k] == i;
    }
  }

  lemma OtherIDsAreFew(entries: seq<HashEntry>, p: HashEntry, lim: Limits)
    requires IDsUnique(entries) && TimeOrdered(entries) && NoLaterThan(entries, p.time)
    requires !IsEdit(entries, p, lim) && lim.maxEntries > 0 && p.messageID > 0
    ensures |OtherIDs(Step(entries, p, lim), p)| < lim.maxEntries
  {
    hide Step, IDsOf, OtherIDs, IsEdit, IDsUnique, TimeOrdered, NoLaterThan, CountOf;
    AppendedIsLast(entries, p, lim);
    StepSound(entries, p, lim);
    IDsAtMostCount(Step(entries, p, lim), p.hash);
  }

  /** A flag on a positive ID asks for the deletion of the other retained copies, in order, the
      newest 99 of them if there are more, none twice and never the message itself. */
  lemma ExtraIDsAreOtherCopies(entries: seq<HashEntry>, p: HashEntry, lim: Limits)
    requires IDsUnique(entries) && TimeOrdered(entries) && NoLaterThan(entries, p.time)
    requires !IsEdit(entries, p, lim) && lim.maxEntries > 0 && p.messageID > 0
    ensures var after := Step(entries, p, lim);
      var others, extra := OtherIDs(after, p), ExtraIDs(after, p, lim);
      && extra == (if |others| <= 99 then others else others[|others| - 99..])
      && NoDup(extra) && p.messageID !in extra
      && forall id :: id in extra ==> id > 0 && Holds(after, id, p.hash)
  {
    hide Step, IDsOf, Holds, NoDup, ExtraIDs, OtherIDs, IsEdit, IDsUnique, TimeOrdered, NoLaterThan;
    AppendedIsLast(entries, p, lim);
    ExtraIDsOfList(Step(entries, p, lim), p, lim);
    OtherIDsAreFew(entries, p, lim);
  }

  /** A text posted three times: flagged at threshold 3, and the first two posts are asked for. */
  lemma ThreePostsExample(lim: Limits)
    requires lim == Limits(10, 200)
    ensures var log, p := [HashEntry(1, 0, 1), HashEntry(1, 1, 2)], HashEntry(1, 2, 3);
      && TimeOrdered(log + [p]) && Flagged(Run(log, lim), p, 3, lim) && !Flagged(Run(log, lim), p, 4, lim)
      && ExtraIDs(Run(log + [p], lim), p, lim) == [1, 2]
  {
    hide Run, Live, Step, IsEdit, TimeOrdered, IDsUnique, IDsOf, CountOf, Holds, Carries;
    var a, b, p := HashEntry(1, 0, 1), HashEntry(1, 1, 2), HashEntry(1, 2, 3);
    ThreePosts();
    NothingLive(-10, lim);
    assert [] + [a] == [a] && [a] + [b] == [a, b] && [a, b] + [p] == [a, b, p];
    AppendsNext([], a, lim);
    AppendsNext([a], b, lim);
    AppendsNext([a, b], p, lim);
  }

  /** A message with a new ID joins a list that is inside the window and has room. */
  lemma AppendsNext(log: seq<HashEntry>, p: HashEntry, lim: Limits)
    requires Run(log, lim) == log && Live(log, p.time - lim.window) == log && |log| < lim.maxEntries
    requires !Carries(log, p.messageID)
    ensures Run(log + [p], lim) == Step(log, p, lim) == log + [p] && !IsEdit(log, p, lim)
  {
    hide Run, Live, Step, IsEdit, Carries;
    RunAppend(log, p, lim);
    FreshAppends(log, p, lim);
    assert Newest(log + [p], lim.maxEntries) == log + [p];
  }

  /** What the three posts are together. */
  lemma ThreePosts()
    ensures var a, b, p := HashEntry(1, 0, 1), HashEntry(1, 1, 2), HashEntry(1, 2, 3);
      && TimeOrdered([a, b, p]) && Live([a], -9) == [a] && Live([a, b], -8) == [a, b]
      && !Carries([], 1) && !Carries([a], 2) && !Carries([a, b], 3)
      && IDsOf([a, b, p], 1) == [1, 2, 3] && CountOf([a, b, p], 1) == 3
  {
    var a, b, p := HashEntry(1, 0, 1), HashEntry(1, 1, 2), HashEntry(1, 2, 3);
    assert Init([a]) == [] && Init([a, b]) == [a] && Init([a, b, p]) == [a, b];
    TimeOrderedMeans([a, b, p]);
    CarriesMeans([a], 2);
    CarriesMeans([a, b], 3);
    assert Live([], -9) == Live([], -8) == [] && [] + [a] == [a] && [a] + [b] == [a, b];
    assert Live([a], -9) == Live([a], -8) == [a];
    assert IDsOf([], 1) == [] && CountOf([], 1) == 0;
    assert [] + [1] == [1] && [1] + [2] == [1, 2] && [1, 2] + [3] == [1, 2, 3];
    assert IDsOf([a], 1) == [1] && CountOf([a], 1) == 1;
    assert IDsOf([a, b], 1) == [1, 2] && CountOf([a, b], 1) == 2;
  }

  /** Without a positive ID the last tracked ID is another message's, yet it is left out too:
      the returned list is every retained copy exactly when there is none at all. */
  lemma NoIDLosesNewestCopy(entries: seq<HashEntry>, p: HashEntry, lim: Limits)
    requires p.messageID <= 0
    ensures var after := Step(entries, p, lim);
      ExtraIDs(after, p, lim) == IDsOf(after, p.hash) <==> IDsOf(after, p.hash) == []
  {
    var ids := IDsOf(Step(entries, p, lim), p.hash);
    if |ids| > 0 {
      assert |ExtraIDs(Step(entries, p, lim), p, lim)| == |ids| - 1;
    }
  }

  /** A text posted twice, the second time without an ID: flagged at threshold 2, yet the first
      post is not asked for. */
  lemma NoIDLosesNewestCopyExample(lim: Limits)
    requires lim == Limits(10, 200)
    ensures var log, p := [HashEntry(1, 0, 7)], HashEntry(1, 1, 0);
      && TimeOrdered(log + [p]) && Flagged(Run(log, lim), p, 2, lim)
      && IDsOf(Run(log + [p], lim), p.hash) == [7] && ExtraIDs(Run(log + [p], lim), p, lim) == []
  {
    var p := HashEntry(1, 1, 0);
    var log := [HashEntry(1, 0, 7)];
    TwoPosts();
    OnePost(lim);
    hide Run, Live, Step, TimeOrdered, IDsOf, CountOf;
    RunAppend(log, p, lim);
    FreshAppends(log, p, lim);
    assert Newest(log + [p], lim.maxEntries) == log + [p];
  }

  lemma OnePost(lim: Limits)
    requires lim == Limits(10, 200)
    ensures Run([HashEntry(1, 0, 7)], lim) == [HashEntry(1, 0, 7)]
  {
    var first := HashEntry(1, 0, 7);
    assert [] + [first] == [first] && Run([], lim) == [];
    assert Live([], -10) == [];
    hide Run, Live, Step;
    RunAppend([], first, lim);
    FreshAppends([], first, lim);
  }

  /** What the two posts are together. */
  lemma TwoPosts()
    ensures var log, p := [HashEntry(1, 0, 7)], HashEntry(1, 1, 0);
      && TimeOrdered(log + [p]) && Live(log, -9) == log && !Carries(log, 0)
      && IDsOf(log + [p], 1) == [7] && CountOf(log + [p], 1) == 2
  {
    var log, p := [HashEntry(1, 0, 7)], HashEntry(1, 1, 0);
    assert Init(log) == [] && Init([p]) == [];
    IDsConcat(log, [p], 1);
    CountConcat(log, [p], 1);
    TimeOrderedMeans(log + [p]);
    CarriesMeans(log, 0);
    assert Live([], -9) == [] && [] + log == log;
    assert CountOf([], 1) == 0 && IDsOf([], 1) == [];
  }
}
