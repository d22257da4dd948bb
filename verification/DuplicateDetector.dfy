/** The duplicate detector as lib/tgspam/duplicate.go runs it: a cache of histories with a time
    limit, and in each history an index of trackers beside the list of entries. The ghost
    field `posted` holds every message ever tracked; `Valid` ties the cache to it. */
module DuplicateDetection {
  import opened Seqs
  import opened DuplicateSpec
  import opened DuplicateRuns
  import Decimals

  datatype HashTracker = HashTracker(count: int, messageIDs: seq<int>, firstSeen: Option<int>, lastSeen: Option<int>)

  type Trackers = map<Digest, HashTracker>

  datatype UserHistory = UserHistory(entries: seq<HashEntry>, trackers: Trackers)

  datatype CacheItem = CacheItem(value: UserHistory, expiresAt: int)

  /** How formatDuration renders a duration. */
  datatype Elapsed = Window(window: int) | Instantly | Seconds(n: int)

  datatype Response =
    | CheckDisabled
    | EmptyMessageSkipped
    | InvalidUserID
    | MessageEdit
    | NoDuplicatesFound
    | Repeated(count: int, elapsed: Elapsed, extraDeleteIDs: seq<int>)

  const DEFAULT_MAX_ENTRIES_PER_USER: nat := 200
  const CLEANUP_INTERVAL: int := 600_000_000_000

  /** Reading an absent tracker yields the zero tracker. */
  function Lookup(trk: Trackers, hash: Digest): HashTracker {
    if hash in trk then trk[hash] else HashTracker(0, [], None, None)
  }

  predicate IsSpace(c: char) {
    || c in "\t\n\r " || c == '\U{000B}' || c == '\U{000C}' || c == '\U{0085}' || c == '\U{00A0}'
    || c == '\U{1680}' || '\U{2000}' <= c <= '\U{200A}' || c == '\U{2028}' || c == '\U{2029}'
    || c == '\U{202F}' || c == '\U{205F}' || c == '\U{3000}'
  }

  /** Nothing is left once surrounding white space is trimmed. */
  predicate Blank(s: string) {
    forall i :: 0 <= i < |s| ==> IsSpace(s[i])
  }

  /** What the index should say of one hash. */
  function TrackerOf(entries: seq<HashEntry>, hash: Digest): HashTracker {
    HashTracker(CountOf(entries, hash), IDsOf(entries, hash), FirstTime(entries, hash), LastTime(entries, hash))
  }

  /** The index holds exactly the hashes of the list. */
  ghost predicate SameHashes(entries: seq<HashEntry>, trk: Trackers) {
    forall h :: h in trk <==> CountOf(entries, h) > 0
  }

  /** The index agrees with the list in counts and IDs; for one hash the IDs may be capped. */
  ghost predicate Counted(entries: seq<HashEntry>, trk: Trackers, hash: Digest, cap: nat) {
    && SameHashes(entries, trk)
    && forall h :: h in trk ==>
      && trk[h].count == CountOf(entries, h)
      && trk[h].messageIDs == if h == hash then Newest(IDsOf(entries, h), cap) else IDsOf(entries, h)
  }

  ghost predicate Timed(entries: seq<HashEntry>, trk: Trackers, hash: Digest)
    requires hash in trk
  {
    trk[hash].firstSeen == FirstTime(entries, hash) && trk[hash].lastSeen == LastTime(entries, hash)
  }

  /** The dates agree with the list, except those of a content that `p` just edited away. */
  ghost predicate TimedExceptOld(entries: seq<HashEntry>, trk: Trackers, live: seq<HashEntry>, p: HashEntry) {
    forall h :: h in trk && !(p.messageID > 0 && h != p.hash && Holds(live, p.messageID, h)) ==> Timed(entries, trk, h)
  }

  /** The dates of the other contents agree with the list, except those of an edited one. */
  ghost predicate OthersTimed(entries: seq<HashEntry>, trk: Trackers, live: seq<HashEntry>, p: HashEntry) {
    forall h :: h in trk && h != p.hash && !(p.messageID > 0 && Holds(live, p.messageID, h)) ==> Timed(entries, trk, h)
  }

  /** The index agrees with the list in everything. */
  ghost predicate Indexed(entries: seq<HashEntry>, trk: Trackers) {
    SameHashes(entries, trk) && forall h :: h in trk ==> trk[h] == TrackerOf(entries, h)
  }

  lemma TrackerAppend(entries: seq<HashEntry>, e: HashEntry, hash: Digest)
    ensures var t, t' := TrackerOf(entries, hash), TrackerOf(entries + [e], hash);
      t' == if e.hash == hash then Advanced(t, e) else t
  {
    InitLast(entries, [e]);
    assert entries + Init([e]) == entries;
    FirstTimeConcat(entries, [e], hash);
    assert IDsOf(entries, hash) + [] == IDsOf(entries, hash);
  }

  /** removeMessageID */
  method RemoveMessageID(messageIDs: seq<int>, messageID: int) returns (r: seq<int>)
    ensures r == RemoveFirst(messageIDs, messageID)
  {
    for i := 0 to |messageIDs|
      invariant messageID !in messageIDs[..i]
    {
      if messageIDs[i] == messageID {
        RemoveFirstAt(messageIDs, messageID, i);
        return messageIDs[..i] + messageIDs[i + 1..];
      }
    }
    assert messageIDs[..|messageIDs|] == messageIDs;
    RemoveFirstAbsent(messageIDs, messageID);
    return messageIDs;
  }

  /** Taking the first entry with a given hash and positive ID out of a list takes its ID out
      of the hash's IDs. */
  lemma IDsWithout(a: seq<HashEntry>, x: HashEntry, b: seq<HashEntry>, h: Digest)
    requires x.messageID > 0 && !Holds(a, x.messageID, x.hash)
    ensures CountOf(a + b, h) == CountOf(a + [x] + b, h) - if h == x.hash then 1 else 0
    ensures IDsOf(a + b, h) ==
      if h == x.hash then RemoveFirst(IDsOf(a + [x] + b, h), x.messageID) else IDsOf(a + [x] + b, h)
  {
    CountConcat(a + [x], b, h);
    CountConcat(a, [x], h);
    CountConcat(a, b, h);
    IDsConcat(a + [x], b, h);
    IDsConcat(a, [x], h);
    IDsConcat(a, b, h);
    assert Init([x]) == [] && IDsOf(a, h) + [] == IDsOf(a, h);
    assert IDsOf([x], h) == if h == x.hash then [x.messageID] else [];
    if h == x.hash {
      assert x.messageID !in IDsOf(a, h) by {
        if x.messageID in IDsOf(a, h) {
          var k :| 0 <= k < |IDsOf(a, h)| && IDsOf(a, h)[k] == x.messageID;
          IDsCarried(a, h, k);
        }
      }
      RemoveFirstSplit(IDsOf(a, h), x.messageID, IDsOf(b, h));
    }
  }

  lemma TimesWithout(a: seq<HashEntry>, x: HashEntry, b: seq<HashEntry>, h: Digest)
    requires h != x.hash
    ensures FirstTime(a + b, h) == FirstTime(a + [x] + b, h) && LastTime(a + b, h) == LastTime(a + [x] + b, h)
  {
    FirstTimeConcat(a + [x], b, h);
    FirstTimeConcat(a, [x], h);
    FirstTimeConcat(a, b, h);
    CountConcat(a, [x], h);
    assert Init([x]) == [];
    LastTimeConcat(a + [x], b, h);
    LastTimeConcat(a, [x], h);
    LastTimeConcat(a, b, h);
  }

  /** The edit block of trackMessage (lines 133-155): takes the entry an edit makes obsolete
      out of the list and out of the index. The times of its old hash are left as they were. */
  method DropOldContent(filtered: seq<HashEntry>, trk: Trackers, p: HashEntry)
    returns (res: seq<HashEntry>, out: Trackers)
    requires Indexed(filtered, trk)
    ensures res == if p.messageID > 0 then DropStale(filtered, p.messageID, p.hash) else filtered
    ensures Counted(res, out, p.hash, |res|) && TimedExceptOld(res, out, filtered, p)
  {
    var messageID, hash := p.messageID, p.hash;
    res, out := filtered, trk;
    forall h
      ensures Newest(IDsOf(filtered, h), |filtered|) == IDsOf(filtered, h)
    {
      IDsAtMostCount(filtered, h);
    }
    if messageID > 0 {
      for i := 0 to |filtered|
        invariant !StaleIn(filtered[..i], messageID, hash)
      {
        var entry := filtered[i];
        ghost var a, b := filtered[..i], filtered[i + 1..];
        assert filtered == a + [entry] + b;
        if entry.messageID == messageID && entry.hash != hash {
          DropStaleHere(a, entry, b, messageID, hash);
          res := filtered[..i] + filtered[i + 1..];
          CountConcat(a + [entry], b, entry.hash);
          CountConcat(a, [entry], entry.hash);
          assert Init([entry]) == [];
          var t := trk[entry.hash];
          var ids := RemoveMessageID(t.messageIDs, messageID);
          t := t.(messageIDs := ids, count := t.count - 1);
          out := if t.count == 0 then trk - {entry.hash} else trk[entry.hash := t];
          forall h
            ensures h in out <==> CountOf(res, h) > 0
            ensures h in out ==>
              out[h].count == CountOf(res, h) && out[h].messageIDs == IDsOf(res, h) == Newest(IDsOf(res, h), |res|)
            ensures h in out && h != entry.hash ==> Timed(res, out, h)
          {
            IDsWithout(a, entry, b, h);
            IDsAtMostCount(res, h);
            if h != entry.hash {
              TimesWithout(a, entry, b, h);
            }
          }
          HoldsConcat(a + [entry], b, messageID, entry.hash);
          HoldsConcat(a, [entry], messageID, entry.hash);
          return;
        }
        NotStaleYet(filtered, i, messageID, hash);
      }
      assert filtered[..|filtered|] == filtered;
      NoStaleNoDrop(filtered, messageID, hash);
    }
  }

  /** Some entry is stale for this ID and content. */
  predicate StaleIn(entries: seq<HashEntry>, messageID: int, hash: Digest) {
    entries != [] && (Stale(entries[0], messageID, hash) || StaleIn(entries[1..], messageID, hash))
  }

  lemma {:induction false} StaleInConcat(a: seq<HashEntry>, b: seq<HashEntry>, id: int, hash: Digest)
    ensures StaleIn(a + b, id, hash) <==> StaleIn(a, id, hash) || StaleIn(b, id, hash)
  {
    if a == [] {
      assert a + b == b;
    } else {
      assert (a + b)[1..] == a[1..] + b;
      StaleInConcat(a[1..], b, id, hash);
    }
  }

  lemma NotStaleYet(filtered: seq<HashEntry>, i: nat, id: int, hash: Digest)
    requires i < |filtered| && !StaleIn(filtered[..i], id, hash) && !Stale(filtered[i], id, hash)
    ensures !StaleIn(filtered[..i + 1], id, hash)
  {
    assert filtered[..i + 1] == filtered[..i] + [filtered[i]];
    StaleInConcat(filtered[..i], [filtered[i]], id, hash);
  }

  lemma {:induction false} NoStaleNoDrop(entries: seq<HashEntry>, id: int, hash: Digest)
    requires !StaleIn(entries, id, hash)
    ensures DropStale(entries, id, hash) == entries
  {
    if entries != [] {
      NoStaleNoDrop(entries[1..], id, hash);
    }
  }

  lemma {:induction false} DropStaleHere(a: seq<HashEntry>, x: HashEntry, b: seq<HashEntry>, id: int, hash: Digest)
    requires !StaleIn(a, id, hash) && Stale(x, id, hash)
    ensures DropStale(a + [x] + b, id, hash) == a + b
    ensures !Holds(a, id, x.hash)
  {
    if a == [] {
      assert a + [x] + b == [x] + b && a + b == b;
    } else {
      assert (a + [x] + b)[1..] == a[1..] + [x] + b;
      DropStaleHere(a[1..], x, b, id, hash);
      assert [a[0]] + (a[1..] + b) == a + b;
    }
  }

  /** filterExpiredEntries */
  method FilterExpiredEntries(entries: seq<HashEntry>, now: int, window: int)
    returns (res: seq<HashEntry>, trk: Trackers)
    ensures res == Live(entries, now - window) && Indexed(res, trk)
  {
    var cutoff := now - window;
    res, trk := [], map[];
    for i := 0 to |entries|
      invariant res == Live(entries[..i], cutoff) && Indexed(res, trk)
    {
      var entry := entries[i];
      assert entries[..i + 1] == entries[..i] + [entry];
      InitLast(entries[..i], [entry]);
      assert entries[..i] + Init([entry]) == entries[..i];
      if entry.time <= cutoff {
        assert res + [] == res;
        continue;
      }
      IndexedAppend(res, trk, entry);
      res := res + [entry];
      var t := Lookup(trk, entry.hash);
      t := t.(count := t.count + 1);
      if entry.messageID > 0 {
        t := t.(messageIDs := t.messageIDs + [entry.messageID]);
      }
      if t.firstSeen == None {
        t := t.(firstSeen := Some(entry.time));
      }
      t := t.(lastSeen := Some(entry.time));
      assert t.messageIDs == Advanced(Lookup(trk, entry.hash), entry).messageIDs;
      trk := trk[entry.hash := t];
    }
    assert entries[..|entries|] == entries;
  }

  /** A tracker after one more entry of its hash. */
  function Advanced(t: HashTracker, e: HashEntry): HashTracker {
    HashTracker(
      t.count + 1, t.messageIDs + if e.messageID > 0 then [e.messageID] else [],
      if t.firstSeen == None then Some(e.time) else t.firstSeen, Some(e.time))
  }

  /** Advancing the tracker of its hash keeps the index in step with an appended entry. */
  lemma IndexedAppend(entries: seq<HashEntry>, trk: Trackers, e: HashEntry)
    requires Indexed(entries, trk)
    ensures Indexed(entries + [e], trk[e.hash := Advanced(Lookup(trk, e.hash), e)])
  {
    if CountOf(entries, e.hash) == 0 {
      AbsentTracker(entries, e.hash);
    }
    forall h
      ensures TrackerOf(entries + [e], h) ==
        if e.hash == h then Advanced(TrackerOf(entries, h), e) else TrackerOf(entries, h)
      ensures CountOf(entries + [e], h) == TrackerOf(entries + [e], h).count
    {
      TrackerAppend(entries, e, h);
    }
  }

  lemma {:induction false} AbsentTracker(entries: seq<HashEntry>, hash: Digest)
    requires CountOf(entries, hash) == 0
    ensures TrackerOf(entries, hash) == HashTracker(0, [], None, None)
  {
    if entries != [] {
      AbsentTracker(Init(entries), hash);
      assert entries == Init(entries) + [Last(entries)];
      FirstTimeConcat(Init(entries), [Last(entries)], hash);
    }
  }

  /** limitEntries: keeps the newest `maxEntries` entries and takes the others out of the index.
      `hash` is the hash whose IDs the caller may have capped at `cap`. */
  method LimitEntries(entries: seq<HashEntry>, m: Trackers, maxEntries: nat, ghost hash: Digest, ghost cap: nat)
    returns (res: seq<HashEntry>, out: Trackers)
    requires Counted(entries, m, hash, cap) && IDsUnique(entries)
    ensures res == Newest(entries, maxEntries) && Counted(res, out, hash, cap)
    ensures |entries| <= maxEntries ==> out == m
    ensures |entries| > maxEntries ==> forall h :: h in out ==> out[h].firstSeen == FirstTime(res, h)
    ensures forall h :: h in out ==> h in m && out[h].lastSeen == m[h].lastSeen
  {
    hide CountOf, IDsOf, IDsUnique, FirstTime;
    if |entries| <= maxEntries {
      return entries, m;
    }
    var startIdx := |entries| - maxEntries;
    out := m;
    assert entries[0..] == entries;
    for i := 0 to startIdx
      invariant Counted(entries[i..], out, hash, cap) && IDsUnique(entries[i..])
      invariant forall h :: h in out ==> h in m && out[h].lastSeen == m[h].lastSeen
    {
      assert entries[i..] == [entries[i]] + entries[i + 1..];
      out := ForgetOldest(entries[i], out, entries[i + 1..], hash, cap);
    }
    res := entries[startIdx..];
    out := RecalculateFirstSeen(res, out, hash, cap);
  }

  /** One round of the first loop of limitEntries (lines 270-283): takes the oldest entry `x` out
      of the index; `rest` are the entries behind it. */
  method ForgetOldest(x: HashEntry, trk: Trackers, ghost rest: seq<HashEntry>, ghost hash: Digest, ghost cap: nat)
    returns (out: Trackers)
    requires Counted([x] + rest, trk, hash, cap) && IDsUnique([x] + rest)
    ensures Counted(rest, out, hash, cap) && IDsUnique(rest)
    ensures forall h :: h in out ==> h in trk && out[h].lastSeen == trk[h].lastSeen
  {
    SoundHalves([x], rest);
    if x.messageID > 0 {
      UniqueHead(x, rest);
    }
    CountHead(x, rest, x.hash);
    out := trk;
    if x.hash in trk {
      var t := trk[x.hash];
      t := t.(count := t.count - 1);
      if x.messageID > 0 {
        var ids := RemoveMessageID(t.messageIDs, x.messageID);
        t := t.(messageIDs := ids);
      }
      CountedTail(x, rest, trk, t, hash, cap);
      if t.count == 0 {
        out := trk - {x.hash};
      } else {
        out := trk[x.hash := t];
      }
    }
  }

  method RecalculateFirstSeen(entries: seq<HashEntry>, m: Trackers, ghost hash: Digest, ghost cap: nat)
    returns (out: Trackers)
    requires Counted(entries, m, hash, cap)
    ensures Counted(entries, out, hash, cap)
    ensures forall h :: h in out ==>
      h in m && out[h].lastSeen == m[h].lastSeen && out[h].firstSeen == FirstTime(entries, h)
  {
    out := m;
    var seenHashes: set<Digest> := {};
    for j := 0 to |entries|
      invariant out.Keys == m.Keys
      invariant forall h :: h in out ==>
        out[h] == m[h].(firstSeen := if h in seenHashes then FirstTime(entries, h) else m[h].firstSeen)
      invariant forall h :: h in seenHashes <==> CountOf(entries[..j], h) > 0
    {
      var entry := entries[j];
      OccurrenceAt(entries, j);
      if entry.hash in out {
        if entry.hash !in seenHashes {
          out := out[entry.hash := out[entry.hash].(firstSeen := Some(entry.time))];
          seenHashes := seenHashes + {entry.hash};
        }
      }
    }
    assert entries[..|entries|] == entries;
  }

  /** Entry `j` has a hash of the list, and dates it when no entry before it has that hash. */
  lemma OccurrenceAt(entries: seq<HashEntry>, j: nat)
    requires j < |entries|
    ensures CountOf(entries, entries[j].hash) > 0
    ensures forall h :: CountOf(entries[..j + 1], h) == CountOf(entries[..j], h) + if entries[j].hash == h then 1 else 0
    ensures CountOf(entries[..j], entries[j].hash) == 0 ==> FirstTime(entries, entries[j].hash) == Some(entries[j].time)
  {
    hide CountOf, FirstTime, IDsOf, LastTime;
    var e, before, after := entries[j], entries[..j], entries[j + 1..];
    assert entries[..j + 1] == before + [e] && entries == before + ([e] + after);
    forall h
      ensures CountOf(before + [e], h) == CountOf(before, h) + if e.hash == h then 1 else 0
    {
      TrackerAppend(before, e, h);
    }
    CountConcat(before, [e] + after, e.hash);
    CountHead(e, after, e.hash);
    FirstTimeConcat(before, [e] + after, e.hash);
    FirstOfHead(e, after);
  }

  lemma FirstOfHead(e: HashEntry, rest: seq<HashEntry>)
    ensures FirstTime([e] + rest, e.hash) == Some(e.time)
  {
  }

  lemma CountHead(x: HashEntry, rest: seq<HashEntry>, h: Digest)
    ensures CountOf([x] + rest, h) == CountOf(rest, h) + if x.hash == h then 1 else 0
    ensures IDsOf([x] + rest, h) == (if x.hash == h && x.messageID > 0 then [x.messageID] else []) + IDsOf(rest, h)
  {
    CountConcat([x], rest, h);
    IDsConcat([x], rest, h);
    assert Init([x]) == [];
  }

  /** The ID of the head of a list with unique IDs is on no later entry. */
  lemma {:induction false} UniqueHead(x: HashEntry, rest: seq<HashEntry>)
    requires IDsUnique([x] + rest) && x.messageID > 0
    ensures !Carries(rest, x.messageID)
  {
    if rest != [] {
      InitLast([x], rest);
      UniqueHead(x, Init(rest));
      CarriesConcat([x], Init(rest), Last(rest).messageID);
      assert rest == Init(rest) + [Last(rest)];
      CarriesConcat(Init(rest), [Last(rest)], x.messageID);
    }
  }

  /** Removing the oldest ID from a capped list of distinct IDs. */
  lemma RemoveOldest(id: int, ids: seq<int>, cap: nat)
    requires id !in ids
    ensures RemoveFirst(Newest([id] + ids, cap), id) == Newest(ids, cap)
  {
    if |ids| < cap {
      assert ([id] + ids)[1..] == ids;
    } else {
      assert Newest([id] + ids, cap) == Newest(ids, cap);
      RemoveFirstAbsent(Newest(ids, cap), id);
    }
  }

  /** Taking the head of the list out of the index. */
  lemma CountedTail(x: HashEntry, rest: seq<HashEntry>, trk: Trackers, t: HashTracker, hash: Digest, cap: nat)
    requires Counted([x] + rest, trk, hash, cap) && x.hash in trk && (x.messageID > 0 ==> !Carries(rest, x.messageID))
    requires t.count == trk[x.hash].count - 1
    requires t.messageIDs ==
      if x.messageID > 0 then RemoveFirst(trk[x.hash].messageIDs, x.messageID) else trk[x.hash].messageIDs
    ensures Counted(rest, if t.count == 0 then trk - {x.hash} else trk[x.hash := t], hash, cap)
  {
    hide CountOf, IDsOf, Carries;
    forall h
      ensures CountOf([x] + rest, h) == CountOf(rest, h) + if x.hash == h then 1 else 0
      ensures IDsOf([x] + rest, h) ==
        if x.hash == h && x.messageID > 0 then [x.messageID] + IDsOf(rest, h) else IDsOf(rest, h)
    {
      CountHead(x, rest, h);
    }
    if x.messageID > 0 {
      var ids := IDsOf(rest, x.hash);
      assert x.messageID !in ids by {
        if x.messageID in ids {
          var k :| 0 <= k < |ids| && ids[k] == x.messageID;
          IDsCarried(rest, x.hash, k);
          CarriesHolds(rest, x.messageID, x.hash);
        }
      }
      RemoveOldest(x.messageID, ids, cap);
      RemoveOldest(x.messageID, ids, |ids| + 1);
    }
  }

  /** Whether an entry of the list carries this ID with this content (lines 160-168). */
  method FindEdit(entries: seq<HashEntry>, messageID: int, hash: Digest) returns (found: bool)
    ensures found <==> messageID > 0 && Holds(entries, messageID, hash)
  {
    HoldsMeans(entries, messageID, hash);
    found := false;
    if messageID > 0 {
      for i := 0 to |entries|
        invariant forall j :: 0 <= j < i ==> !(entries[j].messageID == messageID && entries[j].hash == hash)
      {
        if entries[i].messageID == messageID && entries[i].hash == hash {
          return true;
        }
      }
    }
  }

  /** Dropping stale entries does not affect whether the new content is there. */
  lemma DropStaleKeepsNew(live: seq<HashEntry>, id: int, hash: Digest)
    ensures Holds(DropStale(live, id, hash), id, hash) <==> Holds(live, id, hash)
  {
    var found, a, x, b := DropStaleCases(live, id, hash);
    if found {
      HoldsConcat(a + [x], b, id, hash);
      HoldsConcat(a, [x], id, hash);
      HoldsConcat(a, b, id, hash);
    }
  }

  /** The append block of trackMessage (lines 170-193): counts the message unless it is an edit,
      and dates its tracker. */
  method CountMessage(filtered: seq<HashEntry>, trk: Trackers, p: HashEntry, isEdit: bool, lim: Limits)
    returns (res: seq<HashEntry>, out: Trackers, ghost cap: nat)
    requires Counted(filtered, trk, p.hash, |filtered|) && (isEdit ==> Holds(filtered, p.messageID, p.hash))
    requires p.hash in trk ==> trk[p.hash].firstSeen == FirstTime(filtered, p.hash)
    ensures res == if isEdit then filtered else filtered + [p]
    ensures cap == if !isEdit && p.messageID > 0 then (if lim.maxEntries < 100 then lim.maxEntries else 100) else |res|
    ensures Counted(res, out, p.hash, cap)
    ensures out.Keys == trk.Keys + {p.hash} && forall h :: h in trk && h != p.hash ==> out[h] == trk[h]
    ensures out[p.hash].firstSeen == FirstTime(res, p.hash) && out[p.hash].lastSeen == Some(p.time)
  {
    hide IDsUnique, TimeOrdered, NoLaterThan, Carries, CountOf, IDsOf, FirstTime, Holds;
    res := filtered;
    var tracker := Lookup(trk, p.hash);
    cap := |filtered|;
    IDsAtMostCount(filtered, p.hash);
    if isEdit {
      CarriesHolds(filtered, p.messageID, p.hash);
    } else {
      TrackerAppend(filtered, p, p.hash);
      if CountOf(filtered, p.hash) == 0 {
        AbsentTracker(filtered, p.hash);
      }
      assert tracker.count == CountOf(filtered, p.hash) && tracker.messageIDs == IDsOf(filtered, p.hash);
      assert tracker.firstSeen == FirstTime(filtered, p.hash);
      res := filtered + [p];
      cap := |res|;
      tracker := tracker.(count := tracker.count + 1);
      if p.messageID > 0 {
        tracker := tracker.(messageIDs := tracker.messageIDs + [p.messageID]);
        var maxIDs := if lim.maxEntries < MAX_TRACKED_IDS then lim.maxEntries else MAX_TRACKED_IDS;
        if |tracker.messageIDs| > maxIDs {
          tracker := tracker.(messageIDs := tracker.messageIDs[|tracker.messageIDs| - maxIDs..]);
        }
        cap := maxIDs;
      }
      if tracker.firstSeen == None {
        tracker := tracker.(firstSeen := Some(p.time));
      }
      assert tracker.messageIDs == Newest(IDsOf(res, p.hash), cap);
    }
    tracker := tracker.(lastSeen := Some(p.time));
    out := trk[p.hash := tracker];
    CountedUpdate(filtered, trk, p, isEdit, tracker, cap);
  }

  lemma CountedUpdate(filtered: seq<HashEntry>, trk: Trackers, p: HashEntry, isEdit: bool, t: HashTracker, cap: nat)
    requires Counted(filtered, trk, p.hash, |filtered|)
    requires var res := if isEdit then filtered else filtered + [p];
      t.count == CountOf(res, p.hash) > 0 && t.messageIDs == Newest(IDsOf(res, p.hash), cap)
    ensures Counted(if isEdit then filtered else filtered + [p], trk[p.hash := t], p.hash, cap)
  {
    if !isEdit {
      forall h
        ensures CountOf(filtered + [p], h) == CountOf(filtered, h) + if p.hash == h then 1 else 0
        ensures p.hash != h ==> IDsOf(filtered + [p], h) == IDsOf(filtered, h)
      {
        TrackerAppend(filtered, p, h);
      }
    }
  }

  /** What the index says after message `p`, where `live` are the entries that were live before
      it: it agrees with the list, the IDs of the message's own hash possibly capped; the hash
      is dated from its oldest retained copy to now; and the other hashes are dated by the
      list, except one that `p` just took an entry from, which keeps its old dates. */
  ghost predicate IndexAfter(history: UserHistory, live: seq<HashEntry>, p: HashEntry, isEdit: bool, lim: Limits) {
    var entries, trk := history.entries, history.trackers;
    && SameHashes(entries, trk) && p.hash in trk
    && (forall h :: h in trk ==>
         && trk[h].count == CountOf(entries, h)
         && trk[h].messageIDs == if h == p.hash then TrackedIDs(entries, p, isEdit, lim) else IDsOf(entries, h))
    && trk[p.hash].firstSeen == FirstTime(entries, p.hash) && trk[p.hash].lastSeen == Some(p.time)
    && OthersTimed(entries, trk, live, p)
  }

  /** Appending and capping date the other hashes as the list does. */
  lemma DatesSurvive(kept: seq<HashEntry>, p: HashEntry, isEdit: bool, maxEntries: nat, h: Digest)
    requires h != p.hash
    ensures var all := if isEdit then kept else kept + [p];
      && FirstTime(all, h) == FirstTime(kept, h) && LastTime(all, h) == LastTime(kept, h)
      && (CountOf(Newest(all, maxEntries), h) > 0 ==> LastTime(Newest(all, maxEntries), h) == LastTime(all, h))
  {
    var all := if isEdit then kept else kept + [p];
    TrackerAppend(kept, p, h);
    if |all| > maxEntries {
      var cut := |all| - maxEntries;
      assert all == all[..cut] + all[cut..];
      LastTimeConcat(all[..cut], all[cut..], h);
    }
  }

  /** The dates of the other hashes survive the append and the cap. */
  lemma TimesComplete(
    live: seq<HashEntry>, kept: seq<HashEntry>, keptTrk: Trackers, p: HashEntry, isEdit: bool,
    allTrk: Trackers, finalTrk: Trackers, maxEntries: nat)
    requires var all := if isEdit then kept else kept + [p];
      && TimedExceptOld(kept, keptTrk, live, p)
      && (forall h :: h in allTrk && h != p.hash ==> h in keptTrk && allTrk[h] == keptTrk[h])
      && SameHashes(Newest(all, maxEntries), finalTrk)
      && (|all| <= maxEntries ==> finalTrk == allTrk)
      && (|all| > maxEntries ==> forall h :: h in finalTrk ==>
        finalTrk[h].firstSeen == FirstTime(Newest(all, maxEntries), h))
      && (forall h :: h in finalTrk ==> h in allTrk && finalTrk[h].lastSeen == allTrk[h].lastSeen)
    ensures OthersTimed(Newest(if isEdit then kept else kept + [p], maxEntries), finalTrk, live, p)
  {
    var all := if isEdit then kept else kept + [p];
    forall h | h in finalTrk && h != p.hash && !(p.messageID > 0 && Holds(live, p.messageID, h))
      ensures Timed(Newest(all, maxEntries), finalTrk, h)
    {
      DatesSurvive(kept, p, isEdit, maxEntries, h);
      assert Timed(kept, keptTrk, h);
    }
  }

  /** The index part of trackMessage: append, cap and read the count. */
  method CountAndLimit(
    ghost live: seq<HashEntry>, kept: seq<HashEntry>, trk: Trackers, p: HashEntry, isEdit: bool, lim: Limits)
    returns (res: seq<HashEntry>, out: Trackers)
    requires lim.maxEntries > 0 && |kept| <= lim.maxEntries && (isEdit ==> Holds(kept, p.messageID, p.hash))
    requires Counted(kept, trk, p.hash, |kept|) && TimedExceptOld(kept, trk, live, p)
    requires p.hash in trk ==> trk[p.hash].firstSeen == FirstTime(kept, p.hash)
    requires IDsUnique(if isEdit then kept else kept + [p])
    ensures res == Newest(if isEdit then kept else kept + [p], lim.maxEntries)
    ensures IndexAfter(UserHistory(res, out), live, p, isEdit, lim)
  {
    ghost var cap;
    var all, allTrk;
    all, allTrk, cap := CountMessage(kept, trk, p, isEdit, lim);
    res, out := LimitEntries(all, allTrk, lim.maxEntries, p.hash, cap);
    CurrentRetained(kept, p, isEdit, lim.maxEntries);
    assert p.hash in out && out[p.hash].firstSeen == FirstTime(res, p.hash) && out[p.hash].lastSeen == Some(p.time);
    TimesComplete(live, kept, trk, p, isEdit, allTrk, out, lim.maxEntries);
    IndexComplete(res, out, live, p, isEdit, lim, cap);
  }

  lemma IndexComplete(
    res: seq<HashEntry>, trk: Trackers, live: seq<HashEntry>, p: HashEntry, isEdit: bool, lim: Limits, cap: nat)
    requires Counted(res, trk, p.hash, cap) && OthersTimed(res, trk, live, p) && p.hash in trk
    requires if !isEdit && p.messageID > 0 then cap == IDCap(lim) else cap >= |res|
    requires trk[p.hash].firstSeen == FirstTime(res, p.hash) && trk[p.hash].lastSeen == Some(p.time)
    ensures IndexAfter(UserHistory(res, trk), live, p, isEdit, lim)
  {
    IDsAtMostCount(res, p.hash);
  }

  /** The filtering part of trackMessage: expire, then take out old content. */
  method KeepLive(entries: seq<HashEntry>, p: HashEntry, lim: Limits) returns (kept: seq<HashEntry>, trk: Trackers)
    ensures kept == Kept(entries, p, lim)
    ensures Counted(kept, trk, p.hash, |kept|) && TimedExceptOld(kept, trk, Live(entries, p.time - lim.window), p)
    ensures p.hash in trk ==> trk[p.hash].firstSeen == FirstTime(kept, p.hash)
  {
    hide Live, DropStale, Holds, Counted, Indexed, CountOf, IDsOf, FirstTime, LastTime;
    var live, liveTrk := FilterExpiredEntries(entries, p.time, lim.window);
    kept, trk := DropOldContent(live, liveTrk, p);
  }

  /** What the kept entries of a sound list satisfy. */
  lemma ReadyToCount(entries: seq<HashEntry>, p: HashEntry, lim: Limits)
    requires IDsUnique(entries) && TimeOrdered(entries)
    ensures var kept, edit := Kept(entries, p, lim), IsEdit(entries, p, lim);
      && (edit <==> p.messageID > 0 && Holds(kept, p.messageID, p.hash))
      && |kept| <= |entries|
      && IDsUnique(if edit then kept else kept + [p])
  {
    hide Live, DropStale, IDsUnique, TimeOrdered, NoLaterThan, Carries, Holds;
    KeptSound(entries, p, lim);
    DropStaleKeepsNew(Live(entries, p.time - lim.window), p.messageID, p.hash);
    UniqueAppend(Kept(entries, p, lim), p);
  }

  /** The part of trackMessage that works on one user's history (lines 130-214). */
  method UpdateHistory(history: UserHistory, p: HashEntry, threshold: int, lim: Limits)
    returns (after: UserHistory, count: int, extraIDs: seq<int>, isEdit: bool)
    requires lim.maxEntries > 0 && |history.entries| <= lim.maxEntries
    requires IDsUnique(history.entries) && TimeOrdered(history.entries)
    ensures isEdit == IsEdit(history.entries, p, lim)
    ensures after.entries == Step(history.entries, p, lim)
    ensures IndexAfter(after, Live(history.entries, p.time - lim.window), p, isEdit, lim)
    ensures count == CountOf(after.entries, p.hash)
    ensures extraIDs == if count >= threshold && !isEdit then ExtraIDs(after.entries, p, lim) else []
  {
    ghost var live := Live(history.entries, p.time - lim.window);
    var kept, keptTrk := KeepLive(history.entries, p, lim);
    isEdit := FindEdit(kept, p.messageID, p.hash);
    ReadyToCount(history.entries, p, lim);
    var filtered, trackers := CountAndLimit(live, kept, keptTrk, p, isEdit, lim);
    after := UserHistory(filtered, trackers);
    count, extraIDs := ReadVerdict(after, live, p, isEdit, threshold, lim);
  }

  /** Lines 198-211: the count, and the IDs to delete when it reaches the threshold. */
  method ReadVerdict(
    after: UserHistory, ghost live: seq<HashEntry>, p: HashEntry, isEdit: bool, threshold: int, lim: Limits)
    returns (count: int, extraIDs: seq<int>)
    requires IndexAfter(after, live, p, isEdit, lim)
    ensures count == CountOf(after.entries, p.hash)
    ensures extraIDs == if count >= threshold && !isEdit then ExtraIDs(after.entries, p, lim) else []
  {
    var tracker := Lookup(after.trackers, p.hash);
    count := tracker.count;
    extraIDs := [];
    if count >= threshold && !isEdit {
      if |tracker.messageIDs| > 1 {
        extraIDs := tracker.messageIDs[..|tracker.messageIDs| - 1];
      }
    }
  }

  lemma UniqueAppend(kept: seq<HashEntry>, p: HashEntry)
    requires IDsUnique(kept)
    ensures (p.messageID > 0 ==> !Carries(kept, p.messageID)) ==> IDsUnique(kept + [p])
  {
    InitLast(kept, [p]);
    assert kept + Init([p]) == kept;
  }

  /** The message just handled is still in the capped list. */
  lemma CurrentRetained(kept: seq<HashEntry>, p: HashEntry, isEdit: bool, maxEntries: nat)
    requires maxEntries > 0 && (isEdit ==> |kept| <= maxEntries && Holds(kept, p.messageID, p.hash))
    ensures CountOf(Newest(if isEdit then kept else kept + [p], maxEntries), p.hash) > 0
  {
    if isEdit {
      CarriesHolds(kept, p.messageID, p.hash);
    } else {
      assert Last(Newest(kept + [p], maxEntries)) == p;
    }
  }

  /** One second, in nanoseconds. */
  const SECOND: int := 1_000_000_000

  /** Duration.Round */
  function RoundToSecond(d: int): int {
    if d >= 0 then (d + SECOND / 2) / SECOND else -((-d + SECOND / 2) / SECOND)
  }

  /** The time between the two dates of a tracker. */
  function Span(t: HashTracker): Option<int> {
    if t.firstSeen == None || t.lastSeen == None then None else Some(t.lastSeen.value - t.firstSeen.value)
  }

  function Rendered(span: Option<int>, window: int): Elapsed {
    match span
    case None => Window(window)
    case Some(d) => if d == 0 then Instantly else Seconds(RoundToSecond(d))
  }

  /** The time from the oldest retained copy of `p` to `p`. */
  function SpanOf(entries: seq<HashEntry>, p: HashEntry): Option<int> {
    match FirstTime(entries, p.hash)
    case None => None
    case Some(t) => Some(p.time - t)
  }

  /** A span of 0 is "instantly", and any other one is rendered to the nearest second, halves away from
      zero; without a span it is the window. */
  lemma RenderedMeans(d: int, window: int)
    ensures Rendered(None, window) == Window(window) && Rendered(Some(0), window) == Instantly
    ensures d != 0 ==>
      var r := Rendered(Some(d), window);
      && r.Seconds? && -1_000_000_000 <= 2 * (r.n * 1_000_000_000 - d) <= 1_000_000_000
      && (2 * (r.n * 1_000_000_000 - d) == 1_000_000_000 ==> d > 0)
      && (2 * (r.n * 1_000_000_000 - d) == -1_000_000_000 ==> d < 0)
  {
  }

  /** The span of a message is the time since the first entry with its content. */
  lemma SpanMeans(entries: seq<HashEntry>, p: HashEntry)
    ensures SpanOf(entries, p) == None <==> forall i :: 0 <= i < |entries| ==> entries[i].hash != p.hash
    ensures SpanOf(entries, p).Some? ==> exists i :: (
      && 0 <= i < |entries| && entries[i].hash == p.hash && SpanOf(entries, p) == Some(p.time - entries[i].time)
      && forall j :: 0 <= j < i ==> entries[j].hash != p.hash)
  {
    hide FirstTime;
    FirstTimeMeans(entries, p.hash);
  }

  /** A message is blank when all its characters are white space of Unicode. */
  lemma BlankMeans(s: string)
    ensures Blank(s) <==> forall i :: 0 <= i < |s| ==>
      var c := s[i] as int;
      || 9 <= c <= 13 || c == 32 || c == 0x85 || c == 0xA0 || c == 0x1680 || 0x2000 <= c <= 0x200A
      || c == 0x2028 || c == 0x2029 || c == 0x202F || c == 0x205F || c == 0x3000
  {
  }

  /** What a clean-up makes of one user's item: an expired one stays, for the cache to drop. */
  ghost predicate CleanedUp(before: map<int, CacheItem>, after: map<int, CacheItem>, userID: int, now: int, lim: Limits)
    requires userID in before
  {
    var item := before[userID];
    var live := Live(item.value.entries, now - lim.window);
    if now > item.expiresAt then userID in after && after[userID] == item
    else if live == [] then userID !in after
    else
      && userID in after && after[userID].expiresAt == now + 2 * lim.window
      && after[userID].value.entries == live && Indexed(live, after[userID].value.trackers)
  }

  /** How many of these messages have this very text. */
  function Copies(texts: seq<string>, text: string): nat {
    if texts == [] then 0 else Copies(Init(texts), text) + if Last(texts) == text then 1 else 0
  }

  /** Counting hashes counts texts, as long as none of the other texts at hand collides with the
      one counted. */
  lemma {:induction false} HashesCountTexts(
    digest: string -> Digest, entries: seq<HashEntry>, texts: seq<string>, text: string)
    requires |entries| == |texts|
    requires forall i :: 0 <= i < |texts| ==> entries[i].hash == digest(texts[i])
    requires forall i :: 0 <= i < |texts| && texts[i] != text ==> digest(texts[i]) != digest(text)
    ensures CountOf(entries, digest(text)) == Copies(texts, text)
  {
    if texts != [] {
      HashesCountTexts(digest, Init(entries), Init(texts), text);
    }
  }

  class DuplicateDetector {
    const threshold: int
    const lim: Limits
    const digest: string -> Digest  // the SHA-256 sum of a message
    var cache: map<int, CacheItem>
    var lastCleanup: Option<int>

    ghost var posted: map<int, seq<HashEntry>>  // per user, every message ever tracked
    ghost var clock: int                        // no operation came later than this

    /** newDuplicateDetector; a threshold that is not positive disables the detector. */
    constructor (threshold: int, window: int, digest: string -> Digest, ghost start: int)
      ensures Valid() && clock == start && posted == map[]
      ensures this.threshold == threshold && this.digest == digest
      ensures lim == Limits(window, 200)
    {
      this.threshold := threshold;
      this.lim := Limits(window, DEFAULT_MAX_ENTRIES_PER_USER);
      this.digest := digest;
      cache, lastCleanup := map[], None;
      posted, clock := map[], start;
    }

    ghost function LogOf(userID: int): seq<HashEntry>
      reads this`posted
    {
      if userID in posted then posted[userID] else []
    }

    ghost function Stored(userID: int): seq<HashEntry>
      reads this`cache
    {
      if userID in cache then cache[userID].value.entries else []
    }

    /** A stored history is sound, and was stored `2 * window` before it expires. */
    ghost predicate SoundItem(item: CacheItem)
      reads this`clock
    {
      var entries, stored := item.value.entries, item.expiresAt - 2 * lim.window;
      && IDsUnique(entries) && TimeOrdered(entries) && |entries| <= lim.maxEntries
      && NoLaterThan(entries, stored) && stored <= clock
    }

    /** What is still live of a user's stored list is what is live of the ideal list: the one
        that no clean-up and no time limit ever touched. */
    ghost predicate Matches(userID: int)
      reads this`cache, this`posted, this`clock
    {
      && TimeOrdered(LogOf(userID)) && NoLaterThan(LogOf(userID), clock)
      && Live(Stored(userID), clock - lim.window) == Live(Run(LogOf(userID), lim), clock - lim.window)
    }

    ghost predicate Valid()
      reads this`cache, this`posted, this`clock
    {
      && lim.maxEntries > 0
      && (forall u :: u in cache ==> SoundItem(cache[u]))
      && forall u: int :: Matches(u)
    }

    /** Everything holds but what concerns one user. */
    ghost predicate ValidExcept(userID: int)
      reads this`cache, this`posted, this`clock
    {
      && lim.maxEntries > 0
      && (forall u :: u in cache && u != userID ==> SoundItem(cache[u]))
      && forall u: int :: u != userID ==> Matches(u)
    }

    /** cache.Set with the detector's time limit. */
    method Set(userID: int, history: UserHistory, now: int)
      requires ValidExcept(userID) && clock == now
      requires IDsUnique(history.entries) && TimeOrdered(history.entries) && NoLaterThan(history.entries, now)
      requires |history.entries| <= lim.maxEntries
      requires TimeOrdered(LogOf(userID)) && NoLaterThan(LogOf(userID), now)
      requires Live(history.entries, now - lim.window) == Live(Run(LogOf(userID), lim), now - lim.window)
      modifies this`cache
      ensures Valid() && cache == old(cache)[userID := CacheItem(history, now + lim.window * 2)]
    {
      hide Live, Run, TimeOrdered, NoLaterThan, IDsUnique;
      cache := cache[userID := CacheItem(history, now + lim.window * 2)];
      OthersMatch(userID);
    }

    /** cache.Invalidate */
    method Invalidate(userID: int, now: int)
      requires ValidExcept(userID) && clock == now
      requires TimeOrdered(LogOf(userID)) && NoLaterThan(LogOf(userID), now)
      requires Live(Run(LogOf(userID), lim), now - lim.window) == []
      modifies this`cache
      ensures Valid() && cache == old(cache) - {userID}
    {
      hide Run, TimeOrdered, NoLaterThan, IDsUnique;
      cache := cache - {userID};
      assert Stored(userID) == [];
      OthersMatch(userID);
    }

    /** A change to one user's item touches nobody else's. */
    twostate lemma OthersMatch(userID: int)
      requires old(ValidExcept(userID)) && clock == old(clock) && posted == old(posted)
      requires cache - {userID} == old(cache) - {userID}
      ensures forall u :: u in cache && u != userID ==> SoundItem(cache[u])
      ensures forall u: int :: u != userID ==> Matches(u)
    {
      hide Live, Run, TimeOrdered, NoLaterThan, IDsUnique;
      forall u | u in cache && u != userID
        ensures u in old(cache) && cache[u] == old(cache)[u]
      {
        assert u in cache - {userID} && (cache - {userID})[u] == (old(cache) - {userID})[u];
      }
      forall u: int | u != userID
        ensures Matches(u)
      {
        assert u in cache <==> u in cache - {userID};
        assert u in old(cache) <==> u in old(cache) - {userID};
        assert old(Matches(u));
      }
    }

    /** Time passes; nothing else changes. */
    ghost method Advance(now: int)
      requires Valid() && clock <= now
      modifies this`clock
      ensures Valid() && clock == now
    {
      hide Live, Run, TimeOrdered, NoLaterThan, IDsUnique, Step, IsEdit, CountOf, ExtraIDs, IndexAfter;
      forall u: int
        ensures NoLaterThan(LogOf(u), now)
        ensures Live(Stored(u), now - lim.window) == Live(Run(LogOf(u), lim), now - lim.window)
      {
        assert Matches(u);
        StillMatches(Stored(u), LogOf(u), clock, now, lim);
      }
      label before:
      clock := now;
      forall u: int ensures Matches(u) {
        assert old@before(Matches(u));
      }
    }

    /** cache.Get: an expired item is returned, but reported as not found. */
    method Get(userID: int, now: int) returns (history: UserHistory, found: bool)
      ensures found <==> userID in cache && now <= cache[userID].expiresAt
      ensures found ==> history == cache[userID].value
    {
      if userID in cache {
        return cache[userID].value, now <= cache[userID].expiresAt;
      }
      return UserHistory([], map[]), false;
    }

    lemma DeadWhenExpired(userID: int)
      requires Valid() && userID in cache && clock > cache[userID].expiresAt
      ensures Live(Stored(userID), clock - lim.window) == []
    {
      ExpiredMeansDead(Stored(userID), cache[userID].expiresAt - 2 * lim.window, clock, lim);
    }

    /** The cache may drop an expired item at any time; nobody can tell. */
    method EvictExpired(userID: int, now: int)
      requires Valid() && clock == now && userID in cache && now > cache[userID].expiresAt
      modifies this`cache
      ensures Valid() && cache == old(cache) - {userID}
    {
      hide Live, Run, TimeOrdered, NoLaterThan, IDsUnique, Step, IsEdit, CountOf, ExtraIDs, IndexAfter;
      DeadWhenExpired(userID);
      assert Matches(userID);
      Invalidate(userID, now);
    }

    /** The round of performCleanup for one user (lines 336-352). */
    method CleanUser(userID: int, now: int)
      requires Valid() && clock == now && userID in cache
      modifies this`cache
      ensures Valid() && cache - {userID} == old(cache) - {userID}
      ensures CleanedUp(old(cache), cache, userID, now, lim)
    {
      hide Live, Run, TimeOrdered, NoLaterThan, IDsUnique, Step, IsEdit, CountOf, ExtraIDs, IndexAfter;
      var history, found := Get(userID, now);
      if !found {
        return;
      }
      var filtered, newTrackers := FilterExpiredEntries(history.entries, now, lim.window);
      assert Matches(userID);
      StoredIsLive(cache[userID], found, now, lim);
      LiveSound(history.entries, now - lim.window);
      LiveLive(history.entries, now - lim.window, now - lim.window);
      if |filtered| == 0 {
        Invalidate(userID, now);
      } else {
        Set(userID, UserHistory(filtered, newTrackers), now);
      }
    }

    /** performCleanup: every history that has not expired is filtered and gets a fresh index;
        one with nothing left is dropped. The cache lists its keys in no particular order. */
    method PerformCleanup(now: int)
      requires Valid() && clock == now
      modifies this`cache
      ensures Valid()
      ensures forall u :: u in old(cache) ==> CleanedUp(old(cache), cache, u, now, lim)
      ensures forall u :: u in cache ==> u in old(cache)
    {
      var keys := cache.Keys;
      while keys != {}
        invariant Valid() && clock == now
        invariant forall u :: u in cache ==> u in old(cache)
        invariant forall u :: u in keys ==> u in cache && u in old(cache) && cache[u] == old(cache)[u]
        invariant forall u :: u in old(cache) && u !in keys ==> CleanedUp(old(cache), cache, u, now, lim)
      {
        var userID := AnyOf(keys);
        ghost var before := cache;
        CleanUser(userID, now);
        forall u | u != userID
          ensures (u in cache <==> u in before) && (u in cache ==> cache[u] == before[u])
        {
          assert u in cache - {userID} <==> u in before - {userID};
          assert u in cache ==> (cache - {userID})[u] == (before - {userID})[u];
        }
        keys := keys - {userID};
      }
    }

    /** trackMessage: one message of one user. */
    method TrackMessage(userID: int, msg: string, messageID: int, now: int)
      returns (count: int, extraIDs: seq<int>, isEdit: bool)
      requires Valid() && clock <= now
      modifies this`cache, this`lastCleanup, this`posted, this`clock
      ensures Valid() && clock == now
      ensures posted == old(posted)[userID := old(LogOf(userID)) + [HashEntry(digest(msg), now, messageID)]]
      ensures var p, before := HashEntry(digest(msg), now, messageID), Run(old(LogOf(userID)), lim);
        && userID in cache && cache[userID].expiresAt == now + 2 * lim.window
        && Stored(userID) == Run(LogOf(userID), lim)
        && IndexAfter(cache[userID].value, Live(before, now - lim.window), p, isEdit, lim)
        && isEdit == IsEdit(before, p, lim)
        && count == CountOf(Run(LogOf(userID), lim), p.hash)
        && extraIDs == if count >= threshold && !isEdit then ExtraIDs(Run(LogOf(userID), lim), p, lim) else []
      ensures var last := old(lastCleanup);
        lastCleanup == if last == None || now - last.value > 600_000_000_000 then Some(now) else last
    {
      hide Live, Run, TimeOrdered, NoLaterThan, IDsUnique, Step, IsEdit, CountOf, ExtraIDs, IndexAfter;
      hide Flagged, Matches, SoundItem;
      Advance(now);
      if lastCleanup == None || now - lastCleanup.value > CLEANUP_INTERVAL {
        PerformCleanup(now);
        lastCleanup := Some(now);
      }
      var history, found := Get(userID, now);
      if !found {
        history := UserHistory([], map[]);
      }
      var p := HashEntry(digest(msg), now, messageID);
      ghost var log := LogOf(userID);
      FoundIsLive(userID, history, found);
      RunStep(log, history.entries, p, lim);
      var after;
      after, count, extraIDs, isEdit := UpdateHistory(history, p, threshold, lim);
      Record(userID, p);
      Set(userID, after, now);
    }

    /** check: what becomes of one request. A message that is counted joins the log of its user,
        and its verdict is that of the ideal list; any other request changes nothing. */
    method Check(userID: string, msg: string, messageID: int, now: int) returns (r: Response)
      requires Valid() && clock <= now
      modifies this`cache, this`lastCleanup, this`posted, this`clock
      ensures Valid()
      ensures var id := Decimals.ParseInt64(userID);
        if threshold <= 0 || userID == "" then r == CheckDisabled && posted == old(posted)
        else if Blank(msg) then r == EmptyMessageSkipped && posted == old(posted)
        else if id == None then r == InvalidUserID && posted == old(posted)
        else
          var p, log := HashEntry(digest(msg), now, messageID), old(LogOf(id.value));
          var before, after := Run(log, lim), Run(log + [p], lim);
          && posted == old(posted)[id.value := log + [p]]
          && (r == MessageEdit <==> IsEdit(before, p, lim))
          && (r.Repeated? <==> Flagged(before, p, threshold, lim))
          && (r.Repeated? ==> r == Repeated(CountOf(after, p.hash),
                Rendered(if lim.window < 0 then None else SpanOf(after, p), lim.window), ExtraIDs(after, p, lim)))
          && (r.Repeated? || r == MessageEdit || r == NoDuplicatesFound)
    {
      hide Live, Run, TimeOrdered, NoLaterThan, IDsUnique, Step, IsEdit, CountOf, ExtraIDs, Matches;
      hide SoundItem, TimedExceptOld, OthersTimed;
      if threshold <= 0 || userID == "" {
        return CheckDisabled;
      }
      if Blank(msg) {
        return EmptyMessageSkipped;
      }
      var parsed := Decimals.ParseInt64(userID);
      if parsed == None {
        return InvalidUserID;
      }
      var id := parsed.value;
      ghost var log := LogOf(id);
      var count, extraIDs, isEdit := TrackMessage(id, msg, messageID, now);
      ghost var p := HashEntry(digest(msg), now, messageID);
      RunAppend(log, p, lim);
      if isEdit {
        return MessageEdit;
      }
      if count >= threshold {
        var elapsed := FormatDuration(id, digest(msg), now);
        return Repeated(count, elapsed, extraIDs);
      }
      return NoDuplicatesFound;
    }

    /** formatDuration: how long ago the first retained copy was, or the window for a user or a text
        that is not tracked, or no longer. */
    method FormatDuration(userID: int, hash: Digest, now: int) returns (elapsed: Elapsed)
      ensures elapsed ==
        if userID in cache && now <= cache[userID].expiresAt && hash in cache[userID].value.trackers
        then Rendered(Span(cache[userID].value.trackers[hash]), lim.window)
        else Window(lim.window)
    {
      var history, found := Get(userID, now);
      if !found {
        return Window(lim.window);
      }
      var trackers := history.trackers;
      if hash !in trackers || trackers[hash].firstSeen == None || trackers[hash].lastSeen == None {
        return Window(lim.window);
      }
      var duration := trackers[hash].lastSeen.value - trackers[hash].firstSeen.value;
      if duration == 0 {
        return Instantly;
      }
      return Seconds(RoundToSecond(duration));
    }

    /** A message joins the log of its user. */
    ghost method Record(userID: int, p: HashEntry)
      requires Valid()
      modifies this`posted
      ensures ValidExcept(userID)
      ensures posted == old(posted)[userID := old(LogOf(userID)) + [p]] && LogOf(userID) == old(LogOf(userID)) + [p]
    {
      hide Live, Run, TimeOrdered, NoLaterThan, IDsUnique;
      posted := posted[userID := LogOf(userID) + [p]];
      forall u: int | u != userID
        ensures Matches(u)
      {
        assert old(Matches(u));
      }
    }

    /** What a look-up yields has the live part of the ideal list. */
    lemma FoundIsLive(userID: int, history: UserHistory, found: bool)
      requires Valid()
      requires found <==> userID in cache && clock <= cache[userID].expiresAt
      requires history == if found then cache[userID].value else UserHistory([], map[])
      ensures TimeOrdered(LogOf(userID)) && NoLaterThan(LogOf(userID), clock)
      ensures Live(history.entries, clock - lim.window) == Live(Run(LogOf(userID), lim), clock - lim.window)
      ensures IDsUnique(history.entries) && TimeOrdered(history.entries) && NoLaterThan(history.entries, clock)
      ensures |history.entries| <= lim.maxEntries
    {
      hide Live, Run, TimeOrdered, NoLaterThan, IDsUnique, Step, IsEdit, CountOf, ExtraIDs, IndexAfter;
      assert Matches(userID);
      EmptyIsSound(clock, lim);
      if userID in cache {
        StoredIsLive(cache[userID], found, clock, lim);
      }
    }
  }

  lemma EmptyIsSound(now: int, lim: Limits)
    ensures IDsUnique([]) && TimeOrdered([]) && NoLaterThan([], now) && Live([], now - lim.window) == []
  {
  }

  lemma StoredIsLive(item: CacheItem, found: bool, now: int, lim: Limits)
    requires found <==> now <= item.expiresAt
    requires NoLaterThan(item.value.entries, item.expiresAt - 2 * lim.window) && item.expiresAt - 2 * lim.window <= now
    ensures NoLaterThan(item.value.entries, now)
    ensures !found ==> Live(item.value.entries, now - lim.window) == []
  {
    NoLaterWeaken(item.value.entries, item.expiresAt - 2 * lim.window, now);
    if !found {
      ExpiredMeansDead(item.value.entries, item.expiresAt - 2 * lim.window, now, lim);
    }
  }

  /** The ideal list takes the same step as a stored list with the same live part. */
  lemma RunStep(log: seq<HashEntry>, stored: seq<HashEntry>, p: HashEntry, lim: Limits)
    requires Live(stored, p.time - lim.window) == Live(Run(log, lim), p.time - lim.window)
    requires TimeOrdered(log) && NoLaterThan(log, p.time)
    requires IDsUnique(stored) && TimeOrdered(stored) && NoLaterThan(stored, p.time)
    ensures Run(log + [p], lim) == Step(stored, p, lim) == Step(Run(log, lim), p, lim)
    ensures IsEdit(stored, p, lim) == IsEdit(Run(log, lim), p, lim)
    ensures TimeOrdered(log + [p]) && NoLaterThan(log + [p], p.time)
    ensures IDsUnique(Step(stored, p, lim)) && TimeOrdered(Step(stored, p, lim))
      && NoLaterThan(Step(stored, p, lim), p.time)
    ensures |Step(stored, p, lim)| <= lim.maxEntries
  {
    StepOfLive(stored, Run(log, lim), p, lim);
    RunAppend(log, p, lim);
    StepSound(stored, p, lim);
    InitLast(log, [p]);
    assert log + Init([p]) == log;
  }

  lemma StillMatches(stored: seq<HashEntry>, log: seq<HashEntry>, since: int, now: int, lim: Limits)
    requires since <= now && NoLaterThan(log, since)
    requires Live(stored, since - lim.window) == Live(Run(log, lim), since - lim.window)
    ensures NoLaterThan(log, now) && Live(stored, now - lim.window) == Live(Run(log, lim), now - lim.window)
  {
    NoLaterWeaken(log, since, now);
    LiveAgreesLater(stored, Run(log, lim), since - lim.window, now - lim.window);
  }
}
