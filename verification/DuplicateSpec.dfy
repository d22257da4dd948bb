/** The duplicate detector of lib/tgspam/duplicate.go on values: what one user's list of
    entries is, how one message changes it, and facts about such lists. */
module DuplicateSpec {
  import opened Seqs

  /** A SHA-256 sum, read as a number. */
  type Digest = int

  /** A message as it was posted, and as the detector remembers it. */
  datatype HashEntry = HashEntry(hash: Digest, time: int, messageID: int)

  /** The limits of one detector. */
  datatype Limits = Limits(window: int, maxEntries: nat)

  const MAX_TRACKED_IDS: nat := 100

  /** The entries newer than `cutoff`, in order. */
  function Live(entries: seq<HashEntry>, cutoff: int): seq<HashEntry> {
    if entries == [] then []
    else Live(Init(entries), cutoff) + if Last(entries).time > cutoff then [Last(entries)] else []
  }

  /** How many entries carry this hash. */
  function CountOf(entries: seq<HashEntry>, hash: Digest): nat {
    if entries == [] then 0
    else CountOf(Init(entries), hash) + if Last(entries).hash == hash then 1 else 0
  }

  /** The positive message IDs of the entries with this hash, in order. */
  function IDsOf(entries: seq<HashEntry>, hash: Digest): seq<int> {
    if entries == [] then []
    else
      IDsOf(Init(entries), hash) +
      if Last(entries).hash == hash && Last(entries).messageID > 0 then [Last(entries).messageID] else []
  }

  /** When the oldest entry with this hash was recorded. */
  function FirstTime(entries: seq<HashEntry>, hash: Digest): Option<int> {
    if entries == [] then None
    else if entries[0].hash == hash then Some(entries[0].time)
    else FirstTime(entries[1..], hash)
  }

  /** When the newest entry with this hash was recorded. */
  function LastTime(entries: seq<HashEntry>, hash: Digest): Option<int> {
    if entries == [] then None
    else if Last(entries).hash == hash then Some(Last(entries).time)
    else LastTime(Init(entries), hash)
  }

  /** Some entry carries this message ID. */
  predicate Carries(entries: seq<HashEntry>, messageID: int) {
    entries != [] && (entries[0].messageID == messageID || Carries(entries[1..], messageID))
  }

  /** Some entry carries this message ID with this content. */
  predicate Holds(entries: seq<HashEntry>, messageID: int, hash: Digest) {
    && entries != []
    && (|| (entries[0].messageID == messageID && entries[0].hash == hash)
        || Holds(entries[1..], messageID, hash))
  }

  /** No positive message ID occurs twice. */
  predicate IDsUnique(entries: seq<HashEntry>) {
    entries == [] || (
      && IDsUnique(Init(entries))
      && (Last(entries).messageID > 0 ==> !Carries(Init(entries), Last(entries).messageID)))
  }

  predicate NoLaterThan(entries: seq<HashEntry>, t: int) {
    entries == [] || (NoLaterThan(Init(entries), t) && Last(entries).time <= t)
  }

  /** The times never decrease. */
  predicate TimeOrdered(entries: seq<HashEntry>) {
    entries == [] || (TimeOrdered(Init(entries)) && NoLaterThan(Init(entries), Last(entries).time))
  }

  /** An entry that an edit of message `messageID` to content `hash` makes obsolete. */
  predicate Stale(e: HashEntry, messageID: int, hash: Digest) {
    e.messageID == messageID && e.hash != hash
  }

  /** The list without its first stale entry, if there is one. */
  function DropStale(entries: seq<HashEntry>, messageID: int, hash: Digest): seq<HashEntry> {
    if entries == [] then []
    else if Stale(entries[0], messageID, hash) then entries[1..]
    else [entries[0]] + DropStale(entries[1..], messageID, hash)
  }

  /** The live entries that message `p` leaves in place: an edit takes its old content out. */
  function Kept(entries: seq<HashEntry>, p: HashEntry, lim: Limits): seq<HashEntry> {
    var live := Live(entries, p.time - lim.window);
    if p.messageID > 0 then DropStale(live, p.messageID, p.hash) else live
  }

  /** `p` repeats a live message under its own ID: an edit that kept the content. */
  predicate IsEdit(entries: seq<HashEntry>, p: HashEntry, lim: Limits) {
    p.messageID > 0 && Holds(Live(entries, p.time - lim.window), p.messageID, p.hash)
  }

  /** One user's list after message `p`. */
  function Step(entries: seq<HashEntry>, p: HashEntry, lim: Limits): seq<HashEntry> {
    var kept := Kept(entries, p, lim);
    Newest(if IsEdit(entries, p, lim) then kept else kept + [p], lim.maxEntries)
  }

  /** One user's list after all the messages of `log`, with no cache, no clean-up and no index. */
  function Run(log: seq<HashEntry>, lim: Limits): seq<HashEntry> {
    if log == [] then [] else Step(Run(Init(log), lim), Last(log), lim)
  }

  /** Whether message `p` is flagged when it meets this list. */
  predicate Flagged(entries: seq<HashEntry>, p: HashEntry, threshold: int, lim: Limits) {
    !IsEdit(entries, p, lim) && CountOf(Step(entries, p, lim), p.hash) >= threshold
  }

  function IDCap(lim: Limits): nat {
    if lim.maxEntries < MAX_TRACKED_IDS then lim.maxEntries else MAX_TRACKED_IDS
  }

  /** The IDs the index keeps for the hash of message `p` once the list is `entries`: appending
      a positive ID caps them, nothing else does. */
  function TrackedIDs(entries: seq<HashEntry>, p: HashEntry, edit: bool, lim: Limits): seq<int> {
    var ids := IDsOf(entries, p.hash);
    if !edit && p.messageID > 0 then Newest(ids, IDCap(lim)) else ids
  }

  /** The IDs returned for deletion with a flag: all the tracked ones but the last. */
  function ExtraIDs(entries: seq<HashEntry>, p: HashEntry, lim: Limits): seq<int> {
    var ids := TrackedIDs(entries, p, false, lim);
    if |ids| > 1 then Init(ids) else []
  }

  // ---- what the recursive definitions say ----

  lemma {:induction false} CarriesMeans(entries: seq<HashEntry>, id: int)
    ensures Carries(entries, id) <==> exists i :: 0 <= i < |entries| && entries[i].messageID == id
  {
    if entries != [] {
      CarriesMeans(entries[1..], id);
      if Carries(entries[1..], id) {
        var i :| 0 <= i < |entries[1..]| && entries[1..][i].messageID == id;
        assert entries[i + 1].messageID == id;
      } else {
        assert forall i :: 1 <= i < |entries| ==> entries[i] == entries[1..][i - 1];
      }
    }
  }

  lemma {:induction false} HoldsMeans(entries: seq<HashEntry>, id: int, hash: Digest)
    ensures Holds(entries, id, hash) <==>
      exists i :: 0 <= i < |entries| && entries[i].messageID == id && entries[i].hash == hash
  {
    if entries != [] {
      HoldsMeans(entries[1..], id, hash);
      if Holds(entries[1..], id, hash) {
        var i :| 0 <= i < |entries[1..]| && entries[1..][i].messageID == id && entries[1..][i].hash == hash;
        assert entries[i + 1].messageID == id;
      } else {
        assert forall i :: 1 <= i < |entries| ==> entries[i] == entries[1..][i - 1];
      }
    }
  }

  lemma {:induction false} IDsUniqueMeans(entries: seq<HashEntry>)
    ensures IDsUnique(entries) <==>
      forall i, j :: 0 <= i < j < |entries| && entries[j].messageID > 0 ==> entries[i].messageID != entries[j].messageID
  {
    if entries != [] {
      IDsUniqueMeans(Init(entries));
      CarriesMeans(Init(entries), Last(entries).messageID);
      assert forall i :: 0 <= i < |entries| - 1 ==> Init(entries)[i] == entries[i];
    }
  }

  lemma {:induction false} NoLaterMeans(entries: seq<HashEntry>, t: int)
    ensures NoLaterThan(entries, t) <==> forall i :: 0 <= i < |entries| ==> entries[i].time <= t
  {
    if entries != [] {
      NoLaterMeans(Init(entries), t);
      assert forall i :: 0 <= i < |entries| - 1 ==> Init(entries)[i] == entries[i];
    }
  }

  lemma {:induction false} TimeOrderedMeans(entries: seq<HashEntry>)
    ensures TimeOrdered(entries) <==> forall i, j :: 0 <= i < j < |entries| ==> entries[i].time <= entries[j].time
  {
    if entries != [] {
      TimeOrderedMeans(Init(entries));
      NoLaterMeans(Init(entries), Last(entries).time);
      assert forall i :: 0 <= i < |entries| - 1 ==> Init(entries)[i] == entries[i];
    }
  }

  /** In a time-ordered list the live entries are the ones from some position on. */
  lemma {:induction false} LiveMeans(entries: seq<HashEntry>, cutoff: int) returns (from: nat)
    requires TimeOrdered(entries)
    ensures from <= |entries| && Live(entries, cutoff) == entries[from..]
    ensures forall i :: 0 <= i < |entries| ==> (i >= from <==> entries[i].time > cutoff)
  {
    if entries == [] {
      from := 0;
    } else {
      var init, last := Init(entries), Last(entries);
      assert entries == init + [last];
      if last.time > cutoff {
        from := LiveMeans(init, cutoff);
        assert entries[from..] == init[from..] + [last];
        assert forall i :: 0 <= i < |init| ==> entries[i] == init[i];
      } else {
        from := |entries|;
        NoLaterWeaken(init, last.time, cutoff);
        NoneLive(init, cutoff);
        NoLaterMeans(init, cutoff);
        assert forall i :: 0 <= i < |init| ==> entries[i] == init[i];
      }
    }
  }

  lemma {:induction false} LiveMembers(entries: seq<HashEntry>, cutoff: int)
    ensures forall e :: e in Live(entries, cutoff) <==> e in entries && e.time > cutoff
  {
    if entries != [] {
      LiveMembers(Init(entries), cutoff);
      assert forall e :: e in entries <==> e in Init(entries) || e == Last(entries);
    }
  }

  /** The count is that of the positions with this hash, from any position on. */
  lemma {:induction false} CountOfMeans(entries: seq<HashEntry>, from: nat, hash: Digest)
    requires from <= |entries|
    ensures CountOf(entries[from..], hash) == |set i: nat | from <= i < |entries| && entries[i].hash == hash|
    decreases |entries|
  {
    var at := set i: nat | from <= i < |entries| && entries[i].hash == hash;
    if from == |entries| {
      assert at == {};
    } else {
      var init, n: nat := Init(entries), |entries| - 1;
      var before := set i: nat | from <= i < |init| && init[i].hash == hash;
      CountOfMeans(init, from, hash);
      assert Init(entries[from..]) == init[from..] && Last(entries[from..]) == Last(entries);
      forall i: nat
        ensures i in at <==> i in before || (i == n && entries[n].hash == hash)
      {
        assert i < n ==> init[i] == entries[i];
      }
      assert at == before + if entries[n].hash == hash then {n} else {};
      assert n !in before;
    }
  }

  lemma IDsOfLast(entries: seq<HashEntry>, hash: Digest)
    requires entries != []
    ensures IDsOf(entries, hash) == IDsOf(Init(entries), hash) +
      if Last(entries).hash == hash && Last(entries).messageID > 0 then [Last(entries).messageID] else []
  {
  }

  /** The IDs of a hash are those of its positions with a positive ID, in their order. */
  lemma {:induction false} IDsOfMeans(entries: seq<HashEntry>, hash: Digest) returns (at: seq<nat>)
    ensures |at| == |IDsOf(entries, hash)| && forall j, k :: 0 <= j < k < |at| ==> at[j] < at[k]
    ensures forall k :: 0 <= k < |at| ==> at[k] < |entries| && entries[at[k]].messageID == IDsOf(entries, hash)[k]
    ensures forall i: nat :: i in at <==> i < |entries| && entries[i].hash == hash && entries[i].messageID > 0
  {
    if entries == [] {
      at := [];
    } else {
      hide IDsOf;
      var init, n: nat := Init(entries), |entries| - 1;
      at := IDsOfMeans(init, hash);
      IDsOfLast(entries, hash);
      assert forall i: nat :: i < n ==> init[i] == entries[i];
      if entries[n].hash == hash && entries[n].messageID > 0 {
        at := at + [n];
      }
    }
  }

  /** The first time of a hash is that of its first position. */
  lemma {:induction false} FirstTimeMeans(entries: seq<HashEntry>, hash: Digest)
    ensures FirstTime(entries, hash) == None <==> forall i :: 0 <= i < |entries| ==> entries[i].hash != hash
    ensures FirstTime(entries, hash).Some? ==> exists i :: (
      && 0 <= i < |entries| && entries[i].hash == hash && entries[i].time == FirstTime(entries, hash).value
      && forall j :: 0 <= j < i ==> entries[j].hash != hash)
  {
    if entries != [] && entries[0].hash != hash {
      FirstTimeMeans(entries[1..], hash);
      assert forall i :: 1 <= i < |entries| ==> entries[i] == entries[1..][i - 1];
      if FirstTime(entries, hash).Some? {
        var i :| 0 <= i < |entries[1..]| && entries[1..][i].hash == hash &&
          entries[1..][i].time == FirstTime(entries[1..], hash).value &&
          forall j :: 0 <= j < i ==> entries[1..][j].hash != hash;
        assert entries[i + 1].hash == hash;
      }
    }
  }

  /** A message is an edit exactly when it has a positive ID, and some entry inside the window
      carries that ID with its content. */
  lemma IsEditMeans(entries: seq<HashEntry>, p: HashEntry, lim: Limits)
    ensures IsEdit(entries, p, lim) <==>
      && p.messageID > 0
      && exists e :: e in entries && e.messageID == p.messageID && e.hash == p.hash && e.time > p.time - lim.window
  {
    var live := Live(entries, p.time - lim.window);
    HoldsMeans(live, p.messageID, p.hash);
    LiveMembers(entries, p.time - lim.window);
    hide Live, Holds;
    if e :| e in live && e.messageID == p.messageID && e.hash == p.hash {
      var i :| 0 <= i < |live| && live[i] == e;
    }
    if i :| 0 <= i < |live| && live[i].messageID == p.messageID && live[i].hash == p.hash {
      assert live[i] in live;
    }
  }

  // ---- concatenation ----

  lemma {:induction false} LiveConcat(a: seq<HashEntry>, b: seq<HashEntry>, cutoff: int)
    ensures Live(a + b, cutoff) == Live(a, cutoff) + Live(b, cutoff)
  {
    if b == [] {
      assert a + b == a;
    } else {
      InitLast(a, b);
      LiveConcat(a, Init(b), cutoff);
    }
  }

  lemma {:induction false} CountConcat(a: seq<HashEntry>, b: seq<HashEntry>, hash: Digest)
    ensures CountOf(a + b, hash) == CountOf(a, hash) + CountOf(b, hash)
  {
    if b == [] {
      assert a + b == a;
    } else {
      InitLast(a, b);
      CountConcat(a, Init(b), hash);
    }
  }

  lemma {:induction false} IDsConcat(a: seq<HashEntry>, b: seq<HashEntry>, hash: Digest)
    ensures IDsOf(a + b, hash) == IDsOf(a, hash) + IDsOf(b, hash)
  {
    if b == [] {
      assert a + b == a;
    } else {
      InitLast(a, b);
      IDsConcat(a, Init(b), hash);
    }
  }

  lemma {:induction false} LastTimeConcat(a: seq<HashEntry>, b: seq<HashEntry>, hash: Digest)
    ensures LastTime(a + b, hash) == if CountOf(b, hash) > 0 then LastTime(b, hash) else LastTime(a, hash)
  {
    if b == [] {
      assert a + b == a;
    } else {
      InitLast(a, b);
      LastTimeConcat(a, Init(b), hash);
    }
  }

  lemma {:induction false} FirstTimeConcat(a: seq<HashEntry>, b: seq<HashEntry>, hash: Digest)
    ensures FirstTime(a + b, hash) == if CountOf(a, hash) > 0 then FirstTime(a, hash) else FirstTime(b, hash)
    ensures FirstTime(a, hash) == None <==> CountOf(a, hash) == 0
  {
    if a == [] {
      assert a + b == b;
    } else {
      assert (a + b)[1..] == a[1..] + b;
      assert a == [a[0]] + a[1..];
      CountConcat([a[0]], a[1..], hash);
      FirstTimeConcat(a[1..], b, hash);
    }
  }

  lemma {:induction false} CarriesConcat(a: seq<HashEntry>, b: seq<HashEntry>, id: int)
    ensures Carries(a + b, id) <==> Carries(a, id) || Carries(b, id)
  {
    if a == [] {
      assert a + b == b;
    } else {
      assert (a + b)[1..] == a[1..] + b;
      CarriesConcat(a[1..], b, id);
    }
  }

  lemma {:induction false} HoldsConcat(a: seq<HashEntry>, b: seq<HashEntry>, id: int, hash: Digest)
    ensures Holds(a + b, id, hash) <==> Holds(a, id, hash) || Holds(b, id, hash)
  {
    if a == [] {
      assert a + b == b;
    } else {
      assert (a + b)[1..] == a[1..] + b;
      HoldsConcat(a[1..], b, id, hash);
    }
  }

  lemma {:induction false} NoLaterConcat(a: seq<HashEntry>, b: seq<HashEntry>, t: int)
    ensures NoLaterThan(a + b, t) <==> NoLaterThan(a, t) && NoLaterThan(b, t)
  {
    if b == [] {
      assert a + b == a;
    } else {
      InitLast(a, b);
      NoLaterConcat(a, Init(b), t);
    }
  }

  /** Both halves of a sound list are sound. */
  lemma {:induction false} SoundHalves(a: seq<HashEntry>, b: seq<HashEntry>)
    ensures IDsUnique(a + b) ==> IDsUnique(a) && IDsUnique(b)
    ensures TimeOrdered(a + b) ==> TimeOrdered(a) && TimeOrdered(b)
  {
    if b == [] {
      assert a + b == a;
    } else {
      InitLast(a, b);
      SoundHalves(a, Init(b));
      CarriesConcat(a, Init(b), Last(b).messageID);
      NoLaterConcat(a, Init(b), Last(b).time);
    }
  }

  /** Taking one entry out of a sound list leaves a sound list without its ID. */
  lemma {:induction false} SoundWithout(a: seq<HashEntry>, x: HashEntry, b: seq<HashEntry>)
    ensures IDsUnique(a + [x] + b) ==> IDsUnique(a + b) && (x.messageID > 0 ==> !Carries(a + b, x.messageID))
    ensures TimeOrdered(a + [x] + b) ==> TimeOrdered(a + b)
  {
    if b == [] {
      assert a + [x] + b == a + [x] && a + b == a;
      InitLast(a, [x]);
      assert a + Init([x]) == a;
    } else {
      InitLast(a + [x], b);
      InitLast(a, b);
      SoundWithout(a, x, Init(b));
      var y := Last(b);
      CarriesConcat(a + [x], Init(b), y.messageID);
      CarriesConcat(a, [x], y.messageID);
      CarriesConcat(a, Init(b), y.messageID);
      NoLaterConcat(a + [x], Init(b), y.time);
      NoLaterConcat(a, [x], y.time);
      NoLaterConcat(a, Init(b), y.time);
      assert a + b == (a + Init(b)) + [y];
      CarriesConcat(a + Init(b), [y], x.messageID);
    }
  }

  lemma {:induction false} CarriesHolds(entries: seq<HashEntry>, id: int, hash: Digest)
    ensures Holds(entries, id, hash) ==> Carries(entries, id) && CountOf(entries, hash) > 0
  {
    if entries != [] {
      CarriesHolds(entries[1..], id, hash);
      assert entries == [entries[0]] + entries[1..];
      CountConcat([entries[0]], entries[1..], hash);
    }
  }

  lemma {:induction false} IDsCarried(entries: seq<HashEntry>, hash: Digest, k: nat)
    requires k < |IDsOf(entries, hash)|
    ensures var id := IDsOf(entries, hash)[k]; id > 0 && Holds(entries, id, hash)
  {
    var init, last := Init(entries), Last(entries);
    var id := IDsOf(entries, hash)[k];
    assert entries == init + [last];
    HoldsConcat(init, [last], id, hash);
    if k < |IDsOf(init, hash)| {
      IDsCarried(init, hash, k);
    }
  }

  lemma {:induction false} IDsAtMostCount(entries: seq<HashEntry>, hash: Digest)
    ensures |IDsOf(entries, hash)| <= CountOf(entries, hash) <= |entries|
  {
    if entries != [] {
      IDsAtMostCount(Init(entries), hash);
    }
  }

  // ---- expiry ----

  lemma {:induction false} LiveSound(entries: seq<HashEntry>, cutoff: int)
    ensures |Live(entries, cutoff)| <= |entries|
    ensures IDsUnique(entries) ==> IDsUnique(Live(entries, cutoff))
    ensures TimeOrdered(entries) ==> TimeOrdered(Live(entries, cutoff))
    ensures forall id {:trigger Carries(Live(entries, cutoff), id)} :: Carries(Live(entries, cutoff), id) ==>
      Carries(entries, id)
    ensures forall t {:trigger NoLaterThan(entries, t)} :: NoLaterThan(entries, t) ==>
      NoLaterThan(Live(entries, cutoff), t)
  {
    if entries != [] {
      var init, last := Init(entries), Last(entries);
      LiveSound(init, cutoff);
      var live := Live(init, cutoff);
      assert entries == init + [last];
      forall id
        ensures Carries(entries, id) <==> Carries(init, id) || last.messageID == id
        ensures Carries(live + [last], id) <==> Carries(live, id) || last.messageID == id
      {
        CarriesConcat(init, [last], id);
        CarriesConcat(live, [last], id);
      }
      InitLast(live, [last]);
      assert live + Init([last]) == live && live + [] == live;
    }
  }

  /** Filtering at one cutoff and then at a later one equals filtering at the later one. */
  lemma {:induction false} LiveLive(entries: seq<HashEntry>, c1: int, c2: int)
    requires c1 <= c2
    ensures Live(Live(entries, c1), c2) == Live(entries, c2)
  {
    if entries != [] {
      var init, last := Init(entries), Last(entries);
      LiveLive(init, c1, c2);
      LiveConcat(Live(init, c1), if last.time > c1 then [last] else [], c2);
      assert Init([last]) == [];
    }
  }

  lemma LiveAgreesLater(a: seq<HashEntry>, b: seq<HashEntry>, c1: int, c2: int)
    requires c1 <= c2 && Live(a, c1) == Live(b, c1)
    ensures Live(a, c2) == Live(b, c2)
  {
    LiveLive(a, c1, c2);
    LiveLive(b, c1, c2);
  }

  lemma {:induction false} NoneLive(entries: seq<HashEntry>, cutoff: int)
    requires NoLaterThan(entries, cutoff)
    ensures Live(entries, cutoff) == []
  {
    if entries != [] {
      NoneLive(Init(entries), cutoff);
    }
  }

  /** In a time-ordered list everything behind a live entry is live. */
  lemma {:induction false} LiveTail(a: seq<HashEntry>, b: seq<HashEntry>, cutoff: int)
    requires TimeOrdered(a + b) && Live(a, cutoff) != []
    ensures Live(b, cutoff) == b
  {
    if b != [] {
      InitLast(a, b);
      LiveTail(a, Init(b), cutoff);
      NoLaterConcat(a, Init(b), Last(b).time);
      if Last(b).time <= cutoff {
        NoLaterWeaken(a, Last(b).time, cutoff);
        NoneLive(a, cutoff);
      }
      assert Init(b) + [Last(b)] == b;
    }
  }

  lemma {:induction false} NoLaterWeaken(entries: seq<HashEntry>, t: int, t': int)
    requires NoLaterThan(entries, t) && t <= t'
    ensures NoLaterThan(entries, t')
  {
    if entries != [] {
      NoLaterWeaken(Init(entries), t, t');
    }
  }
}
